/** One life of the vault record after another. Revisions restart at 1, and a tab or a suspended call may
    still hold a record of an earlier life. `before` is the set of kdf blocks the records of earlier lives had;
    a new vault draws a fresh salt, so its own block is never among them. Mutations start in any tab that is
    unlocked, whether its secrets are those of its record or not. */
module VaultLives {
  import opened Common
  import opened SealedBox
  import opened VaultState
  import opened VaultMutations
  import opened VaultProtocol
  import H = VaultHistory

  /** A record of this life or of an earlier one. */
  ghost predicate Known(before: set<Kdf>, o: Store, s: Sys, r: Record) {
    r.kdf in before || H.InHistory(o, s, r)
  }

  ghost predicate SeenOk(before: set<Kdf>, o: Store, s: Sys, vault: Option<Record>) {
    vault.Some? ==> vault == o.vault || Known(before, o, s, vault.value)
  }

  ghost predicate TaskOk(before: set<Kdf>, o: Store, s: Sys, task: Task) {
    match task
    case Loaded(found, _) => SeenOk(before, o, s, found.vault)
    case MigrateSealed(draft, _, _) => draft.kdf !in before && draft.box.Sealed?
    case MigrateSave(draft, _, _, _, _) => draft.kdf !in before && draft.box.Sealed?
    case MigrateSaved(saved, _, _) => Known(before, o, s, saved)
    case MigrateDelete(saved, _, _) => Known(before, o, s, saved)
    case MigrateFinish(saved, _, _) => Known(before, o, s, saved)
    case CommitSave(draft, baseRev, _, base, cause, held) =>
      && SeenOk(before, o, s, Some(base)) && baseRev == base.rev
      && draft.kdf == base.kdf && draft.box.Sealed? && Apply(cause, base.meta, held) == Write(draft.meta, draft.box.plain)
    case CommitSaved(saved, _) => Known(before, o, s, saved)
    case DeleteSave(baseRev, base, cause) => SeenOk(before, o, s, Some(base)) && baseRev == base.rev
    case CreateSave(draft, _, _, _) => draft.kdf !in before && draft.box.Sealed?
    case Created(saved, _, _) => Known(before, o, s, saved)
    case _ => true
  }

  // ---- what a linear life is ----

  /** Revision number i starts the life, is a migration, or is one mutation of the revision before. */
  ghost predicate CameAbout(s: Sys, i: nat)
    requires i < |s.hist| && i < |s.log|
  {
    match s.log[i]
    case ByCreate(_, _) => i == 0
    case ByMigration => true
    case ByMutation(m) => i > 0 && H.OneMutation(m, s.hist[i - 1], s.hist[i])
    case _ => false
  }

  ghost predicate Linear(s: Sys) {
    |s.log| == |s.hist| && forall i :: 0 <= i < |s.hist| ==> CameAbout(s, i)
  }

  ghost predicate OwnRecord(before: set<Kdf>, o: Store, s: Sys, i: nat)
    requires i < |s.hist|
  {
    s.hist[i].rev == StoredRev(o) + i + 1 && s.hist[i].kdf !in before && s.hist[i].box.Sealed?
  }

  ghost predicate StoreOk(o: Store, s: Sys) {
    !s.ended ==> s.store.vault == if s.hist == [] then o.vault else Some(s.hist[|s.hist| - 1])
  }

  ghost predicate HistoryOk(before: set<Kdf>, o: Store, s: Sys) {
    && |s.log| == |s.hist| && StoreOk(o, s)
    && (forall i :: 0 <= i < |s.hist| ==> OwnRecord(before, o, s, i))
  }

  ghost predicate Inv(before: set<Kdf>, o: Store, s: Sys) {
    && HistoryOk(before, o, s)
    && (forall tab :: tab in s.tabs ==> SeenOk(before, o, s, s.tabs[tab].record))
    && (forall c :: c in s.calls ==> TaskOk(before, o, s, s.calls[c].1))
  }

  /** A life begins: what is stored, and whatever tabs and calls hold, is left over. */
  ghost predicate LifeBegins(before: set<Kdf>, s: Sys) {
    s.hist == [] && s.log == [] && !s.ended && Inv(before, s.store, s)
  }

  /** Salts are fresh; mutations start wherever the code starts them. */
  ghost predicate Legal(before: set<Kdf>, s: Sys, e: Event) {
    && !s.ended
    && (e.Resume? ==> Kdf(e.rnd.iterations, e.rnd.salt) !in before)
  }

  ghost predicate LegalRun(before: set<Kdf>, s: Sys, es: seq<Event>) {
    es == [] || (LegalRun(before, s, es[..|es| - 1]) && Legal(before, Run(s, es[..|es| - 1]), es[|es| - 1]))
  }

  /** The step lands a commit. */
  ghost predicate Lands(s: Sys, e: Event) {
    e.Resume? && e.call in s.calls && s.calls[e.call].1.CommitSave? && s.calls[e.call].1.baseRev == StoredRev(s.store)
  }

  /** The commit was computed from a record that this life did not store. */
  ghost predicate LandsForeign(before: set<Kdf>, o: Store, s: Sys, e: Event) {
    Lands(s, e) && (s.calls[e.call].1.base.kdf in before || o.vault == Some(s.calls[e.call].1.base))
  }

  /** The secrets it was computed from lack something that it takes over from its record. */
  ghost predicate Torn(task: Task)
    requires task.CommitSave?
  {
    task.base.box.Sealed? ==> !Agrees(task.cause, task.base.meta, task.held, task.base.box.plain)
  }

  ghost predicate LandsStale(before: set<Kdf>, o: Store, s: Sys, e: Event) {
    LandsForeign(before, o, s, e) || (Lands(s, e) && Torn(s.calls[e.call].1))
  }

  // ---- a step that lands nothing of an earlier life ----

  ghost predicate Grows(s: Sys, s': Sys) {
    s.hist <= s'.hist
  }

  lemma TaskOkGrows(before: set<Kdf>, o: Store, s: Sys, s': Sys, task: Task)
    requires Grows(s, s') && TaskOk(before, o, s, task)
    ensures TaskOk(before, o, s', task)
  {
  }

  /** What a segment wrote, seen from the history. */
  ghost predicate Recorded(s: Sys, r: Segment, s': Sys) {
    s' == VaultProtocol.Recorded(s, r.store, r.wrote).(tabs := s'.tabs, calls := s'.calls)
  }

  lemma SameHistory(before: set<Kdf>, o: Store, s: Sys, s': Sys)
    requires HistoryOk(before, o, s) && s'.hist == s.hist && s'.log == s.log
    requires s'.ended || (s'.store.vault == s.store.vault && !s.ended)
    ensures HistoryOk(before, o, s') && (Linear(s) ==> Linear(s'))
  {
    forall i | 0 <= i < |s'.hist| ensures OwnRecord(before, o, s', i) && (Linear(s) ==> CameAbout(s', i)) {
      assert OwnRecord(before, o, s, i) && (Linear(s) ==> CameAbout(s, i));
    }
  }

  lemma Appends(before: set<Kdf>, o: Store, s: Sys, s': Sys, saved: Record, w: Written)
    requires HistoryOk(before, o, s) && s'.hist == s.hist + [saved] && s'.log == s.log + [w]
    requires s'.store.vault == Some(saved) && OwnRecord(before, o, s', |s.hist|)
    ensures HistoryOk(before, o, s') && (Linear(s') <==> Linear(s) && CameAbout(s', |s.hist|))
  {
    forall i | 0 <= i < |s'.hist| ensures OwnRecord(before, o, s', i) {
      if i < |s.hist| {
        assert OwnRecord(before, o, s, i);
      }
    }
    forall i | 0 <= i < |s.hist| ensures CameAbout(s', i) <==> CameAbout(s, i) {
      assert s'.hist[i] == s.hist[i] && s'.log[i] == s.log[i] && (i > 0 ==> s'.hist[i - 1] == s.hist[i - 1]);
    }
  }

  lemma StoredRevIs(before: set<Kdf>, o: Store, s: Sys)
    requires HistoryOk(before, o, s) && !s.ended
    ensures StoredRev(s.store) == StoredRev(o) + |s.hist|
  {
    if s.hist != [] {
      assert OwnRecord(before, o, s, |s.hist| - 1);
    }
  }

  /** Of this life, only the stored record has the stored revision. */
  lemma LatestIs(before: set<Kdf>, o: Store, s: Sys, r: Record)
    requires HistoryOk(before, o, s) && !s.ended && H.InHistory(o, s, r) && r.rev == StoredRev(s.store)
    ensures s.hist != [] && s.hist[|s.hist| - 1] == r && s.store.vault == Some(r) && r.kdf !in before && r.box.Sealed?
  {
    StoredRevIs(before, o, s);
    assert OwnRecord(before, o, s, |s.hist| - 1);
  }

  /** A commit computed from a record of this life lands on that record, and is one mutation of it exactly
      when it is not torn. */
  lemma OwnCommitLands(before: set<Kdf>, o: Store, s: Sys, s': Sys, r: Segment, task: Task)
    requires HistoryOk(before, o, s) && !s.ended && TaskOk(before, o, s, task) && task.CommitSave?
    requires task.baseRev == StoredRev(s.store) && task.base.kdf !in before && o.vault != Some(task.base)
    requires r.store == s.store.(vault := Some(task.draft.(rev := task.baseRev + 1))) && r.wrote == ByMutation(task.cause)
    requires Recorded(s, r, s')
    ensures s.store.vault == Some(task.base) && task.base.box.Sealed? && H.InHistory(o, s', r.store.vault.value)
    ensures H.OneMutation(task.cause, task.base, r.store.vault.value) <==> !Torn(task)
    ensures HistoryOk(before, o, s') && Grows(s, s') && (Linear(s') <==> Linear(s) && !Torn(task))
  {
    var saved := r.store.vault.value;
    LatestIs(before, o, s, task.base);
    StoredRevIs(before, o, s);
    H.CommitIsMutationIff(task.cause, task.base, task.held, saved);
    assert OwnRecord(before, o, s', |s.hist|);
    Appends(before, o, s, s', saved, ByMutation(task.cause));
  }

  lemma CommitLands(before: set<Kdf>, o: Store, s: Sys, s': Sys, t: Tab, task: Task, rnd: Fresh)
    requires HistoryOk(before, o, s) && !s.ended && TaskOk(before, o, s, task) && task.CommitSave?
    requires task.baseRev == StoredRev(s.store) ==> task.base.kdf !in before && o.vault != Some(task.base)
    requires Recorded(s, Continue(s.store, t, task, rnd), s')
    ensures HistoryOk(before, o, s') && Grows(s, s')
    ensures Linear(s) ==> (Linear(s') <==> task.baseRev == StoredRev(s.store) ==> !Torn(task))
    ensures var r := Continue(s.store, t, task, rnd); r.next.Some? ==> TaskOk(before, o, s', r.next.value)
  {
    if task.baseRev == StoredRev(s.store) {
      OwnCommitLands(before, o, s, s', Continue(s.store, t, task, rnd), task);
    } else {
      SameHistory(before, o, s, s');
    }
  }

  /** A new vault, created or migrated. */
  lemma DraftLands(before: set<Kdf>, o: Store, s: Sys, s': Sys, t: Tab, task: Task, rnd: Fresh)
    requires HistoryOk(before, o, s) && !s.ended && TaskOk(before, o, s, task) && (task.CreateSave? || task.MigrateSave?)
    requires Recorded(s, Continue(s.store, t, task, rnd), s')
    ensures HistoryOk(before, o, s') && Grows(s, s') && (Linear(s) ==> Linear(s'))
    ensures var r := Continue(s.store, t, task, rnd); r.next.Some? ==> TaskOk(before, o, s', r.next.value)
  {
    var base := if task.CreateSave? then 0 else task.baseRev;
    if StoredRev(s.store) == base {
      StoredRevIs(before, o, s);
      var saved := task.draft.(rev := base + 1);
      Appends(before, o, s, s', saved, Continue(s.store, t, task, rnd).wrote);
    } else {
      SameHistory(before, o, s, s');
    }
  }

  lemma QuietLands(before: set<Kdf>, o: Store, s: Sys, s': Sys, t: Tab, task: Task, rnd: Fresh)
    requires HistoryOk(before, o, s) && !s.ended && TaskOk(before, o, s, task) && SeenOk(before, o, s, t.record)
    requires !task.CreateSave? && !task.MigrateSave? && !task.CommitSave? && Kdf(rnd.iterations, rnd.salt) !in before
    requires Recorded(s, Continue(s.store, t, task, rnd), s')
    ensures HistoryOk(before, o, s') && Grows(s, s') && (Linear(s) ==> Linear(s'))
    ensures var r := Continue(s.store, t, task, rnd); r.next.Some? ==> TaskOk(before, o, s', r.next.value)
  {
    SameHistory(before, o, s, s');
    if task.LoadCall? && s.hist != [] {
      assert OwnRecord(before, o, s, |s.hist| - 1);
    }
  }

  lemma TabLands(before: set<Kdf>, o: Store, s: Sys, t: Tab, task: Task, rnd: Fresh)
    requires TaskOk(before, o, s, task) && SeenOk(before, o, s, t.record)
    ensures SeenOk(before, o, s, Continue(s.store, t, task, rnd).tab.record)
  {
  }

  lemma SegmentLands(before: set<Kdf>, o: Store, s: Sys, s': Sys, t: Tab, task: Task, rnd: Fresh)
    requires HistoryOk(before, o, s) && !s.ended && TaskOk(before, o, s, task) && SeenOk(before, o, s, t.record)
    requires Kdf(rnd.iterations, rnd.salt) !in before && Recorded(s, Continue(s.store, t, task, rnd), s')
    requires task.CommitSave? && task.baseRev == StoredRev(s.store) ==> task.base.kdf !in before && o.vault != Some(task.base)
    ensures HistoryOk(before, o, s') && Grows(s, s')
    ensures Linear(s) ==> (Linear(s') <==> (task.CommitSave? && task.baseRev == StoredRev(s.store) ==> !Torn(task)))
    ensures var r := Continue(s.store, t, task, rnd);
            SeenOk(before, o, s', r.tab.record) && (r.next.Some? ==> TaskOk(before, o, s', r.next.value))
  {
    TabLands(before, o, s, t, task, rnd);
    if task.CommitSave? {
      CommitLands(before, o, s, s', t, task, rnd);
    } else if task.CreateSave? || task.MigrateSave? {
      DraftLands(before, o, s, s', t, task, rnd);
    } else {
      QuietLands(before, o, s, s', t, task, rnd);
    }
  }

  lemma ResumeKeeps(before: set<Kdf>, o: Store, s: Sys, call: nat, rnd: Fresh)
    requires Inv(before, o, s) && Legal(before, s, Resume(call, rnd)) && call in s.calls
    requires !LandsForeign(before, o, s, Resume(call, rnd))
    ensures Inv(before, o, Next(s, Resume(call, rnd)))
    ensures Linear(s) ==> (Linear(Next(s, Resume(call, rnd))) <==> !LandsStale(before, o, s, Resume(call, rnd)))
  {
    var s' := Next(s, Resume(call, rnd));
    var (tab, task) := s.calls[call];
    SegmentLands(before, o, s, s', TabOf(s, tab), task, rnd);
    OthersKeep(before, o, s, s', call, tab);
  }

  /** What the other tabs and calls hold is still known. */
  lemma OthersKeep(before: set<Kdf>, o: Store, s: Sys, s': Sys, call: nat, tab: nat)
    requires Grows(s, s')
    requires forall c :: c in s.calls ==> TaskOk(before, o, s, s.calls[c].1)
    requires forall x :: x in s.tabs ==> SeenOk(before, o, s, s.tabs[x].record)
    ensures forall c :: c in s.calls && c != call ==> TaskOk(before, o, s', s.calls[c].1)
    ensures forall x :: x in s.tabs && x != tab ==> SeenOk(before, o, s', s.tabs[x].record)
  {
    forall c | c in s.calls && c != call ensures TaskOk(before, o, s', s.calls[c].1) {
      TaskOkGrows(before, o, s, s', s.calls[c].1);
    }
  }

  lemma StartKeeps(before: set<Kdf>, o: Store, s: Sys, t: Tab, m: Mutation, iv: nat)
    requires SeenOk(before, o, s, t.record)
    ensures StartMutation(t, m, iv).Some? ==> TaskOk(before, o, s, StartMutation(t, m, iv).value)
  {
  }

  lemma NextKeeps(before: set<Kdf>, o: Store, s: Sys, e: Event)
    requires Inv(before, o, s) && Legal(before, s, e) && !LandsForeign(before, o, s, e)
    ensures Inv(before, o, Next(s, e))
    ensures Linear(s) ==> (Linear(Next(s, e)) <==> !LandsStale(before, o, s, e))
  {
    var s' := Next(s, e);
    if e.Resume? {
      if e.call in s.calls {
        ResumeKeeps(before, o, s, e.call, e.rnd);
      }
    } else {
      SameHistory(before, o, s, s');
      if e.Mutate? {
        StartKeeps(before, o, s, TabOf(s, e.tab), e.m, e.iv);
      }
      forall c | c in s'.calls ensures TaskOk(before, o, s', s'.calls[c].1) {
        TaskOkGrows(before, o, s, s', s'.calls[c].1);
      }
    }
  }

  // ---- a step that lands a commit of an earlier life ----

  /** The written revision has the kdf block of the earlier life, so it is no mutation of what was stored; or
      nothing of this life was stored. */
  lemma ForeignBreaks(before: set<Kdf>, o: Store, s: Sys, e: Event)
    requires Inv(before, o, s) && Legal(before, s, e) && LandsForeign(before, o, s, e)
    ensures !Linear(Next(s, e))
  {
    var s' := Next(s, e);
    var n := |s.hist|;
    StoredRevIs(before, o, s);
    var task := s.calls[e.call].1;
    assert TaskOk(before, o, s, task);
    assert s'.hist[n].kdf == task.base.kdf && s'.log[n].ByMutation?;
    if n > 0 {
      assert OwnRecord(before, o, s, n - 1) && s'.hist[n - 1] == s.hist[n - 1];
    }
    assert !CameAbout(s', n);
  }

  /** A history that is not linear never becomes so. */
  lemma BrokenStays(s: Sys, e: Event)
    requires !Linear(s)
    ensures !Linear(Next(s, e))
  {
    var s' := Next(s, e);
    assert |s'.hist| - |s.hist| == |s'.log| - |s.log| && s.hist <= s'.hist && s.log <= s'.log;
    if |s.log| == |s.hist| {
      var i :| 0 <= i < |s.hist| && !CameAbout(s, i);
      assert s'.log[i] == s.log[i] && s'.hist[i] == s.hist[i] && (i > 0 ==> s'.hist[i - 1] == s.hist[i - 1]);
      assert !CameAbout(s', i);
    }
  }

  // ---- whole lives ----

  ghost predicate NothingForeign(before: set<Kdf>, s: Sys, es: seq<Event>) {
    es == [] || (NothingForeign(before, s, es[..|es| - 1]) && !LandsForeign(before, s.store, Run(s, es[..|es| - 1]), es[|es| - 1]))
  }

  ghost predicate NothingStale(before: set<Kdf>, s: Sys, es: seq<Event>) {
    es == [] || (NothingStale(before, s, es[..|es| - 1]) && !LandsStale(before, s.store, Run(s, es[..|es| - 1]), es[|es| - 1]))
  }

  lemma {:induction false} RunKeeps(before: set<Kdf>, s0: Sys, es: seq<Event>)
    requires LifeBegins(before, s0) && LegalRun(before, s0, es)
    ensures NothingStale(before, s0, es) ==> NothingForeign(before, s0, es)
    ensures NothingForeign(before, s0, es) ==> Inv(before, s0.store, Run(s0, es))
    ensures Linear(Run(s0, es)) <==> NothingStale(before, s0, es)
  {
    if es != [] {
      var s, e := Run(s0, es[..|es| - 1]), es[|es| - 1];
      RunKeeps(before, s0, es[..|es| - 1]);
      if !Linear(s) {
        BrokenStays(s, e);
      }
      if NothingForeign(before, s0, es[..|es| - 1]) {
        if LandsForeign(before, s0.store, s, e) {
          ForeignBreaks(before, s0.store, s, e);
        } else {
          NextKeeps(before, s0.store, s, e);
        }
      }
    }
  }

  /** A life is linear exactly when every commit that lands in it was computed from a record of this life and
      from secrets that agree with that record in all that the mutation reads or carries over. */
  lemma LinearIffNothingStale(before: set<Kdf>, s0: Sys, es: seq<Event>)
    requires LifeBegins(before, s0) && LegalRun(before, s0, es)
    ensures Linear(Run(s0, es)) <==> NothingStale(before, s0, es)
  {
    RunKeeps(before, s0, es);
  }

  /** Whatever torn commits landed before: a commit computed from a record of this life lands on that very
      record, and what it stores is one mutation of it exactly when its secrets agreed with it. */
  lemma LandingIsMutationIff(before: set<Kdf>, s0: Sys, es: seq<Event>, s: Sys, e: Event)
    requires LifeBegins(before, s0) && LegalRun(before, s0, es) && NothingForeign(before, s0, es) && s == Run(s0, es)
    requires Legal(before, s, e) && Lands(s, e) && !LandsForeign(before, s0.store, s, e)
    ensures var task, s' := s.calls[e.call].1, Next(s, e);
            && s.store.vault == Some(task.base) && task.base.box.Sealed? && s'.store.vault.Some?
            && s'.log == s.log + [ByMutation(task.cause)]
            && (H.OneMutation(task.cause, task.base, s'.store.vault.value) <==>
                  Agrees(task.cause, task.base.meta, task.held, task.base.box.plain))
  {
    assert Inv(before, s0.store, s) by {
      RunKeeps(before, s0, es);
    }
    LandsOnItsBase(before, s0.store, s, s.calls[e.call].0, s.calls[e.call].1, e);
  }

  lemma LandsOnItsBase(before: set<Kdf>, o: Store, s: Sys, tab: nat, task: Task, e: Event)
    requires HistoryOk(before, o, s) && !s.ended && Lands(s, e) && s.calls[e.call] == (tab, task)
    requires TaskOk(before, o, s, task) && task.base.kdf !in before && o.vault != Some(task.base)
    ensures var s' := Next(s, e);
            && s.store.vault == Some(task.base) && task.base.box.Sealed? && s'.store.vault.Some?
            && s'.log == s.log + [ByMutation(task.cause)]
            && (H.OneMutation(task.cause, task.base, s'.store.vault.value) <==> !Torn(task))
  {
    var r := Continue(s.store, TabOf(s, tab), task, e.rnd);
    ResumeEffect(s, e.call, e.rnd, tab, task);
    OwnCommitLands(before, o, s, Next(s, e), r, task);
  }

  /** A deletion that lands takes the record it was asked of exactly when that is of this life. */
  lemma DeletionTakesItsOwnRecord(before: set<Kdf>, s0: Sys, es: seq<Event>, s: Sys, c: nat)
    requires LifeBegins(before, s0) && LegalRun(before, s0, es) && NothingForeign(before, s0, es) && s == Run(s0, es) && !s.ended
    requires c in s.calls && s.calls[c].1.DeleteSave? && s.calls[c].1.baseRev == StoredRev(s.store) && s.hist != []
    ensures s.store.vault == Some(s.calls[c].1.base) <==> s.calls[c].1.base.kdf !in before
  {
    RunKeeps(before, s0, es);
    assert TaskOk(before, s0.store, s, s.calls[c].1);
    StoredIffOwn(before, s0.store, s, s.calls[c].1.base);
  }

  lemma StoredIffOwn(before: set<Kdf>, o: Store, s: Sys, base: Record)
    requires HistoryOk(before, o, s) && !s.ended && s.hist != []
    requires SeenOk(before, o, s, Some(base)) && base.rev == StoredRev(s.store)
    ensures s.store.vault == Some(base) <==> base.kdf !in before
  {
    assert OwnRecord(before, o, s, |s.hist| - 1);
    if base.kdf !in before {
      LatestIs(before, o, s, base);
    }
  }

  /** Drafts that wait to start or replace a vault drew salts of their own. */
  ghost predicate FreshDrafts(before: set<Kdf>, s: Sys) {
    forall c :: c in s.calls && (s.calls[c].1.CreateSave? || s.calls[c].1.MigrateSealed? || s.calls[c].1.MigrateSave?) ==>
      s.calls[c].1.draft.kdf !in before
  }

  /** The kdf blocks of everything a life stored, and of the record it may have begun with. */
  ghost function Blocks(o: Store, s: Sys): set<Kdf> {
    (set r | r in s.hist :: r.kdf) + if o.vault.Some? then {o.vault.value.kdf} else {}
  }

  /** An ordinary start begins a life with nothing left over. */
  lemma FirstLife(s0: Sys)
    requires H.Init(s0)
    ensures LifeBegins({}, s0)
  {
  }

  /** When a life in which nothing of an earlier one landed ends, the next one begins, with the ended one among
      the earlier lives. */
  lemma NextLife(before: set<Kdf>, s0: Sys, es: seq<Event>, s: Sys)
    requires LifeBegins(before, s0) && LegalRun(before, s0, es) && NothingForeign(before, s0, es) && s == Run(s0, es)
    requires s.ended && s.store.vault == None && FreshDrafts(before + Blocks(s0.store, s), s)
    ensures LifeBegins(before + Blocks(s0.store, s), s.(hist := [], log := [], ended := false))
  {
    RunKeeps(before, s0, es);
    var older := before + Blocks(s0.store, s);
    var s' := s.(hist := [], log := [], ended := false);
    forall c | c in s'.calls ensures TaskOk(older, s'.store, s', s'.calls[c].1) {
      Older(before, s0.store, s, s', s.calls[c].1);
    }
    forall tab | tab in s'.tabs ensures SeenOk(older, s'.store, s', s'.tabs[tab].record) {
      assert SeenOk(before, s0.store, s, s.tabs[tab].record);
    }
  }

  lemma Older(before: set<Kdf>, o: Store, s: Sys, s': Sys, task: Task)
    requires TaskOk(before, o, s, task) && s' == s.(hist := [], log := [], ended := false)
    requires task.CreateSave? || task.MigrateSealed? || task.MigrateSave? ==> task.draft.kdf !in before + Blocks(o, s)
    ensures TaskOk(before + Blocks(o, s), s'.store, s', task)
  {
  }
}
