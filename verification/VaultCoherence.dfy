/** Where the coherence condition of VaultHistory comes from. `refresh` and `unlock` set `record`
    before an await and `secrets` after it. If nothing else of the same tab runs inside that gap,
    every unlocked tab is coherent at every mutation, so the history theorems need no condition. */
module VaultCoherence {
  import opened Common
  import opened SealedBox
  import opened VaultState
  import opened VaultMutations
  import opened VaultProtocol
  import opened VaultHistory

  /** The call has set `record` and still owes `secrets`. */
  predicate OpenPending(task: Task) {
    task.RefreshOpened? || task.UnlockOpened?
  }

  ghost predicate Busy(s: Sys, tab: nat) {
    exists c :: c in s.calls && s.calls[c].0 == tab && OpenPending(s.calls[c].1)
  }

  /** The segment hands the tab a key. */
  predicate GivesKey(task: Task) {
    (task.UnlockOpened? && task.unlocked.Some?) || task.Created? || task.MigrateFinish?
  }

  predicate CommitWaiting(task: Task) {
    task.CommitSave? || task.CommitSaved?
  }

  ghost predicate Committing(s: Sys, tab: nat) {
    exists c :: c in s.calls && s.calls[c].0 == tab && CommitWaiting(s.calls[c].1)
  }

  /** No segment and no mutation of a tab runs inside its own gap; `unlock` and `createVault` are used in
      a tab that is not unlocked already; and where a v1 record can change the key of the vault, a tab is
      not unlocked anew while a commit of it waits. */
  ghost predicate Prompt(o: Store, s: Sys, e: Event) {
    && !s.ended
    && (e.Mutate? ==> !Busy(s, e.tab))
    && (e.Resume? && e.call in s.calls ==>
          var (tab, task) := s.calls[e.call];
          && (Busy(s, tab) ==> OpenPending(task))
          && (task.Loaded? && !task.why.ForRefresh? ==> TabOf(s, tab).key == None)
          && (o.primary.Some? && GivesKey(task) ==> !Committing(s, tab)))
  }

  ghost predicate PromptRun(s: Sys, es: seq<Event>) {
    es == [] || (PromptRun(s, es[..|es| - 1]) && Prompt(s.store, Run(s, es[..|es| - 1]), es[|es| - 1]))
  }

  ghost predicate PendingOk(t: Tab, task: Task) {
    match task
    case RefreshOpened(got) => t.key.Some? ==> t.record.Some? && got == Open(t.key.value, t.record.value.box)
    case UnlockOpened(password, unlocked) =>
      && t.key == None
      && (unlocked.Some? ==> t.record.Some? && unlocked == TryPassword(t.record.value, password))
    case CommitSaved(saved, secrets) =>
      saved.box.Sealed? && saved.box.plain == secrets && (t.key.Some? ==> t.key.value == saved.box.key)
    case CommitSave(draft, _, secrets, _, _, _) =>
      draft.box.Sealed? && draft.box.plain == secrets && (t.key.Some? ==> t.key.value == draft.box.key)
    case _ => true
  }

  ghost predicate OnePending(s: Sys) {
    forall c, d | c in s.calls && d in s.calls && OpenPending(s.calls[c].1) && OpenPending(s.calls[d].1) ::
      s.calls[c].0 == s.calls[d].0 ==> c == d
  }

  ghost predicate TabsCoherent(s: Sys) {
    forall tab :: tab in s.tabs && s.tabs[tab].key.Some? && !Busy(s, tab) ==> Coherent(s.tabs[tab])
  }

  /** The key of the first stored revision. */
  ghost predicate FirstKey(s: Sys, k: Key) {
    s.hist != [] && s.hist[0].box.Sealed? && k == s.hist[0].box.key
  }

  /** Without a v1 record every tab that has a key has the same one. */
  ghost predicate OneKey(o: Store, s: Sys) {
    o.primary == None ==> forall tab :: tab in s.tabs && s.tabs[tab].key.Some? ==> FirstKey(s, s.tabs[tab].key.value)
  }

  ghost predicate CoherentInv(o: Store, s: Sys) {
    && Inv(o, s)
    && OnePending(s)
    && TabsCoherent(s)
    && OneKey(o, s)
    && (forall c :: c in s.calls ==> PendingOk(TabOf(s, s.calls[c].0), s.calls[c].1))
  }

  // ---- one key per life ----

  lemma {:induction false} OneKdf(o: Store, s: Sys, i: nat)
    requires HistoryOk(o, s) && o.primary == None && i < |s.hist|
    ensures s.hist[i].kdf == s.hist[0].kdf
  {
    if i > 0 {
      OneKdf(o, s, i - 1);
      assert CameAbout(o, s, i);
    }
  }

  lemma UnderFirstKey(o: Store, s: Sys, r: Record)
    requires HistoryOk(o, s) && o.primary == None && InHistory(o, s, r)
    ensures Sound(r, s.password) && FirstKey(s, r.box.key)
  {
    var i := r.rev - StoredRev(o) - 1;
    OneKdf(o, s, i);
    assert RecordOk(o, s, 0) && RecordOk(o, s, i);
  }

  /** A waiting commit seals under that key too. */
  lemma CommitUnderFirstKey(o: Store, s: Sys, t: Tab, task: Task)
    requires HistoryOk(o, s) && o.primary == None && TaskOk(o, s, task) && CommitWaiting(task)
    requires t.key.Some? ==> FirstKey(s, t.key.value)
    requires task.CommitSaved? ==> task.saved.box.Sealed? && task.saved.box.plain == task.secrets
    ensures PendingOk(t, task)
  {
    assert s.hist != [] ==> CameAbout(o, s, 0);
    UnderFirstKey(o, s, if task.CommitSave? then task.base else task.saved);
  }

  // ---- one segment ----

  /** What a segment leaves in its own tab. */
  lemma SegmentCoherent(s: Sys, t: Tab, task: Task, rnd: Fresh, o: Store)
    requires TaskOk(o, s, task) && PendingOk(t, task)
    requires OpenPending(task) || (t.key.Some? ==> Coherent(t))
    requires task.Loaded? && !task.why.ForRefresh? ==> t.key == None
    ensures var r := Continue(s.store, t, task, rnd);
            && (r.next.Some? ==> PendingOk(r.tab, r.next.value))
            && (r.tab.key.Some? && (r.next == None || !OpenPending(r.next.value)) ==> Coherent(r.tab))
  {
  }

  /** A segment keeps or drops the tab's key unless it is one that gives a key; what it gives opens a
      stored revision. */
  lemma SegmentKey(o: Store, s: Sys, t: Tab, task: Task, rnd: Fresh)
    requires Begins(o) && TaskOk(o, s, task) && PendingOk(t, task) && SeenOk(o, s, t.record, t.primary)
    ensures var r := Continue(s.store, t, task, rnd);
            && (!GivesKey(task) ==> r.tab.key == t.key || r.tab.key == None)
            && (GivesKey(task) && r.tab.key.Some? ==>
                  r.tab.record.Some? && InHistory(o, s, r.tab.record.value) && Open(r.tab.key.value, r.tab.record.value.box).Some?)
  {
  }

  lemma StartCoherent(t: Tab, m: Mutation, iv: nat)
    ensures StartMutation(t, m, iv).Some? ==>
      PendingOk(t, StartMutation(t, m, iv).value) && !OpenPending(StartMutation(t, m, iv).value)
  {
  }

  /** A call's obligation speaks of its tab only while it owes `secrets` or waits to commit. */
  lemma PendingElsewhere(t: Tab, t': Tab, task: Task)
    requires PendingOk(t, task) && !OpenPending(task)
    requires CommitWaiting(task) ==> t'.key == t.key || t'.key == None
    ensures PendingOk(t', task)
  {
  }

  /** The keys after a segment of call. */
  lemma KeysAfter(o: Store, s: Sys, call: nat, rnd: Fresh)
    requires CoherentInv(o, s) && Inv(o, Next(s, Resume(call, rnd))) && call in s.calls && o.primary == None && !s.ended
    ensures OneKey(o, Next(s, Resume(call, rnd)))
    ensures var t := TabOf(Next(s, Resume(call, rnd)), s.calls[call].0);
            t.key.Some? ==> FirstKey(Next(s, Resume(call, rnd)), t.key.value)
  {
    var s' := Next(s, Resume(call, rnd));
    var (tab, task) := s.calls[call];
    var t := TabOf(s, tab);
    SegmentKey(o, s, t, task, rnd);
    ContinueKeeps(o, s, s', t, task, rnd);
    assert t.key.Some? ==> tab in s.tabs;
    var t' := TabOf(s', tab);
    if GivesKey(task) && t'.key.Some? {
      UnderFirstKey(o, s, t'.record.value);
    }
    assert forall k :: FirstKey(s, k) ==> FirstKey(s', k);
  }

  /** Another call of the same tab that is not in its gap. */
  lemma OtherCall(o: Store, s: Sys, call: nat, c: nat, rnd: Fresh)
    requires CoherentInv(o, s) && Prompt(o, s, Resume(call, rnd)) && call in s.calls
    requires Inv(o, Next(s, Resume(call, rnd)))
    requires c in s.calls && c != call && s.calls[c].0 == s.calls[call].0 && !OpenPending(s.calls[c].1)
    ensures PendingOk(TabOf(Next(s, Resume(call, rnd)), s.calls[c].0), s.calls[c].1)
  {
    var s' := Next(s, Resume(call, rnd));
    var (tab, task) := s.calls[call];
    var t, t' := TabOf(s, tab), TabOf(s', tab);
    SegmentKey(o, s, t, task, rnd);
    if CommitWaiting(s.calls[c].1) && GivesKey(task) {
      assert Committing(s, tab);
      KeysAfter(o, s, call, rnd);
      assert c in s'.calls && s'.calls[c] == s.calls[c];
      CommitUnderFirstKey(o, s', t', s.calls[c].1);
    } else {
      PendingElsewhere(t, t', s.calls[c].1);
    }
  }

  lemma PromptResume(o: Store, s: Sys, call: nat, rnd: Fresh)
    requires CoherentInv(o, s) && Prompt(o, s, Resume(call, rnd)) && call in s.calls
    ensures CoherentInv(o, Next(s, Resume(call, rnd)))
  {
    var s' := Next(s, Resume(call, rnd));
    var (tab, task) := s.calls[call];
    var t := TabOf(s, tab);
    NextKeeps(o, s, Resume(call, rnd));
    assert t.key.Some? ==> tab in s.tabs;
    SegmentCoherent(s, t, task, rnd, o);
    if o.primary == None {
      KeysAfter(o, s, call, rnd);
    }
    PromptCalls(o, s, call, rnd);
    PromptTabs(o, s, call, rnd);
  }

  lemma PromptCalls(o: Store, s: Sys, call: nat, rnd: Fresh)
    requires CoherentInv(o, s) && Prompt(o, s, Resume(call, rnd)) && call in s.calls
    requires var (tab, task) := s.calls[call];
             var r := Continue(s.store, TabOf(s, tab), task, rnd);
             r.next.Some? ==> PendingOk(r.tab, r.next.value)
    requires Inv(o, Next(s, Resume(call, rnd)))
    ensures var s' := Next(s, Resume(call, rnd));
            OnePending(s') && forall c :: c in s'.calls ==> PendingOk(TabOf(s', s'.calls[c].0), s'.calls[c].1)
  {
    var s' := Next(s, Resume(call, rnd));
    var (tab, task) := s.calls[call];
    ResumeEffect(s, call, rnd, tab, task);
    // Any other call of this tab is not in its gap: otherwise the tab was busy with it.
    forall c | c in s.calls && c != call && s.calls[c].0 == tab ensures !OpenPending(s.calls[c].1) {
      assert OpenPending(s.calls[c].1) ==> Busy(s, tab);
    }
    forall c | c in s'.calls ensures PendingOk(TabOf(s', s'.calls[c].0), s'.calls[c].1) {
      if c != call && s.calls[c].0 == tab {
        OtherCall(o, s, call, c, rnd);
      }
    }
  }

  lemma PromptTabs(o: Store, s: Sys, call: nat, rnd: Fresh)
    requires CoherentInv(o, s) && call in s.calls
    requires var (tab, task) := s.calls[call];
             var r := Continue(s.store, TabOf(s, tab), task, rnd);
             r.tab.key.Some? && (r.next == None || !OpenPending(r.next.value)) ==> Coherent(r.tab)
    ensures TabsCoherent(Next(s, Resume(call, rnd)))
  {
    var s' := Next(s, Resume(call, rnd));
    var (tab, task) := s.calls[call];
    var r := Continue(s.store, TabOf(s, tab), task, rnd);
    forall x | x in s'.tabs && s'.tabs[x].key.Some? && !Busy(s', x) ensures Coherent(s'.tabs[x]) {
      if x == tab {
        assert r.next.Some? ==> call in s'.calls && s'.calls[call] == (tab, r.next.value);
      } else {
        BusyElsewhere(s, s', call, x);
      }
    }
  }

  lemma BusyElsewhere(s: Sys, s': Sys, call: nat, x: nat)
    requires call in s.calls && s.calls[call].0 != x
    requires forall c :: c in s.calls && c != call ==> c in s'.calls && s'.calls[c] == s.calls[c]
    ensures Busy(s, x) ==> Busy(s', x)
  {
  }

  lemma PromptKeeps(o: Store, s: Sys, e: Event)
    requires CoherentInv(o, s) && Prompt(o, s, e)
    ensures CoherentInv(o, Next(s, e))
  {
    var s' := Next(s, e);
    match e
    case Resume(call, rnd) =>
      if call in s.calls {
        PromptResume(o, s, call, rnd);
      }
    case Mutate(tab, call, m, iv) =>
      var t := TabOf(s, tab);
      if call !in s.calls && StartMutation(t, m, iv).Some? {
        assert tab in s.tabs;
        NextKeeps(o, s, e);
        StartCoherent(t, m, iv);
        AddCallKeeps(o, s, s', call, tab);
      }
    case Begin(tab, call, why) =>
      if call !in s.calls {
        NextKeeps(o, s, e);
        AddCallKeeps(o, s, s', call, tab);
      }
    case LockTab(tab) =>
      NextKeeps(o, s, e);
      LockKeeps(o, s, tab);
    case Crash(tab) =>
      NextKeeps(o, s, e);
      CrashKeeps(o, s, tab);
  }

  lemma LockKeeps(o: Store, s: Sys, tab: nat)
    requires CoherentInv(o, s) && Inv(o, Next(s, LockTab(tab)))
    ensures CoherentInv(o, Next(s, LockTab(tab)))
  {
    var s' := Next(s, LockTab(tab));
    assert forall x :: Busy(s, x) <==> Busy(s', x);
    forall c | c in s'.calls ensures PendingOk(TabOf(s', s'.calls[c].0), s'.calls[c].1) {
      assert PendingOk(TabOf(s, s.calls[c].0), s.calls[c].1);
    }
  }

  lemma CrashKeeps(o: Store, s: Sys, tab: nat)
    requires CoherentInv(o, s) && Inv(o, Next(s, Crash(tab)))
    ensures CoherentInv(o, Next(s, Crash(tab)))
  {
    var s' := Next(s, Crash(tab));
    forall x | x != tab && Busy(s, x) ensures Busy(s', x) {
      var c :| c in s.calls && s.calls[c].0 == x && OpenPending(s.calls[c].1);
      assert c in s'.calls;
    }
  }

  lemma AddCallKeeps(o: Store, s: Sys, s': Sys, call: nat, tab: nat)
    requires CoherentInv(o, s) && Inv(o, s') && call !in s.calls && call in s'.calls
    requires s' == s.(calls := s.calls[call := s'.calls[call]]) && s'.calls[call].0 == tab
    requires !OpenPending(s'.calls[call].1) && PendingOk(TabOf(s, tab), s'.calls[call].1)
    ensures CoherentInv(o, s')
  {
    forall x | Busy(s, x) ensures Busy(s', x) {
      var c :| c in s.calls && s.calls[c].0 == x && OpenPending(s.calls[c].1);
      assert c in s'.calls;
    }
  }

  /** A prompt run starts its mutations in coherent tabs. */
  lemma {:induction false} PromptRunKeeps(s0: Sys, es: seq<Event>)
    requires Init(s0) && PromptRun(s0, es)
    ensures CoherentInv(s0.store, Run(s0, es))
  {
    if es == [] {
      Reached(s0, es);
    } else {
      PromptRunKeeps(s0, es[..|es| - 1]);
      PromptKeeps(s0.store, Run(s0, es[..|es| - 1]), es[|es| - 1]);
    }
  }

  /** Prompt runs need no coherence condition: their history is linear, and every unlocked tab
      outside its gap holds the plaintext of its own record. */
  lemma PromptRunsAreLinear(s0: Sys, es: seq<Event>, s: Sys)
    requires Init(s0) && PromptRun(s0, es) && s == Run(s0, es)
    ensures |s.log| == |s.hist| && forall i :: 0 <= i < |s.hist| ==> CameAbout(s0.store, s, i)
    ensures forall tab :: TabOf(s, tab).key.Some? && !Busy(s, tab) ==> Coherent(TabOf(s, tab))
  {
    PromptRunKeeps(s0, es);
  }

  /** What a tab can check as it starts a mutation, coherent or not: the commit is one mutation of the tab's
      record exactly when the tab's secrets agree with that record in all that the mutation reads or carries
      over. A coherent tab's do. */
  lemma StartIsMutationIff(t: Tab, m: Mutation, iv: nat)
    requires StartMutation(t, m, iv).Some? && StartMutation(t, m, iv).value.CommitSave? && t.record.value.box.Sealed?
    ensures var base, commit := t.record.value, StartMutation(t, m, iv).value;
            && commit.base == base && commit.baseRev == base.rev && commit.cause == m && commit.held == t.secrets.value
            && (OneMutation(m, base, commit.draft) <==> Agrees(m, base.meta, t.secrets.value, base.box.plain))
            && (Coherent(t) ==> Agrees(m, base.meta, t.secrets.value, base.box.plain))
  {
    var base, commit := t.record.value, StartMutation(t, m, iv).value;
    CommitIsMutationIff(m, base, t.secrets.value, commit.draft);
  }
}
