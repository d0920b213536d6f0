/** Safety of one life of the vault record: from a moment when no vault can be opened (none is stored, or
    one that no password opens, with or without a v1 record beside it) until a deletion. Any number of tabs,
    any interleaving, refreshes and crashes anywhere. The one condition on a run is that a mutation
    starts in a tab whose secrets are the plaintext of its record. */
module VaultHistory {
  import opened Common
  import opened SealedBox
  import opened VaultState
  import opened VaultMutations
  import opened VaultProtocol

  /** No vault, or one that no password opens. */
  predicate Begins(o: Store) {
    o.vault.Some? ==> Bricked(o.vault.value.kdf, o.vault.value.box)
  }

  /** No other password opens the v1 record. */
  predicate LegacyPassword(p: LegacyRecord, password: string) {
    p.box.Sealed? && p.box.key.kdf == p.kdf ==> p.box.key.password == password
  }

  /** Nothing running, nobody unlocked, nothing remembered. */
  ghost predicate Init(s: Sys) {
    && Begins(s.store)
    && (s.store.primary.Some? ==> LegacyPassword(s.store.primary.value, s.password))
    && (forall tab :: tab in s.tabs ==> s.tabs[tab] == EMPTY_TAB)
    && s.calls == map[]
    && s.hist == [] && s.log == [] && !s.ended
  }

  ghost predicate Legal(s: Sys, e: Event) {
    && !s.ended
    && (e.Mutate? ==> Coherent(TabOf(s, e.tab)))
  }

  ghost predicate LegalRun(s: Sys, es: seq<Event>) {
    es == [] || (LegalRun(s, es[..|es| - 1]) && Legal(Run(s, es[..|es| - 1]), es[|es| - 1]))
  }

  // ---- the invariant; o is the store the life began with ----

  /** r is what the store held at revision r.rev of this life. */
  ghost predicate InHistory(o: Store, s: Sys, r: Record) {
    StoredRev(o) < r.rev <= StoredRev(o) + |s.hist| && s.hist[r.rev - StoredRev(o) - 1] == r
  }

  /** Opens under the password and its own kdf block to a vault that satisfies the vault invariant. */
  ghost predicate Sound(r: Record, password: string) {
    r.box.Sealed? && r.box.key == Derive(password, r.kdf) && WellFormed(r.meta, r.box.plain)
  }

  ghost predicate RecordOk(o: Store, s: Sys, i: nat)
    requires i < |s.hist|
  {
    s.hist[i].rev == StoredRev(o) + i + 1 && Sound(s.hist[i], s.password)
  }

  /** r' is one mutation applied to what r decrypts to, under the same kdf block. */
  ghost predicate OneMutation(m: Mutation, r: Record, r': Record) {
    && r.box.Sealed? && r'.box.Sealed? && r'.kdf == r.kdf
    && Apply(m, r.meta, r.box.plain) == Write(r'.meta, r'.box.plain)
  }

  /** What m computes from base.meta and the secrets a tab holds is one mutation of base exactly when m finds
      in them all that it reads or carries over of base's own plaintext. */
  lemma CommitIsMutationIff(m: Mutation, base: Record, held: Secrets, draft: Record)
    requires base.box.Sealed? && draft.box.Sealed? && draft.kdf == base.kdf
    requires Apply(m, base.meta, held) == Write(draft.meta, draft.box.plain)
    ensures OneMutation(m, base, draft) <==> Agrees(m, base.meta, held, base.box.plain)
  {
    AppliesAlike(m, base.meta, held, base.box.plain);
  }

  /** r is the one-wallet vault that the v1 record migrates to. */
  ghost predicate MigratedFrom(p: LegacyRecord, r: Record) {
    p.box.Sealed? && OneWallet(r, Asked("Wallet 1", p.box.plain, false, None))
  }

  /** r holds the one wallet that was asked for, active, unused and under its own id in every part. */
  ghost predicate OneWallet(r: Record, a: Asked) {
    var id := r.meta.activeId;
    && r.box.Sealed?
    && r.meta.wallets == [Wallet(id, Trim(a.name), id, a.backedUp, a.source.Some?, 0)]
    && r.box.plain == Secrets([Entry(id, a.mnemonic)], if a.source.Some? then map[id := a.source.value] else map[])
  }

  /** How stored revision number i of this life came about. */
  ghost predicate CameAbout(o: Store, s: Sys, i: nat)
    requires i < |s.hist| && |s.log| == |s.hist|
  {
    match s.log[i]
    case ByCreate(password, asked) =>
      i == 0 && o == Store(None, None) && password == s.password && OneWallet(s.hist[0], asked)
    case ByMigration => o.primary.Some? && MigratedFrom(o.primary.value, s.hist[i])
    case ByMutation(m) => i > 0 && OneMutation(m, s.hist[i - 1], s.hist[i])
    case _ => false
  }

  ghost predicate HistoryOk(o: Store, s: Sys) {
    && |s.log| == |s.hist|
    && (forall i :: 0 <= i < |s.hist| ==> RecordOk(o, s, i))
    && (forall i :: 0 <= i < |s.hist| ==> CameAbout(o, s, i))
  }

  /** The store holds the latest revision; the v1 record goes only once there is one. */
  ghost predicate StoreOk(o: Store, s: Sys) {
    && (s.hist == [] && !s.ended ==> s.store == o)
    && (s.hist != [] && !s.ended ==> s.store.vault == Some(s.hist[|s.hist| - 1]))
    && (s.ended ==> s.store.vault == None)
    && (s.store.primary.Some? ==> s.store.primary == o.primary)
  }

  ghost predicate SeenOk(o: Store, s: Sys, vault: Option<Record>, primary: Option<LegacyRecord>) {
    && (primary.Some? ==> primary == o.primary)
    && (vault.Some? ==> vault == o.vault || InHistory(o, s, vault.value))
  }

  /** A loaded pair is empty only if the life began with nothing. */
  ghost predicate FoundOk(o: Store, s: Sys, found: Store) {
    && SeenOk(o, s, found.vault, found.primary)
    && (found == Store(None, None) ==> o == Store(None, None))
  }

  ghost predicate KeyOk(s: Sys, k: Key) {
    s.hist != [] && k.password == s.password
  }

  ghost predicate TabOk(o: Store, s: Sys, t: Tab) {
    && SeenOk(o, s, t.record, t.primary)
    && (t.key.Some? ==> KeyOk(s, t.key.value) && t.secrets.Some?)
  }

  /** A migration draft waits to be saved. */
  ghost predicate DraftOk(o: Store, s: Sys, draft: Record, key: Key, secrets: Secrets) {
    && o.primary.Some? && MigratedFrom(o.primary.value, draft) && Sound(draft, s.password)
    && draft.box.key == key && draft.box.plain == secrets
  }

  ghost predicate HeldOk(o: Store, s: Sys, saved: Record, key: Key, secrets: Secrets) {
    InHistory(o, s, saved) && KeyOk(s, key) && Open(key, saved.box) == Some(secrets)
  }

  /** r is the vault the life began with, and the life has stored others since. No password opens it, but a
      tab may happen to hold the very key it was sealed under; what that tab computes from it never lands. */
  ghost predicate Outlived(o: Store, s: Sys, r: Record) {
    o.vault == Some(r) && s.hist != []
  }

  ghost predicate CommitOk(o: Store, s: Sys, draft: Record, baseRev: nat, secrets: Secrets, base: Record, cause: Mutation) {
    && InHistory(o, s, base) && baseRev == base.rev
    && draft.box.Sealed? && draft.box.key == Derive(s.password, draft.kdf) && draft.box.plain == secrets
    && WellFormed(draft.meta, secrets) && OneMutation(cause, base, draft)
  }

  ghost predicate DeleteOk(o: Store, s: Sys, baseRev: nat, base: Record, cause: Mutation) {
    && InHistory(o, s, base) && baseRev == base.rev && Sound(base, s.password)
    && Apply(cause, base.meta, base.box.plain) == DeleteVault
  }

  ghost predicate TaskOk(o: Store, s: Sys, task: Task) {
    match task
    case LoadCall(_) => true
    case Loaded(found, _) => FoundOk(o, s, found)
    case RefreshOpened(_) => true
    case UnlockOpened(_, unlocked) => unlocked.Some? ==> KeyOk(s, unlocked.value.0)
    case OrphanDelete => s.hist != []
    case OrphanDeleted => true
    case LegacyOpened(password, mnemonic) =>
      mnemonic.Some? ==>
        && password == s.password && o.primary.Some? && o.primary.value.box.Sealed?
        && mnemonic == Some(o.primary.value.box.plain)
    case MigrateSealed(draft, key, secrets) => DraftOk(o, s, draft, key, secrets)
    case MigrateSave(draft, baseRev, key, secrets, over) =>
      && DraftOk(o, s, draft, key, secrets) && SeenOk(o, s, over, None)
      && baseRev == if over.Some? then over.value.rev else 0
    case MigrateSaved(saved, key, secrets) => HeldOk(o, s, saved, key, secrets)
    case MigrateDelete(saved, key, secrets) => HeldOk(o, s, saved, key, secrets)
    case MigrateFinish(saved, key, secrets) => HeldOk(o, s, saved, key, secrets)
    case CommitSave(draft, baseRev, secrets, base, cause, _) =>
      CommitOk(o, s, draft, baseRev, secrets, base, cause) || (Outlived(o, s, base) && baseRev == base.rev)
    case CommitSaved(saved, secrets) => InHistory(o, s, saved)
    case DeleteSave(baseRev, base, cause) =>
      DeleteOk(o, s, baseRev, base, cause) || (Outlived(o, s, base) && baseRev == base.rev)
    case Deleted => true
    case CreateSave(draft, key, secrets, asked) =>
      o == Store(None, None) && OneWallet(draft, asked) && Sound(draft, key.password) && draft.box.key == key && draft.box.plain == secrets
    case Created(saved, key, secrets) => HeldOk(o, s, saved, key, secrets)
  }

  ghost predicate Inv(o: Store, s: Sys) {
    && Begins(o) && (o.primary.Some? ==> LegacyPassword(o.primary.value, s.password))
    && HistoryOk(o, s) && StoreOk(o, s)
    && (forall tab :: tab in s.tabs ==> TabOk(o, s, s.tabs[tab]))
    && (forall c :: c in s.calls ==> TaskOk(o, s, s.calls[c].1))
  }

  // ---- growing the history keeps what was known ----

  /** s' remembers everything s does, under the same password. */
  ghost predicate Extends(o: Store, s: Sys, s': Sys) {
    && s.hist <= s'.hist && s.log <= s'.log
    && (s.hist != [] || o.primary.Some? ==> s'.password == s.password)
  }

  lemma TabOkExtends(o: Store, s: Sys, s': Sys, t: Tab)
    requires Extends(o, s, s') && TabOk(o, s, t)
    ensures TabOk(o, s', t)
  {
  }

  lemma RecordOkExtends(o: Store, s: Sys, s': Sys, i: nat)
    requires Extends(o, s, s') && i < |s.hist| && RecordOk(o, s, i)
    ensures RecordOk(o, s', i)
  {
  }

  lemma CameAboutExtends(o: Store, s: Sys, s': Sys, i: nat)
    requires Extends(o, s, s') && |s.log| == |s.hist| && |s'.log| == |s'.hist| && i < |s.hist| && CameAbout(o, s, i)
    ensures CameAbout(o, s', i)
  {
    assert s'.hist[i] == s.hist[i] && s'.log[i] == s.log[i];
    assert i > 0 ==> s'.hist[i - 1] == s.hist[i - 1];
  }

  lemma TaskOkExtends(o: Store, s: Sys, s': Sys, task: Task)
    requires Extends(o, s, s') && TaskOk(o, s, task)
    ensures TaskOk(o, s', task)
  {
  }

  /** The latest stored revision is what its number says. */
  lemma LatestIs(o: Store, s: Sys, r: Record)
    requires HistoryOk(o, s) && StoreOk(o, s) && !s.ended && InHistory(o, s, r) && r.rev == StoredRev(s.store)
    ensures s.hist != [] && s.hist[|s.hist| - 1] == r
  {
    assert RecordOk(o, s, |s.hist| - 1);
  }

  lemma StoredRevIs(o: Store, s: Sys)
    requires HistoryOk(o, s) && StoreOk(o, s) && !s.ended
    ensures StoredRev(s.store) == StoredRev(o) + |s.hist|
  {
    if s.hist != [] {
      assert RecordOk(o, s, |s.hist| - 1);
    }
  }

  /** One more revision, sound and accounted for. */
  lemma HistoryGrows(o: Store, s: Sys, s': Sys)
    requires HistoryOk(o, s) && Extends(o, s, s')
    requires |s'.hist| == |s.hist| + 1 && |s'.log| == |s.log| + 1
    requires RecordOk(o, s', |s.hist|) && CameAbout(o, s', |s.hist|)
    ensures HistoryOk(o, s')
  {
    forall i | 0 <= i < |s'.hist| ensures RecordOk(o, s', i) {
      if i < |s.hist| {
        RecordOkExtends(o, s, s', i);
      }
    }
    forall i | 0 <= i < |s'.hist| ensures CameAbout(o, s', i) {
      if i < |s.hist| {
        CameAboutExtends(o, s, s', i);
      }
    }
  }

  lemma SameHistory(o: Store, s: Sys, s': Sys)
    requires HistoryOk(o, s) && s'.hist == s.hist && s'.log == s.log && s'.password == s.password
    ensures HistoryOk(o, s') && Extends(o, s, s')
  {
    forall i | 0 <= i < |s'.hist| ensures RecordOk(o, s', i) {
      RecordOkExtends(o, s, s', i);
    }
    forall i | 0 <= i < |s'.hist| ensures CameAbout(o, s', i) {
      CameAboutExtends(o, s, s', i);
    }
  }

  /** s' is s with `saved` as its next revision. */
  ghost predicate Wrote(s: Sys, s': Sys, saved: Record, w: Written) {
    && s'.hist == s.hist + [saved] && s'.log == s.log + [w]
    && s'.store == s.store.(vault := Some(saved)) && !s.ended && !s'.ended
  }

  lemma AppendKeeps(o: Store, s: Sys, s': Sys, saved: Record, w: Written)
    requires HistoryOk(o, s) && StoreOk(o, s) && Wrote(s, s', saved, w)
    requires s.hist != [] || o.primary.Some? ==> s'.password == s.password
    requires saved.rev == StoredRev(s.store) + 1 && Sound(saved, s'.password)
    requires CameAbout(o, s', |s.hist|)
    ensures HistoryOk(o, s') && StoreOk(o, s') && Extends(o, s, s') && InHistory(o, s', saved)
  {
    assert s.hist != [] ==> RecordOk(o, s, |s.hist| - 1);
    assert s'.hist[|s.hist|] == saved;
    HistoryGrows(o, s, s');
  }

  /** s' is s after a segment wrote what r says. */
  ghost predicate After(s: Sys, r: Segment, s': Sys) {
    s' == Recorded(s, r.store, r.wrote).(tabs := s'.tabs, calls := s'.calls)
  }

  ghost predicate SegmentOk(o: Store, s: Sys, r: Segment, s': Sys) {
    && HistoryOk(o, s') && StoreOk(o, s') && Extends(o, s, s')
    && TabOk(o, s', r.tab)
    && (r.next.Some? ==> TaskOk(o, s', r.next.value))
  }

  /** A segment that writes no vault record: what it leaves in its tab and its call is in order. */
  ghost predicate QuietOk(o: Store, s: Sys, r: Segment) {
    && r.wrote.Nothing? && r.store.vault == s.store.vault
    && (r.store.primary == s.store.primary || (r.store.primary == None && s.hist != []))
    && TabOk(o, s, r.tab) && (r.next.Some? ==> TaskOk(o, s, r.next.value))
  }

  lemma QuietKeeps(o: Store, s: Sys, s': Sys, r: Segment)
    requires HistoryOk(o, s) && StoreOk(o, s) && !s.ended && QuietOk(o, s, r) && After(s, r, s')
    ensures SegmentOk(o, s, r, s')
  {
    SameHistory(o, s, s');
    TabOkExtends(o, s, s', r.tab);
    if r.next.Some? {
      TaskOkExtends(o, s, s', r.next.value);
    }
  }

  /** A segment that wrote the next revision. */
  lemma WriteKeeps(o: Store, s: Sys, s': Sys, r: Segment, saved: Record)
    requires HistoryOk(o, s) && StoreOk(o, s) && !s.ended && TabOk(o, s, r.tab) && After(s, r, s')
    requires r.store == s.store.(vault := Some(saved)) && !r.wrote.Nothing? && !r.wrote.ByDelete?
    requires s.hist != [] || o.primary.Some? ==> s'.password == s.password
    requires saved.rev == StoredRev(s.store) + 1 && Sound(saved, s'.password) && CameAbout(o, s', |s.hist|)
    requires r.next.Some? && (InHistory(o, s', saved) && s'.hist != [] ==> TaskOk(o, s', r.next.value))
    ensures SegmentOk(o, s, r, s')
  {
    AppendKeeps(o, s, s', saved, r.wrote);
    TabOkExtends(o, s, s', r.tab);
  }

  lemma CommitSaveKeeps(o: Store, s: Sys, s': Sys, t: Tab, task: Task, rnd: Fresh)
    requires Inv(o, s) && !s.ended && TabOk(o, s, t) && TaskOk(o, s, task) && task.CommitSave?
    requires After(s, Continue(s.store, t, task, rnd), s')
    ensures SegmentOk(o, s, Continue(s.store, t, task, rnd), s')
  {
    var r := Continue(s.store, t, task, rnd);
    if StoredRev(s.store) == task.baseRev {
      StoredRevIs(o, s);
      CommitLands(o, s, s', r, task.draft, task.baseRev, task.secrets, task.base, task.cause);
    } else {
      QuietKeeps(o, s, s', r);
    }
  }

  lemma CommitLands(o: Store, s: Sys, s': Sys, r: Segment, draft: Record, baseRev: nat, secrets: Secrets, base: Record, cause: Mutation)
    requires HistoryOk(o, s) && StoreOk(o, s) && !s.ended && TabOk(o, s, r.tab)
    requires CommitOk(o, s, draft, baseRev, secrets, base, cause) && StoredRev(s.store) == baseRev && After(s, r, s')
    requires var saved := draft.(rev := baseRev + 1);
             r == Step(s.store.(vault := Some(saved)), r.tab, Some(CommitSaved(saved, secrets)), ByMutation(cause))
    ensures SegmentOk(o, s, r, s')
  {
    LatestIs(o, s, base);
    var saved := draft.(rev := baseRev + 1);
    assert OneMutation(cause, base, saved);
    WriteKeeps(o, s, s', r, saved);
  }

  lemma CreateSaveKeeps(o: Store, s: Sys, s': Sys, t: Tab, task: Task, rnd: Fresh)
    requires Inv(o, s) && !s.ended && TabOk(o, s, t) && TaskOk(o, s, task) && task.CreateSave?
    requires After(s, Continue(s.store, t, task, rnd), s')
    ensures SegmentOk(o, s, Continue(s.store, t, task, rnd), s')
  {
    var r := Continue(s.store, t, task, rnd);
    if StoredRev(s.store) == 0 {
      StoredRevIs(o, s);
      WriteKeeps(o, s, s', r, task.draft.(rev := 1));
    } else {
      QuietKeeps(o, s, s', r);
    }
  }

  lemma MigrateSaveKeeps(o: Store, s: Sys, s': Sys, t: Tab, task: Task, rnd: Fresh)
    requires Inv(o, s) && !s.ended && TabOk(o, s, t) && TaskOk(o, s, task) && task.MigrateSave?
    requires After(s, Continue(s.store, t, task, rnd), s')
    ensures SegmentOk(o, s, Continue(s.store, t, task, rnd), s')
  {
    var r := Continue(s.store, t, task, rnd);
    if StoredRev(s.store) == task.baseRev {
      var saved := task.draft.(rev := task.baseRev + 1);
      assert MigratedFrom(o.primary.value, saved);
      WriteKeeps(o, s, s', r, saved);
    } else {
      QuietKeeps(o, s, s', r);
    }
  }

  lemma DeleteSaveKeeps(o: Store, s: Sys, s': Sys, t: Tab, task: Task, rnd: Fresh)
    requires Inv(o, s) && !s.ended && TabOk(o, s, t) && TaskOk(o, s, task) && task.DeleteSave?
    requires After(s, Continue(s.store, t, task, rnd), s')
    ensures SegmentOk(o, s, Continue(s.store, t, task, rnd), s')
  {
    var r := Continue(s.store, t, task, rnd);
    if StoredRev(s.store) == task.baseRev {
      SameHistory(o, s, s');
      TabOkExtends(o, s, s', t);
    } else {
      QuietKeeps(o, s, s', r);
    }
  }

  /** Every call whose segment ends a load of the two records. */
  lemma LoadIsQuiet(o: Store, s: Sys, t: Tab, task: Task, rnd: Fresh)
    requires Inv(o, s) && !s.ended && TabOk(o, s, t) && TaskOk(o, s, task) && (task.LoadCall? || task.Loaded?)
    ensures QuietOk(o, s, Continue(s.store, t, task, rnd))
  {
    if task.LoadCall? {
      StoredIsFound(o, s);
    } else {
      match task.why
      case ForRefresh =>
      case ForUnlock(password) => LoadForUnlock(o, s, t, task.found, password, rnd);
      case ForCreate(_, _, _, _, _) => LoadForCreate(o, s, t, task.found, task.why, rnd);
    }
  }

  lemma StoredIsFound(o: Store, s: Sys)
    requires HistoryOk(o, s) && StoreOk(o, s) && !s.ended
    ensures FoundOk(o, s, s.store)
  {
    if s.hist != [] {
      assert RecordOk(o, s, |s.hist| - 1);
    }
  }

  lemma LoadForUnlock(o: Store, s: Sys, t: Tab, found: Store, password: string, rnd: Fresh)
    requires Inv(o, s) && TabOk(o, s, t) && FoundOk(o, s, found)
    ensures QuietOk(o, s, AfterLoad(s.store, t, found, ForUnlock(password), rnd))
  {
    if found.vault.Some? && found.vault != o.vault {
      assert RecordOk(o, s, found.vault.value.rev - StoredRev(o) - 1);
    }
  }

  lemma LoadForCreate(o: Store, s: Sys, t: Tab, found: Store, why: Purpose, rnd: Fresh)
    requires TabOk(o, s, t) && FoundOk(o, s, found) && why.ForCreate?
    ensures QuietOk(o, s, AfterLoad(s.store, t, found, why, rnd))
  {
    FirstWellFormed(rnd.now, why.name, why.mnemonic, why.backedUp, why.source, rnd.now);
  }

  lemma OpenedIsQuiet(o: Store, s: Sys, t: Tab, task: Task, rnd: Fresh)
    requires Inv(o, s) && TabOk(o, s, t) && TaskOk(o, s, task)
    requires task.RefreshOpened? || task.UnlockOpened? || task.OrphanDelete? || task.OrphanDeleted?
    ensures QuietOk(o, s, Continue(s.store, t, task, rnd))
  {
  }

  lemma MigratingIsQuiet(o: Store, s: Sys, t: Tab, task: Task, rnd: Fresh)
    requires Inv(o, s) && TabOk(o, s, t) && TaskOk(o, s, task)
    requires task.LegacyOpened? || task.MigrateSealed? || task.MigrateSaved? || task.MigrateDelete? || task.MigrateFinish?
    ensures QuietOk(o, s, Continue(s.store, t, task, rnd))
  {
    if task.LegacyOpened? && task.mnemonic.Some? {
      FirstWellFormed(rnd.now, "Wallet 1", task.mnemonic.value, false, None, rnd.now);
    }
  }

  lemma SettledIsQuiet(o: Store, s: Sys, t: Tab, task: Task, rnd: Fresh)
    requires TabOk(o, s, t) && TaskOk(o, s, task) && (task.CommitSaved? || task.Deleted? || task.Created?)
    ensures QuietOk(o, s, Continue(s.store, t, task, rnd))
  {
  }

  /** One segment: the history, the store, the tab and the call are all left in order. */
  lemma ContinueKeeps(o: Store, s: Sys, s': Sys, t: Tab, task: Task, rnd: Fresh)
    requires Inv(o, s) && !s.ended && TabOk(o, s, t) && TaskOk(o, s, task)
    requires After(s, Continue(s.store, t, task, rnd), s')
    ensures SegmentOk(o, s, Continue(s.store, t, task, rnd), s')
  {
    if task.CommitSave? {
      CommitSaveKeeps(o, s, s', t, task, rnd);
    } else if task.CreateSave? {
      CreateSaveKeeps(o, s, s', t, task, rnd);
    } else if task.MigrateSave? {
      MigrateSaveKeeps(o, s, s', t, task, rnd);
    } else if task.DeleteSave? {
      DeleteSaveKeeps(o, s, s', t, task, rnd);
    } else {
      if task.LoadCall? || task.Loaded? {
        LoadIsQuiet(o, s, t, task, rnd);
      } else if task.CommitSaved? || task.Deleted? || task.Created? {
        SettledIsQuiet(o, s, t, task, rnd);
      } else if task.LegacyOpened? || task.MigrateSealed? || task.MigrateSaved? || task.MigrateDelete? || task.MigrateFinish? {
        MigratingIsQuiet(o, s, t, task, rnd);
      } else {
        OpenedIsQuiet(o, s, t, task, rnd);
      }
      QuietKeeps(o, s, s', Continue(s.store, t, task, rnd));
    }
  }

  /** A coherent tab holds a stored revision that its key opens, or the outlived vault. */
  lemma CoherentHolds(o: Store, s: Sys, t: Tab)
    requires Begins(o) && HistoryOk(o, s) && TabOk(o, s, t) && Coherent(t)
    ensures Outlived(o, s, t.record.value) || (InHistory(o, s, t.record.value) && Sound(t.record.value, s.password))
    ensures t.record.value.box.Sealed? && t.secrets.value == t.record.value.box.plain
  {
    if t.record != o.vault {
      assert RecordOk(o, s, t.record.value.rev - StoredRev(o) - 1);
    }
  }

  lemma StartKeeps(o: Store, s: Sys, t: Tab, m: Mutation, iv: nat)
    requires Begins(o) && HistoryOk(o, s) && TabOk(o, s, t) && Coherent(t)
    ensures StartMutation(t, m, iv).Some? ==> TaskOk(o, s, StartMutation(t, m, iv).value)
  {
    var r := t.record.value;
    CoherentHolds(o, s, t);
    var out := Apply(m, r.meta, r.box.plain);
    if out.Write? && !Outlived(o, s, r) {
      ApplyKeepsWellFormed(m, r.meta, r.box.plain);
      StartsCommit(o, s, t, m, iv, out);
    }
  }

  lemma StartsCommit(o: Store, s: Sys, t: Tab, m: Mutation, iv: nat, out: Outcome)
    requires Coherent(t) && InHistory(o, s, t.record.value) && Sound(t.record.value, s.password)
    requires out == Apply(m, t.record.value.meta, t.record.value.box.plain) && out.Write? && WellFormed(out.meta, out.secrets)
    ensures StartMutation(t, m, iv).Some? && TaskOk(o, s, StartMutation(t, m, iv).value)
  {
    var r := t.record.value;
    var draft := Record(0, r.kdf, Seal(t.key.value, iv, out.secrets), out.meta);
    assert CommitOk(o, s, draft, r.rev, out.secrets, r, m);
  }

  lemma CallAdded(o: Store, s: Sys, call: nat, tab: nat, task: Task)
    requires Inv(o, s) && TaskOk(o, s, task)
    ensures Inv(o, s.(calls := s.calls[call := (tab, task)]))
  {
    var s' := s.(calls := s.calls[call := (tab, task)]);
    SameHistory(o, s, s');
    forall c | c in s'.calls ensures TaskOk(o, s', s'.calls[c].1) {
      TaskOkExtends(o, s, s', s'.calls[c].1);
    }
    forall x | x in s'.tabs ensures TabOk(o, s', s'.tabs[x]) { TabOkExtends(o, s, s', s.tabs[x]); }
  }

  lemma BeginKeeps(o: Store, s: Sys, e: Event)
    requires Inv(o, s) && Legal(s, e) && e.Begin?
    ensures Inv(o, Next(s, e))
  {
    if e.call !in s.calls {
      CallAdded(o, s, e.call, e.tab, LoadCall(e.why));
    }
  }

  lemma MutateKeeps(o: Store, s: Sys, e: Event)
    requires Inv(o, s) && Legal(s, e) && e.Mutate?
    ensures Inv(o, Next(s, e))
  {
    var task := StartMutation(TabOf(s, e.tab), e.m, e.iv);
    if e.call !in s.calls && task.Some? {
      StartKeeps(o, s, TabOf(s, e.tab), e.m, e.iv);
      CallAdded(o, s, e.call, e.tab, task.value);
    }
  }

  lemma DropKeeps(o: Store, s: Sys, e: Event)
    requires Inv(o, s) && Legal(s, e) && (e.LockTab? || e.Crash?)
    ensures Inv(o, Next(s, e))
  {
    var s' := Next(s, e);
    SameHistory(o, s, s');
    forall c | c in s'.calls ensures TaskOk(o, s', s'.calls[c].1) { TaskOkExtends(o, s, s', s.calls[c].1); }
    forall x | x in s'.tabs ensures TabOk(o, s', s'.tabs[x]) {
      if x in s.tabs { TabOkExtends(o, s, s', s.tabs[x]); }
    }
  }

  lemma ResumeKeeps(o: Store, s: Sys, call: nat, rnd: Fresh)
    requires Inv(o, s) && !s.ended
    ensures Inv(o, Next(s, Resume(call, rnd)))
  {
    if call in s.calls {
      var s' := Next(s, Resume(call, rnd));
      var (tab, task) := s.calls[call];
      var r := Continue(s.store, TabOf(s, tab), task, rnd);
      ContinueKeeps(o, s, s', TabOf(s, tab), task, rnd);
      forall x | x in s'.tabs ensures TabOk(o, s', s'.tabs[x]) {
        if x != tab { TabOkExtends(o, s, s', s.tabs[x]); }
      }
      forall c | c in s'.calls ensures TaskOk(o, s', s'.calls[c].1) {
        if c != call { TaskOkExtends(o, s, s', s.calls[c].1); }
      }
    }
  }

  lemma NextKeeps(o: Store, s: Sys, e: Event)
    requires Inv(o, s) && Legal(s, e)
    ensures Inv(o, Next(s, e))
  {
    if e.Begin? {
      BeginKeeps(o, s, e);
    } else if e.Mutate? {
      MutateKeeps(o, s, e);
    } else if e.Resume? {
      ResumeKeeps(o, s, e.call, e.rnd);
    } else {
      DropKeeps(o, s, e);
    }
  }

  lemma {:induction false} RunKeeps(o: Store, s: Sys, es: seq<Event>)
    requires Inv(o, s) && LegalRun(s, es)
    ensures Inv(o, Run(s, es))
  {
    if es != [] {
      RunKeeps(o, s, es[..|es| - 1]);
      NextKeeps(o, Run(s, es[..|es| - 1]), es[|es| - 1]);
    }
  }

  /** Every state of a legal run satisfies the invariant. */
  lemma Reached(s0: Sys, es: seq<Event>)
    requires Init(s0) && LegalRun(s0, es)
    ensures Inv(s0.store, Run(s0, es))
  {
    assert Inv(s0.store, s0);
    RunKeeps(s0.store, s0, es);
  }

  // ---- what the invariant says of every run ----

  /** The stored records form a linear history: revision n+1 is exactly one mutation applied to the
      plaintext of revision n under the same kdf block, or the v1 record migrated once more; the first
      one is the created vault or the migrated one. Whatever refreshed, crashed or raced in between. */
  lemma LinearHistory(s0: Sys, es: seq<Event>, s: Sys)
    requires Init(s0) && LegalRun(s0, es) && s == Run(s0, es)
    ensures |s.log| == |s.hist|
    ensures forall i :: 0 <= i < |s.hist| ==> s.hist[i].rev == StoredRev(s0.store) + i + 1 && CameAbout(s0.store, s, i)
    ensures !s.ended ==> s.store.vault == if s.hist == [] then s0.store.vault else Some(s.hist[|s.hist| - 1])
  {
    Reached(s0, es);
    HistoryOf(s0.store, s);
  }

  lemma HistoryOf(o: Store, s: Sys)
    requires Inv(o, s)
    ensures |s.log| == |s.hist|
    ensures forall i :: 0 <= i < |s.hist| ==> s.hist[i].rev == StoredRev(o) + i + 1 && CameAbout(o, s, i)
    ensures !s.ended ==> s.store.vault == if s.hist == [] then o.vault else Some(s.hist[|s.hist| - 1])
  {
    forall i | 0 <= i < |s.hist| ensures s.hist[i].rev == StoredRev(o) + i + 1 && CameAbout(o, s, i) {
      assert RecordOk(o, s, i);
    }
  }

  /** How one segment can touch the stored vault. */
  lemma SegmentTouches(store: Store, t: Tab, task: Task, rnd: Fresh)
    ensures var r := Continue(store, t, task, rnd);
            && (r.store.vault != store.vault && r.store.vault == None ==> r.wrote.ByDelete? && task.DeleteSave?)
            && (r.store.vault != store.vault && r.store.vault.Some? ==>
                  !r.wrote.Nothing? && !r.wrote.ByDelete? && r.store.vault.value.rev == StoredRev(store) + 1)
            && (r.wrote.Nothing? ==> r.store.vault == store.vault)
            && (r.wrote.ByDelete? ==> r.store.vault == None && task.DeleteSave? && task.baseRev == StoredRev(store))
            && (!r.wrote.Nothing? && !r.wrote.ByDelete? ==>
                  r.store.vault.Some? && r.store.vault.value.rev == StoredRev(store) + 1)
  {
  }

  /** `hist` is the store's own history: it grows by the stored record at every write of the
      vault, and at no other step. */
  lemma HistoryIsWhatWasStored(s0: Sys, es: seq<Event>, s: Sys, e: Event, s': Sys)
    requires Init(s0) && LegalRun(s0, es) && s == Run(s0, es) && Legal(s, e) && s' == Next(s, e)
    ensures s'.store.vault == s.store.vault ==> s'.hist == s.hist
    ensures s'.store.vault != s.store.vault && s'.store.vault.Some? ==> s'.hist == s.hist + [s'.store.vault.value]
    ensures s'.store.vault != s.store.vault && s'.store.vault == None ==> s'.hist == s.hist && s'.ended
  {
    if e.Resume? && e.call in s.calls {
      var (tab, task) := s.calls[e.call];
      SegmentTouches(s.store, TabOf(s, tab), task, e.rnd);
    }
  }

  /** A commit or a deletion whose base revision has moved changes nothing that is stored, and
      the tab goes on to reload. */
  lemma LosingCallLeavesStore(s: Sys, call: nat, rnd: Fresh)
    requires call in s.calls
    requires (s.calls[call].1.CommitSave? && s.calls[call].1.baseRev != StoredRev(s.store))
          || (s.calls[call].1.DeleteSave? && s.calls[call].1.baseRev != StoredRev(s.store))
    ensures var s' := Next(s, Resume(call, rnd));
            s'.store == s.store && call in s'.calls && s'.calls[call] == (s.calls[call].0, LoadCall(ForRefresh))
  {
  }

  /** A deletion that lands was asked for of the very record that is stored. */
  lemma DeletesWhatIsStored(o: Store, s: Sys, task: Task)
    requires Inv(o, s) && !s.ended && TaskOk(o, s, task) && task.DeleteSave? && task.baseRev == StoredRev(s.store)
    ensures s.store.vault == Some(task.base)
    ensures task.cause.Remove? && |task.base.meta.wallets| == 1 && task.base.meta.wallets[0].id == task.cause.id
  {
    StoredRevIs(o, s);
    LatestIs(o, s, task.base);
    DeleteIffOnlyWallet(task.cause, task.base.meta, task.base.box.plain);
  }

  /** The vault record disappears only when the wallet being removed is the only one stored. */
  lemma DeletedOnlyAsLastWallet(s0: Sys, es: seq<Event>, s: Sys, e: Event)
    requires Init(s0) && LegalRun(s0, es) && s == Run(s0, es) && Legal(s, e)
    requires s.store.vault.Some? && Next(s, e).store.vault == None
    ensures |s.store.vault.value.meta.wallets| == 1
    ensures e.Resume? && e.call in s.calls && s.calls[e.call].1.DeleteSave?
    ensures s.calls[e.call].1.cause == Remove(s.store.vault.value.meta.wallets[0].id)
  {
    Reached(s0, es);
    var (tab, task) := s.calls[e.call];
    SegmentTouches(s.store, TabOf(s, tab), task, e.rnd);
    DeletesWhatIsStored(s0.store, s, task);
  }

  /** Every record ever stored opens with the master password and the kdf block stored in it,
      whichever iteration constants the writers ran with. */
  lemma EveryRecordOpens(s0: Sys, es: seq<Event>, s: Sys, i: nat)
    requires Init(s0) && LegalRun(s0, es) && s == Run(s0, es) && i < |s.hist|
    ensures s.hist[i].box.Sealed?
    ensures OpenWithPassword(s.password, s.hist[i].kdf, s.hist[i].box) == Some(s.hist[i].box.plain)
    ensures forall p :: p != s.password ==> OpenWithPassword(p, s.hist[i].kdf, s.hist[i].box) == None
    ensures s0.store.primary.Some? ==> s.password == s0.password
  {
    Reached(s0, es);
    assert RecordOk(s0.store, s, i);
    PasswordStays(s0, es);
  }

  /** In a life that began with a v1 record the master password is the one of that record. */
  lemma {:induction false} PasswordStays(s0: Sys, es: seq<Event>)
    requires Init(s0) && LegalRun(s0, es)
    ensures s0.store.primary.Some? ==> Run(s0, es).password == s0.password
  {
    if es != [] {
      var s, e := Run(s0, es[..|es| - 1]), es[|es| - 1];
      PasswordStays(s0, es[..|es| - 1]);
      Reached(s0, es[..|es| - 1]);
      if s0.store.primary.Some? && e.Resume? && e.call in s.calls {
        var (tab, task) := s.calls[e.call];
        assert TaskOk(s0.store, s, task);
        WritesNoPassword(s0.store, s, TabOf(s, tab), task, e.rnd);
      }
    }
  }

  lemma WritesNoPassword(o: Store, s: Sys, t: Tab, task: Task, rnd: Fresh)
    requires TaskOk(o, s, task) && o.primary.Some?
    ensures !Continue(s.store, t, task, rnd).wrote.ByCreate?
  {
  }

  /** A tab ready to mutate holds a stored revision and a well-formed vault, unless it holds the unopenable vault
      the life began with and, by chance, the key that one was sealed under. */
  lemma UnlockedVaultWellFormed(s0: Sys, es: seq<Event>, tab: nat)
    requires Init(s0) && LegalRun(s0, es)
    requires Coherent(TabOf(Run(s0, es), tab))
    ensures var t := TabOf(Run(s0, es), tab);
            || (InHistory(s0.store, Run(s0, es), t.record.value) && WellFormed(t.record.value.meta, t.secrets.value))
            || (t.record == s0.store.vault && Bricked(t.record.value.kdf, t.record.value.box) && Run(s0, es).hist != [])
  {
    Reached(s0, es);
    CoherentHolds(s0.store, Run(s0, es), TabOf(Run(s0, es), tab));
  }

  // ---- when a migration replaces a vault ----

  /** migrateV1 reads the record it saves over after its seal, off whatever the tab holds then. */
  lemma MigrationReadsItsRecordLate(s: Sys, call: nat, rnd: Fresh)
    requires call in s.calls && s.calls[call].1.MigrateSealed?
    ensures var s' := Next(s, Resume(call, rnd));
            call in s'.calls && s'.calls[call].1.MigrateSave? && s'.calls[call].1.over == TabOf(s, s.calls[call].0).record
  {
  }

  /** Once a good vault is stored, a migration's save replaces it exactly when the record the tab held at
      that moment is that very vault; then one wallet with the v1 seed is left of it. */
  lemma MigrationReplacesIffSeen(s0: Sys, es: seq<Event>, s: Sys, call: nat, rnd: Fresh)
    requires Init(s0) && LegalRun(s0, es) && s == Run(s0, es) && !s.ended
    requires call in s.calls && s.calls[call].1.MigrateSave? && s.hist != []
    ensures var s' := Next(s, Resume(call, rnd));
            && (s'.store.vault != s.store.vault <==> s.calls[call].1.over == s.store.vault)
            && (s'.store.vault != s.store.vault ==>
                  s'.store.vault.Some? && s0.store.primary.Some? && MigratedFrom(s0.store.primary.value, s'.store.vault.value))
  {
    Reached(s0, es);
    var (tab, task) := s.calls[call];
    assert TaskOk(s0.store, s, task);
    SavesOverSeen(s0.store, s, TabOf(s, tab), task, rnd);
    ResumeEffect(s, call, rnd, tab, task);
  }

  lemma SavesOverSeen(o: Store, s: Sys, t: Tab, task: Task, rnd: Fresh)
    requires HistoryOk(o, s) && StoreOk(o, s) && !s.ended && s.hist != [] && task.MigrateSave? && TaskOk(o, s, task)
    ensures var r := Continue(s.store, t, task, rnd);
            && (r.store.vault != s.store.vault <==> task.over == s.store.vault)
            && (r.store.vault != s.store.vault ==>
                  r.store.vault.Some? && o.primary.Some? && MigratedFrom(o.primary.value, r.store.vault.value))
  {
    StoredRevIs(o, s);
    if task.over.Some? && task.over != o.vault && task.baseRev == StoredRev(s.store) {
      LatestIs(o, s, task.over.value);
    }
  }

  // ---- wallets along the history ----

  ghost predicate HasWalletThroughout(s: Sys, id: Id, i: nat, j: nat)
    requires j < |s.hist|
  {
    forall k :: i <= k <= j ==> HasWallet(s.hist[k].meta, id)
  }

  /** No migration wrote any of the revisions after i, up to j. */
  ghost predicate NoMigration(s: Sys, i: nat, j: nat)
    requires j < |s.log|
  {
    forall k :: i < k <= j ==> !s.log[k].ByMigration?
  }

  lemma StepIsMutation(o: Store, s: Sys, i: nat)
    requires HistoryOk(o, s) && i + 1 < |s.hist| && !s.log[i + 1].ByMigration?
    ensures s.log[i + 1].ByMutation? && OneMutation(s.log[i + 1].m, s.hist[i], s.hist[i + 1])
    ensures WellFormed(s.hist[i].meta, s.hist[i].box.plain)
  {
    assert RecordOk(o, s, i) && CameAbout(o, s, i + 1);
  }

  lemma {:induction false} GoesForward(o: Store, s: Sys, id: Id, i: nat, j: nat)
    requires HistoryOk(o, s) && i <= j < |s.hist| && HasWalletThroughout(s, id, i, j) && NoMigration(s, i, j)
    ensures HasWallet(s.hist[i].meta, id) && HasWallet(s.hist[j].meta, id)
    ensures var before, after := RowOf(s.hist[i].meta, id).value, RowOf(s.hist[j].meta, id).value;
            && (before.backedUp ==> after.backedUp)
            && before.receiveIndex <= after.receiveIndex
    decreases j
  {
    assert HasWallet(s.hist[i].meta, id) && HasWallet(s.hist[j].meta, id);
    if i < j {
      GoesForward(o, s, id, i, j - 1);
      StepIsMutation(o, s, j - 1);
      ApplyMonotone(s.log[j].m, s.hist[j - 1].meta, s.hist[j - 1].box.plain, id);
    }
  }

  /** While a wallet stays in the vault its backup mark is never cleared and its receive index
      never walks back, across all tabs, unless the v1 record was migrated over the vault. */
  lemma WalletNeverGoesBack(s0: Sys, es: seq<Event>, s: Sys, id: Id, i: nat, j: nat)
    requires Init(s0) && LegalRun(s0, es) && s == Run(s0, es)
    requires i <= j < |s.hist| && j < |s.log| && HasWalletThroughout(s, id, i, j) && NoMigration(s, i, j)
    ensures HasWallet(s.hist[i].meta, id) && HasWallet(s.hist[j].meta, id)
    ensures var before, after := RowOf(s.hist[i].meta, id).value, RowOf(s.hist[j].meta, id).value;
            && (before.backedUp ==> after.backedUp)
            && before.receiveIndex <= after.receiveIndex
  {
    Reached(s0, es);
    GoesForward(s0.store, s, id, i, j);
  }

  lemma {:induction false} StillThere(o: Store, s: Sys, id: Id, i: nat, j: nat)
    requires HistoryOk(o, s) && i <= j < |s.hist| && HasWallet(s.hist[i].meta, id) && NoMigration(s, i, j)
    requires forall k :: i < k <= j ==> s.log[k] != ByMutation(Remove(id))
    ensures s.hist[i].box.Sealed? && s.hist[j].box.Sealed?
    ensures HasWallet(s.hist[j].meta, id)
    ensures SeedOf(s.hist[j].box.plain, id) == SeedOf(s.hist[i].box.plain, id)
    ensures SeedOf(s.hist[j].box.plain, id).Some?
    decreases j
  {
    if i < j {
      StillThere(o, s, id, i, j - 1);
      StepIsMutation(o, s, j - 1);
      WalletKept(s.log[j].m, s.hist[j - 1].meta, s.hist[j - 1].box.plain, id);
    } else {
      assert RecordOk(o, s, i);
      SeedAt(s.hist[i].box.plain, s.hist[i].meta.wallets, WalletIndex(s.hist[i].meta, id));
    }
  }

  /** A wallet stored at one revision is still there, with its mnemonic, at every later one, unless a
      mutation in between removed that wallet or the v1 record was migrated over the vault. */
  lemma NoMnemonicLost(s0: Sys, es: seq<Event>, s: Sys, id: Id, i: nat, j: nat)
    requires Init(s0) && LegalRun(s0, es) && s == Run(s0, es)
    requires i <= j < |s.hist| && j < |s.log| && HasWallet(s.hist[i].meta, id) && NoMigration(s, i, j)
    requires forall k :: i < k <= j ==> s.log[k] != ByMutation(Remove(id))
    ensures s.hist[i].box.Sealed? && s.hist[j].box.Sealed?
    ensures HasWallet(s.hist[j].meta, id)
    ensures SeedOf(s.hist[j].box.plain, id) == SeedOf(s.hist[i].box.plain, id)
    ensures SeedOf(s.hist[j].box.plain, id).Some?
  {
    Reached(s0, es);
    StillThere(s0.store, s, id, i, j);
  }

  /** Where a life begins without a v1 record nothing is ever migrated, so races lose nothing at all. */
  lemma RacesLoseNothing(s0: Sys, es: seq<Event>, s: Sys, id: Id, i: nat, j: nat)
    requires Init(s0) && LegalRun(s0, es) && s == Run(s0, es) && s0.store.primary == None
    requires i <= j < |s.hist| && HasWallet(s.hist[i].meta, id)
    requires forall k :: i < k <= j && k < |s.log| ==> s.log[k] != ByMutation(Remove(id))
    ensures s.hist[i].box.Sealed? && s.hist[j].box.Sealed?
    ensures HasWallet(s.hist[j].meta, id)
    ensures SeedOf(s.hist[j].box.plain, id) == SeedOf(s.hist[i].box.plain, id)
    ensures SeedOf(s.hist[j].box.plain, id).Some?
  {
    Reached(s0, es);
    forall k | i < k <= j ensures !s.log[k].ByMigration? {
      assert CameAbout(s0.store, s, k);
    }
    StillThere(s0.store, s, id, i, j);
  }
}
