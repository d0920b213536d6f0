/** The v1 to v2 migration never loses the v1 mnemonic: any number of tabs try to unlock, with
    any passwords, refresh, mutate, remove other wallets, and vanish after any step. */
module VaultMigration {
  import opened Common
  import opened SealedBox
  import opened VaultState
  import opened VaultMutations
  import opened VaultProtocol
  import H = VaultHistory

  /** The seed that must survive, its password, and the v1 record that holds it. */
  datatype Legacy = Legacy(password: string, seed: string, record: LegacyRecord)

  ghost predicate LegacyOk(l: Legacy) {
    OpenWithPassword(l.password, l.record.kdf, l.record.box) == Some(l.seed)
  }

  predicate HasSeed(secrets: Secrets, seed: string) {
    exists e :: e in secrets.mnemonics && e.mnemonic == seed
  }

  /** The v2 record opens under the password and holds the seed. */
  predicate Good(l: Legacy, r: Record) {
    var got := OpenWithPassword(l.password, r.kdf, r.box);
    got.Some? && HasSeed(got.value, l.seed)
  }

  /** No password opens the v2 record. */
  predicate Bad(r: Record) {
    Bricked(r.kdf, r.box)
  }

  predicate StoreGood(l: Legacy, store: Store) {
    store.vault.Some? && Good(l, store.vault.value)
  }

  /** Some stored record yields the mnemonic under its password. */
  predicate Recoverable(l: Legacy, store: Store) {
    || (store.primary.Some? && OpenWithPassword(l.password, store.primary.value.kdf, store.primary.value.box) == Some(l.seed))
    || StoreGood(l, store)
  }

  /** A v1 record, and no v2 record or an undecryptable one; nothing running, nobody unlocked. */
  ghost predicate Init(l: Legacy, s: Sys) {
    LegacyOk(l) && s.store.primary == Some(l.record) && s.password == l.password && H.Init(s)
  }

  /** If this removes a wallet, another one has the seed. */
  ghost predicate Spares(l: Legacy, secrets: Secrets, m: Mutation) {
    m.Remove? ==> exists e :: e in secrets.mnemonics && e.mnemonic == l.seed && e.id != m.id
  }

  /** Mutations start in coherent tabs, and none of them removes the last wallet with the seed. */
  ghost predicate Legal(l: Legacy, s: Sys, e: Event) {
    e.Mutate? ==> Coherent(TabOf(s, e.tab)) && Spares(l, TabOf(s, e.tab).secrets.value, e.m)
  }

  ghost predicate LegalRun(l: Legacy, s: Sys, es: seq<Event>) {
    es == [] || (LegalRun(l, s, es[..|es| - 1]) && Legal(l, Run(s, es[..|es| - 1]), es[|es| - 1]))
  }

  // ---- the invariant ----

  ghost predicate StoreOk(l: Legacy, store: Store) {
    && (store.primary.Some? ==> store.primary.value == l.record)
    && (store.vault.Some? ==> Good(l, store.vault.value) || Bad(store.vault.value))
    && (store.primary == None ==> StoreGood(l, store))
  }

  /** Whoever holds a good record has seen the store hold one. */
  ghost predicate SeenOk(l: Legacy, store: Store, vault: Option<Record>, primary: Option<LegacyRecord>) {
    && (primary.Some? ==> primary.value == l.record)
    && (vault.Some? ==> Bad(vault.value) || (Good(l, vault.value) && StoreGood(l, store)))
  }

  ghost predicate TaskOk(l: Legacy, store: Store, task: Task) {
    match task
    case LoadCall(_) => true
    case Loaded(found, _) =>
      SeenOk(l, store, found.vault, found.primary) && (found.vault.Some? || found.primary.Some?)
    case RefreshOpened(_) => true
    case UnlockOpened(_, unlocked) => unlocked.Some? ==> StoreGood(l, store)
    case OrphanDelete => StoreGood(l, store)
    case OrphanDeleted => true
    case LegacyOpened(password, mnemonic) =>
      mnemonic.Some? ==> password == l.password && mnemonic.value == l.seed
    case MigrateSealed(draft, key, secrets) => Good(l, draft)
    case MigrateSave(draft, _, key, secrets, _) => Good(l, draft)
    case MigrateSaved(saved, key, secrets) => Good(l, saved) && StoreGood(l, store)
    case MigrateDelete(saved, key, secrets) => Good(l, saved) && StoreGood(l, store)
    case MigrateFinish(saved, key, secrets) => Good(l, saved) && StoreGood(l, store)
    case CommitSave(draft, baseRev, _, _, _, _) => Good(l, draft) || baseRev < StoredRev(store)
    case CommitSaved(saved, _) => Good(l, saved) && StoreGood(l, store)
    case DeleteSave(baseRev, _, _) => baseRev < StoredRev(store)
    case _ => false
  }

  ghost predicate SeedOk(l: Legacy, s: Sys) {
    && LegacyOk(l) && StoreOk(l, s.store)
    && (forall tab :: tab in s.tabs ==> SeenOk(l, s.store, s.tabs[tab].record, s.tabs[tab].primary))
    && (forall c :: c in s.calls ==> TaskOk(l, s.store, s.calls[c].1))
  }

  ghost predicate Inv(l: Legacy, o: Store, s: Sys) {
    SeedOk(l, s) && H.Inv(o, s) && !s.ended
  }

  // ---- once good, always good ----

  lemma FirstHasSeed(id: Id, seed: string)
    ensures HasSeed(FirstSecrets(id, seed, None), seed)
  {
    assert FirstSecrets(id, seed, None).mnemonics[0] == Entry(id, seed);
  }

  lemma {:induction false} WithoutKeeps(es: seq<Entry>, id: Id, e: Entry)
    requires e in es && e.id != id
    ensures e in Without(es, EntryId, id)
  {
    if es[0] == e {
      assert Without(es, EntryId, id)[0] == e;
    } else {
      WithoutKeeps(es[1..], id, e);
    }
  }

  /** A mutation that spares the seed keeps it, and never empties the vault. */
  lemma ApplyKeepsSeed(l: Legacy, m: Mutation, meta: Meta, secrets: Secrets)
    requires WellFormed(meta, secrets) && HasSeed(secrets, l.seed) && Spares(l, secrets, m)
    ensures Apply(m, meta, secrets).Write? ==> HasSeed(Apply(m, meta, secrets).secrets, l.seed)
    ensures !Apply(m, meta, secrets).DeleteVault?
  {
    DeleteIffOnlyWallet(m, meta, secrets);
    if m.Remove? {
      RemoveKeepsSeed(l, m.id, meta, secrets);
    } else if m.Add? {
      AddKeepsSeed(l, m, meta, secrets);
    }
  }

  lemma RemoveKeepsSeed(l: Legacy, id: Id, meta: Meta, secrets: Secrets)
    requires WellFormed(meta, secrets) && Spares(l, secrets, Remove(id))
    ensures ApplyRemove(meta, secrets, id).Write? ==> HasSeed(ApplyRemove(meta, secrets, id).secrets, l.seed)
    ensures !(|meta.wallets| == 1 && meta.wallets[0].id == id)
  {
    var e :| e in secrets.mnemonics && e.mnemonic == l.seed && e.id != id;
    WithoutKeeps(secrets.mnemonics, id, e);
  }

  lemma AddKeepsSeed(l: Legacy, m: Mutation, meta: Meta, secrets: Secrets)
    requires m.Add? && HasSeed(secrets, l.seed)
    ensures Apply(m, meta, secrets).Write? ==> HasSeed(Apply(m, meta, secrets).secrets, l.seed)
  {
    var e :| e in secrets.mnemonics && e.mnemonic == l.seed;
    if Apply(m, meta, secrets).Write? {
      assert secrets.mnemonics <= Apply(m, meta, secrets).secrets.mnemonics;
      assert e in Apply(m, meta, secrets).secrets.mnemonics;
    }
  }

  lemma StartKeeps(l: Legacy, o: Store, s: Sys, t: Tab, m: Mutation, iv: nat)
    requires Inv(l, o, s) && H.TabOk(o, s, t) && SeenOk(l, s.store, t.record, t.primary) && Coherent(t)
    requires Spares(l, t.secrets.value, m)
    ensures StartMutation(t, m, iv).Some? ==> TaskOk(l, s.store, StartMutation(t, m, iv).value)
  {
    H.CoherentHolds(o, s, t);
    if H.Outlived(o, s, t.record.value) {
      H.StoredRevIs(o, s);
      OutlivedStarts(l, s.store, t, m, iv);
    } else {
      GoodStarts(l, s.store, t, m, iv);
    }
  }

  /** The vault has moved on from the record of this tab. */
  lemma OutlivedStarts(l: Legacy, store: Store, t: Tab, m: Mutation, iv: nat)
    requires t.record.Some? && t.record.value.rev < StoredRev(store)
    ensures StartMutation(t, m, iv).Some? ==> TaskOk(l, store, StartMutation(t, m, iv).value)
  {
  }

  lemma GoodStarts(l: Legacy, store: Store, t: Tab, m: Mutation, iv: nat)
    requires Coherent(t) && Good(l, t.record.value) && Spares(l, t.secrets.value, m)
    requires H.Sound(t.record.value, l.password)
    ensures StartMutation(t, m, iv).Some? ==> TaskOk(l, store, StartMutation(t, m, iv).value)
  {
    ApplyKeepsSeed(l, m, t.record.value.meta, t.secrets.value);
  }

  /** What a segment leaves in the store, in its tab and in its call. */
  ghost predicate SegmentOk(l: Legacy, store: Store, r: Segment) {
    && StoreOk(l, r.store)
    && (StoreGood(l, store) ==> StoreGood(l, r.store)) && StoredRev(store) <= StoredRev(r.store)
    && SeenOk(l, r.store, r.tab.record, r.tab.primary)
    && (r.next.Some? ==> TaskOk(l, r.store, r.next.value))
    && !r.wrote.ByDelete?
  }

  lemma SegmentKeeps(l: Legacy, store: Store, t: Tab, task: Task, rnd: Fresh)
    requires LegacyOk(l) && StoreOk(l, store) && SeenOk(l, store, t.record, t.primary) && TaskOk(l, store, task)
    ensures SegmentOk(l, store, Continue(store, t, task, rnd))
  {
    if task.Loaded? {
      LoadKeeps(l, store, t, task.found, task.why, rnd);
    } else if task.MigrateSave? || task.CommitSave? {
      SaveKeeps(l, store, t, task, rnd);
    } else if task.LegacyOpened? {
      LegacyKeeps(l, store, t, task, rnd);
    } else {
      OtherKeeps(l, store, t, task, rnd);
    }
  }

  lemma SaveKeeps(l: Legacy, store: Store, t: Tab, task: Task, rnd: Fresh)
    requires StoreOk(l, store) && SeenOk(l, store, t.record, t.primary) && TaskOk(l, store, task)
    requires task.MigrateSave? || task.CommitSave?
    ensures SegmentOk(l, store, Continue(store, t, task, rnd))
  {
  }

  lemma LegacyKeeps(l: Legacy, store: Store, t: Tab, task: Task, rnd: Fresh)
    requires StoreOk(l, store) && SeenOk(l, store, t.record, t.primary) && TaskOk(l, store, task) && task.LegacyOpened?
    ensures SegmentOk(l, store, Continue(store, t, task, rnd))
  {
    FirstHasSeed(rnd.now, l.seed);
  }

  lemma OtherKeeps(l: Legacy, store: Store, t: Tab, task: Task, rnd: Fresh)
    requires LegacyOk(l) && StoreOk(l, store) && SeenOk(l, store, t.record, t.primary) && TaskOk(l, store, task)
    requires !task.Loaded? && !task.MigrateSave? && !task.CommitSave? && !task.LegacyOpened?
    ensures SegmentOk(l, store, Continue(store, t, task, rnd))
  {
  }

  lemma LoadKeeps(l: Legacy, store: Store, t: Tab, found: Store, why: Purpose, rnd: Fresh)
    requires LegacyOk(l) && TaskOk(l, store, Loaded(found, why))
    ensures var r := AfterLoad(store, t, found, why, rnd);
            && r.store == store && SeenOk(l, store, r.tab.record, r.tab.primary)
            && (r.next.Some? ==> TaskOk(l, store, r.next.value))
            && !r.wrote.ByDelete?
  {
  }

  lemma ResumeKeeps(l: Legacy, s: Sys, call: nat, rnd: Fresh)
    requires SeedOk(l, s) && call in s.calls
    ensures SeedOk(l, Next(s, Resume(call, rnd))) && Next(s, Resume(call, rnd)).ended == s.ended
  {
    var s' := Next(s, Resume(call, rnd));
    var (tab, task) := s.calls[call];
    SegmentKeeps(l, s.store, TabOf(s, tab), task, rnd);
    forall c | c in s'.calls ensures TaskOk(l, s'.store, s'.calls[c].1) {
      if c != call {
        TaskStays(l, s.store, s'.store, s.calls[c].1);
      }
    }
    forall x | x in s'.tabs ensures SeenOk(l, s'.store, s'.tabs[x].record, s'.tabs[x].primary) {
      if x != tab {
        assert SeenOk(l, s.store, s.tabs[x].record, s.tabs[x].primary);
      }
    }
  }

  lemma TaskStays(l: Legacy, store: Store, store': Store, task: Task)
    requires TaskOk(l, store, task) && (StoreGood(l, store) ==> StoreGood(l, store')) && StoredRev(store) <= StoredRev(store')
    ensures TaskOk(l, store', task)
  {
  }

  lemma NextKeeps(l: Legacy, o: Store, s: Sys, e: Event)
    requires Inv(l, o, s) && Legal(l, s, e)
    ensures Inv(l, o, Next(s, e))
  {
    H.NextKeeps(o, s, e);
    match e
    case Resume(call, rnd) =>
      if call in s.calls {
        ResumeKeeps(l, s, call, rnd);
      }
    case Mutate(tab, call, m, iv) =>
      StartKeeps(l, o, s, TabOf(s, tab), m, iv);
    case _ =>
  }

  lemma {:induction false} RunKeeps(l: Legacy, o: Store, s: Sys, es: seq<Event>)
    requires Inv(l, o, s) && LegalRun(l, s, es)
    ensures Inv(l, o, Run(s, es))
  {
    if es != [] {
      RunKeeps(l, o, s, es[..|es| - 1]);
      NextKeeps(l, o, Run(s, es[..|es| - 1]), es[|es| - 1]);
    }
  }

  lemma Reached(l: Legacy, s0: Sys, es: seq<Event>)
    requires Init(l, s0) && LegalRun(l, s0, es)
    ensures Inv(l, s0.store, Run(s0, es))
  {
    assert H.LegalRun(s0, []) && Run(s0, []) == s0;
    H.Reached(s0, []);
    RunKeeps(l, s0.store, s0, es);
  }

  /** Through any attempts, races and crashes, some stored record yields the mnemonic under its
      own password; and the v1 copy goes only once the v2 record is good. */
  lemma MigrationNeverLosesTheSeed(l: Legacy, s0: Sys, es: seq<Event>, s: Sys)
    requires Init(l, s0) && LegalRun(l, s0, es) && s == Run(s0, es)
    ensures Recoverable(l, s.store)
    ensures s.store.primary == None ==> StoreGood(l, s.store)
  {
    Reached(l, s0, es);
  }

  /** Whatever a step stores opens with the password and the kdf block stored beside it, whichever
      iteration constant the writer ran with, and holds the seed. */
  lemma EveryWrittenRecordOpens(l: Legacy, s0: Sys, es: seq<Event>, s: Sys, e: Event)
    requires Init(l, s0) && LegalRun(l, s0, es) && s == Run(s0, es) && Legal(l, s, e)
    requires Next(s, e).store.vault != s.store.vault
    ensures StoreGood(l, Next(s, e).store)
  {
    Reached(l, s0, es);
    WritesGood(l, s, e);
  }

  lemma WritesGood(l: Legacy, s: Sys, e: Event)
    requires forall c :: c in s.calls ==> TaskOk(l, s.store, s.calls[c].1)
    requires Next(s, e).store.vault != s.store.vault
    ensures StoreGood(l, Next(s, e).store)
  {
    var (tab, task) := s.calls[e.call];
    SegmentWritesGood(l, s.store, TabOf(s, tab), task, e.rnd);
  }

  lemma SegmentWritesGood(l: Legacy, store: Store, t: Tab, task: Task, rnd: Fresh)
    requires TaskOk(l, store, task)
    ensures var r := Continue(store, t, task, rnd); r.store.vault != store.vault ==> StoreGood(l, r.store)
  {
  }

  // ---- one undisturbed unlock finishes the job ----

  /** n segments of one call, with nothing in between. */
  function Drive(s: Sys, call: nat, rnd: Fresh, n: nat): Sys
    decreases n, call
  {
    if n == 0 then s else Drive(Next(s, Resume(call, rnd)), call, rnd, n - 1)
  }

  function Unlock(s: Sys, tab: nat, call: nat, password: string, rnd: Fresh): Sys {
    Drive(Next(s, Begin(tab, call, ForUnlock(password))), call, rnd, 9)
  }

  ghost predicate Finished(l: Legacy, s: Sys, tab: nat, call: nat) {
    && call !in s.calls
    && s.store.primary == None && StoreGood(l, s.store)
    && Coherent(TabOf(s, tab)) && TabOf(s, tab).primary == None
    && TabOf(s, tab).record == s.store.vault
    && HasSeed(TabOf(s, tab).secrets.value, l.seed)
  }

  lemma {:induction false} DriveIdle(s: Sys, call: nat, rnd: Fresh, n: nat)
    requires call !in s.calls
    ensures Drive(s, call, rnd, n) == s
    decreases n
  {
    if n > 0 {
      DriveIdle(Next(s, Resume(call, rnd)), call, rnd, n - 1);
    }
  }

  lemma OneSegment(s: Sys, tab: nat, task: Task, call: nat, rnd: Fresh, n: nat) returns (s': Sys)
    requires call in s.calls && s.calls[call] == (tab, task) && n > 0
    ensures s' == Next(s, Resume(call, rnd))
    ensures Drive(s, call, rnd, n) == Drive(s', call, rnd, n - 1)
    ensures var r := Continue(s.store, TabOf(s, tab), task, rnd);
            && s'.store == r.store && TabOf(s', tab) == r.tab
            && (r.next.Some? ==> call in s'.calls && s'.calls[call] == (tab, r.next.value))
            && (r.next == None ==> call !in s'.calls)
  {
    s' := Next(s, Resume(call, rnd));
    ResumeEffect(s, call, rnd, tab, task);
  }

  /** From the decrypted v1 mnemonic on: seal, save over whatever is there, verify, delete v1. */
  lemma FinishMigration(l: Legacy, s: Sys, tab: nat, call: nat, rnd: Fresh, n: nat)
    requires LegacyOk(l) && call in s.calls && n >= 6
    requires s.calls[call] == (tab, LegacyOpened(l.password, Some(l.seed)))
    requires TabOf(s, tab).record == s.store.vault
    ensures Finished(l, Drive(s, call, rnd, n), tab, call)
  {
    var s1 := OneSegment(s, tab, LegacyOpened(l.password, Some(l.seed)), call, rnd, n);
    SealsSeed(l, s.store, TabOf(s, tab), rnd);
    SealAndFinish(l, s1, tab, call, rnd, n - 1);
  }

  lemma SealsSeed(l: Legacy, store: Store, t: Tab, rnd: Fresh)
    ensures var r := Continue(store, t, LegacyOpened(l.password, Some(l.seed)), rnd);
            && r.store == store && r.tab == t && r.next.Some? && r.next.value.MigrateSealed?
            && Holds(l, r.next.value.draft, r.next.value.key, r.next.value.secrets)
  {
    FirstHasSeed(rnd.now, l.seed);
  }

  /** The draft opens under its key to secrets with the seed. */
  ghost predicate Holds(l: Legacy, r: Record, key: Key, secrets: Secrets) {
    Good(l, r) && Open(key, r.box) == Some(secrets) && HasSeed(secrets, l.seed)
  }

  lemma SealAndFinish(l: Legacy, s: Sys, tab: nat, call: nat, rnd: Fresh, n: nat)
    requires call in s.calls && s.calls[call].0 == tab && n >= 5
    requires var task := s.calls[call].1; task.MigrateSealed? && Holds(l, task.draft, task.key, task.secrets)
    requires TabOf(s, tab).record == s.store.vault
    ensures Finished(l, Drive(s, call, rnd, n), tab, call)
  {
    var s1 := OneSegment(s, tab, s.calls[call].1, call, rnd, n);
    SaveAndFinish(l, s1, tab, call, rnd, n - 1);
  }

  lemma SaveAndFinish(l: Legacy, s: Sys, tab: nat, call: nat, rnd: Fresh, n: nat)
    requires call in s.calls && s.calls[call].0 == tab && n >= 4
    requires var task := s.calls[call].1;
             && task.MigrateSave? && task.baseRev == StoredRev(s.store) && Holds(l, task.draft, task.key, task.secrets)
    ensures Finished(l, Drive(s, call, rnd, n), tab, call)
  {
    var task := s.calls[call].1;
    var s1 := OneSegment(s, tab, task, call, rnd, n);
    VerifyAndFinish(l, s1, tab, call, rnd, task.draft.(rev := task.baseRev + 1), task.key, task.secrets, n - 1);
  }

  lemma VerifyAndFinish(l: Legacy, s: Sys, tab: nat, call: nat, rnd: Fresh, saved: Record, key: Key, secrets: Secrets, n: nat)
    requires call in s.calls && s.calls[call] == (tab, MigrateSaved(saved, key, secrets)) && n >= 3
    requires s.store.vault == Some(saved) && Holds(l, saved, key, secrets)
    ensures Finished(l, Drive(s, call, rnd, n), tab, call)
  {
    var s1 := OneSegment(s, tab, MigrateSaved(saved, key, secrets), call, rnd, n);
    DropAndFinish(l, s1, tab, call, rnd, saved, key, secrets, n - 1);
  }

  lemma DropAndFinish(l: Legacy, s: Sys, tab: nat, call: nat, rnd: Fresh, saved: Record, key: Key, secrets: Secrets, n: nat)
    requires call in s.calls && s.calls[call] == (tab, MigrateDelete(saved, key, secrets)) && n >= 2
    requires s.store.vault == Some(saved) && Holds(l, saved, key, secrets)
    ensures Finished(l, Drive(s, call, rnd, n), tab, call)
  {
    var s1 := OneSegment(s, tab, MigrateDelete(saved, key, secrets), call, rnd, n);
    var s2 := OneSegment(s1, tab, MigrateFinish(saved, key, secrets), call, rnd, n - 1);
    DriveIdle(s2, call, rnd, n - 2);
  }

  /** A good v2 record: unlock it, and delete the orphaned v1 copy if there is one. */
  lemma FinishGood(l: Legacy, s: Sys, tab: nat, call: nat, rnd: Fresh)
    requires StoreGood(l, s.store) && call in s.calls
    requires s.calls[call] == (tab, UnlockOpened(l.password, TryPassword(s.store.vault.value, l.password)))
    requires TabOf(s, tab).record == s.store.vault && TabOf(s, tab).primary == s.store.primary
    ensures Finished(l, Drive(s, call, rnd, 7), tab, call)
  {
    var s1 := OneSegment(s, tab, s.calls[call].1, call, rnd, 7);
    if s.store.primary == None {
      DriveIdle(s1, call, rnd, 6);
    } else {
      var s2 := OneSegment(s1, tab, s1.calls[call].1, call, rnd, 6);
      var s3 := OneSegment(s2, tab, s2.calls[call].1, call, rnd, 5);
      DriveIdle(s3, call, rnd, 4);
    }
  }

  /** From any reachable state, one unlock with the right password and nothing in its way ends
      with the v2 record only, unlocked, and holding the mnemonic. */
  lemma UndisturbedUnlockFinishes(l: Legacy, s: Sys, tab: nat, call: nat, rnd: Fresh)
    requires LegacyOk(l) && StoreOk(l, s.store) && call !in s.calls
    ensures Finished(l, Unlock(s, tab, call, l.password, rnd), tab, call)
  {
    var s0 := Next(s, Begin(tab, call, ForUnlock(l.password)));
    var s1 := OneSegment(s0, tab, LoadCall(ForUnlock(l.password)), call, rnd, 9);
    var s2 := OneSegment(s1, tab, Loaded(s.store, ForUnlock(l.password)), call, rnd, 8);
    if s.store.vault == None {
      FinishMigration(l, s2, tab, call, rnd, 7);
    } else if Bad(s.store.vault.value) {
      var s3 := OneSegment(s2, tab, s2.calls[call].1, call, rnd, 7);
      FinishMigration(l, s3, tab, call, rnd, 6);
    } else {
      FinishGood(l, s2, tab, call, rnd);
    }
  }

  /** The same from the start: after any legal run the seed can still be unlocked. */
  lemma AlwaysUnlockable(l: Legacy, s0: Sys, es: seq<Event>, tab: nat, call: nat, rnd: Fresh)
    requires Init(l, s0) && LegalRun(l, s0, es) && call !in Run(s0, es).calls
    ensures Finished(l, Unlock(Run(s0, es), tab, call, l.password, rnd), tab, call)
  {
    Reached(l, s0, es);
    UndisturbedUnlockFinishes(l, Run(s0, es), tab, call, rnd);
  }
}
