/** Several browser tabs over one store. Every await of vault.js ends a segment; a step runs
    one segment of one pending call, so calls of one tab and of different tabs interleave
    freely, a refresh can land in the middle of any call, and a tab can vanish at any point. */
module VaultProtocol {
  import opened Common
  import opened SealedBox
  import opened VaultState

  /** The v2 record of keystore.js; `box` is its cipher block. */
  datatype Record = Record(rev: nat, kdf: Kdf, box: Cipher<Secrets>, meta: Meta)

  /** The v1 record: one raw mnemonic. */
  datatype LegacyRecord = LegacyRecord(kdf: Kdf, box: Cipher<string>)

  datatype Store = Store(vault: Option<Record>, primary: Option<LegacyRecord>)

  /** The closure variables of createVaultManager. */
  datatype Tab = Tab(
    record: Option<Record>, key: Option<Key>, secrets: Option<Secrets>, primary: Option<LegacyRecord>)

  const EMPTY_TAB := Tab(None, None, None, None)

  /** Which call is waiting for loadKeystoreAny. */
  datatype Purpose =
    | ForRefresh
    | ForUnlock(password: string)
    | ForCreate(password: string, name: string, mnemonic: string, backedUp: bool, source: Option<Source>)

  /** What createVault was asked to store. */
  datatype Asked = Asked(name: string, mnemonic: string, backedUp: bool, source: Option<Source>)

  /** A suspended call: what it holds across its current await. The fields `base`, `over`, `cause`, `held` and
      `asked` are there for the theorems; no step reads them. */
  datatype Task =
    | LoadCall(why: Purpose)
    | Loaded(found: Store, why: Purpose)
    | RefreshOpened(got: Option<Secrets>)
    | UnlockOpened(password: string, unlocked: Option<(Key, Secrets)>)
    | OrphanDelete
    | OrphanDeleted
    | LegacyOpened(password: string, mnemonic: Option<string>)
    | MigrateSealed(draft: Record, key: Key, secrets: Secrets)
    | MigrateSave(draft: Record, baseRev: nat, key: Key, secrets: Secrets, over: Option<Record>)
    | MigrateSaved(saved: Record, key: Key, secrets: Secrets)
    | MigrateDelete(saved: Record, key: Key, secrets: Secrets)
    | MigrateFinish(saved: Record, key: Key, secrets: Secrets)
    | CommitSave(draft: Record, baseRev: nat, secrets: Secrets, base: Record, cause: Mutation, held: Secrets)
    | CommitSaved(saved: Record, secrets: Secrets)
    | DeleteSave(baseRev: nat, base: Record, cause: Mutation)
    | Deleted
    | CreateSave(draft: Record, key: Key, secrets: Secrets, asked: Asked)
    | Created(saved: Record, key: Key, secrets: Secrets)

  /** Fresh randomness and the clock; `iterations` is the writer's own PBKDF2 constant. */
  datatype Fresh = Fresh(iterations: nat, salt: nat, iv: nat, now: nat)

  /** What a step did to the stored vault record. */
  datatype Written =
    | Nothing
    | ByMutation(m: Mutation)
    | ByCreate(password: string, asked: Asked)
    | ByMigration
    | ByDelete(removed: Mutation)

  datatype Segment = Step(store: Store, tab: Tab, next: Option<Task>, wrote: Written)

  // ---- keystore.js ----

  function StoredRev(store: Store): nat {
    if store.vault.Some? then store.vault.value.rev else 0
  }

  /** saveVaultRecord: None is VaultConflictError. */
  function SaveVaultRecord(store: Store, draft: Record, baseRev: nat): Option<Record> {
    if StoredRev(store) != baseRev then None else Some(draft.(rev := baseRev + 1))
  }

  // ---- vault.js, segment by segment ----

  function Locked(t: Tab): Tab {
    t.(key := None, secrets := None)
  }

  function TryPassword(r: Record, password: string): Option<(Key, Secrets)> {
    var k := Derive(password, r.kdf);
    var got := Open(k, r.box);
    if got.Some? then Some((k, got.value)) else None
  }

  function Migrating(p: LegacyRecord, password: string): Task {
    LegacyOpened(password, OpenWithPassword(password, p.kdf, p.box))
  }

  function AfterLoad(store: Store, t0: Tab, found: Store, why: Purpose, rnd: Fresh): Segment {
    var t := t0.(record := found.vault, primary := found.primary);
    match why
    case ForRefresh =>
      if t.key == None then Step(store, t, None, Nothing)
      else if t.record == None then Step(store, Locked(t), None, Nothing)
      else Step(store, t, Some(RefreshOpened(Open(t.key.value, t.record.value.box))), Nothing)
    case ForUnlock(password) =>
      if t.record.Some? then Step(store, t, Some(UnlockOpened(password, TryPassword(t.record.value, password))), Nothing)
      else if t.primary.Some? then Step(store, t, Some(Migrating(t.primary.value, password)), Nothing)
      else Step(store, t, None, Nothing)
    case ForCreate(password, name, mnemonic, backedUp, source) =>
      if t.key.Some? || t.record.Some? || t.primary.Some? then Step(store, t, None, Nothing)
      else
        var key := Derive(password, Kdf(rnd.iterations, rnd.salt));
        var secrets := FirstSecrets(rnd.now, mnemonic, source);
        var draft := Record(0, key.kdf, Seal(key, rnd.iv, secrets),
                            FirstMeta(rnd.now, name, backedUp, source, rnd.now));
        Step(store, t, Some(CreateSave(draft, key, secrets, Asked(name, mnemonic, backedUp, source))), Nothing)
  }

  function AfterUnlockOpen(store: Store, t: Tab, password: string, unlocked: Option<(Key, Secrets)>): Segment {
    if unlocked.Some? then
      var t' := t.(key := Some(unlocked.value.0), secrets := Some(unlocked.value.1));
      Step(store, t', if t.primary.Some? then Some(OrphanDelete) else None, Nothing)
    else if t.primary.Some? then Step(store, t, Some(Migrating(t.primary.value, password)), Nothing)
    else Step(store, t, None, Nothing)
  }

  function AfterLegacyOpen(store: Store, t: Tab, password: string, mnemonic: Option<string>, rnd: Fresh): Segment {
    if mnemonic == None then Step(store, t, None, Nothing)
    else
      var key := Derive(password, Kdf(rnd.iterations, rnd.salt));
      var secrets := FirstSecrets(rnd.now, mnemonic.value, None);
      var draft := Record(0, key.kdf, Seal(key, rnd.iv, secrets),
                          FirstMeta(rnd.now, "Wallet 1", false, None, rnd.now));
      Step(store, t, Some(MigrateSealed(draft, key, secrets)), Nothing)
  }

  /** One segment of a suspended call. */
  function Continue(store: Store, t: Tab, task: Task, rnd: Fresh): Segment {
    match task
    case LoadCall(why) => Step(store, t, Some(Loaded(store, why)), Nothing)
    case Loaded(found, why) => AfterLoad(store, t, found, why, rnd)
    case RefreshOpened(got) =>
      Step(store, if got == None then Locked(t) else t.(secrets := got), None, Nothing)
    case UnlockOpened(password, unlocked) => AfterUnlockOpen(store, t, password, unlocked)
    case OrphanDelete => Step(store.(primary := None), t, Some(OrphanDeleted), Nothing)
    case OrphanDeleted => Step(store, t.(primary := None), None, Nothing)
    case LegacyOpened(password, mnemonic) => AfterLegacyOpen(store, t, password, mnemonic, rnd)
    case MigrateSealed(draft, key, secrets) =>
      Step(store, t, Some(MigrateSave(draft, if t.record.Some? then t.record.value.rev else 0, key, secrets, t.record)), Nothing)
    case MigrateSave(draft, baseRev, key, secrets, _) =>
      var saved := SaveVaultRecord(store, draft, baseRev);
      if saved == None then Step(store, t, None, Nothing)
      else Step(store.(vault := saved), t, Some(MigrateSaved(saved.value, key, secrets)), ByMigration)
    case MigrateSaved(saved, key, secrets) =>
      if Open(key, saved.box) == None then Step(store, t, None, Nothing)
      else Step(store, t, Some(MigrateDelete(saved, key, secrets)), Nothing)
    case MigrateDelete(saved, key, secrets) =>
      Step(store.(primary := None), t, Some(MigrateFinish(saved, key, secrets)), Nothing)
    case MigrateFinish(saved, key, secrets) =>
      Step(store, Tab(Some(saved), Some(key), Some(secrets), None), None, Nothing)
    case CommitSave(draft, baseRev, secrets, _, cause, _) =>
      var saved := SaveVaultRecord(store, draft, baseRev);
      if saved == None then Step(store, t, Some(LoadCall(ForRefresh)), Nothing)
      else Step(store.(vault := saved), t, Some(CommitSaved(saved.value, secrets)), ByMutation(cause))
    case CommitSaved(saved, secrets) =>
      Step(store, t.(record := Some(saved), secrets := Some(secrets)), None, Nothing)
    case DeleteSave(baseRev, _, cause) =>
      if StoredRev(store) != baseRev then Step(store, t, Some(LoadCall(ForRefresh)), Nothing)
      else Step(store.(vault := None), t, Some(Deleted), ByDelete(cause))
    case Deleted => Step(store, Locked(t.(record := None)), None, Nothing)
    case CreateSave(draft, key, secrets, asked) =>
      var saved := SaveVaultRecord(store, draft, 0);
      if saved == None then Step(store, t, None, Nothing)
      else Step(store.(vault := saved), t, Some(Created(saved.value, key, secrets)), ByCreate(key.password, asked))
    case Created(saved, key, secrets) =>
      Step(store, t.(record := Some(saved), key := Some(key), secrets := Some(secrets)), None, Nothing)
  }

  /** The synchronous part of a mutation, up to commit's first await. */
  function StartMutation(t: Tab, m: Mutation, iv: nat): Option<Task> {
    if t.key == None || t.record == None || t.secrets == None then None
    else
      var r := t.record.value;
      match Apply(m, r.meta, t.secrets.value)
      case Write(meta, secrets) =>
        Some(CommitSave(Record(0, r.kdf, Seal(t.key.value, iv, secrets), meta), r.rev, secrets, r, m, t.secrets.value))
      case DeleteVault => Some(DeleteSave(r.rev, r, m))
      case Refused(_) => None
      case NoWrite => None
  }

  // ---- the system ----

  datatype Event =
    | Begin(tab: nat, call: nat, why: Purpose)
    | Mutate(tab: nat, call: nat, m: Mutation, iv: nat)
    | Resume(call: nat, rnd: Fresh)
    | LockTab(tab: nat)
    | Crash(tab: nat)

  /** `hist`, `log`, `password` and `ended` record what happened; no step reads them. */
  datatype Sys = Sys(
    store: Store, tabs: map<nat, Tab>, calls: map<nat, (nat, Task)>,
    hist: seq<Record>, log: seq<Written>, password: string, ended: bool)

  function TabOf(s: Sys, tab: nat): Tab {
    if tab in s.tabs then s.tabs[tab] else EMPTY_TAB
  }

  function Recorded(s: Sys, store: Store, wrote: Written): Sys {
    var s' := s.(store := store);
    match wrote
    case Nothing => s'
    case ByDelete(_) => s'.(ended := true)
    case ByCreate(password, _) =>
      if store.vault.Some? then s'.(hist := s.hist + [store.vault.value], log := s.log + [wrote], password := password) else s'
    case _ =>
      if store.vault.Some? then s'.(hist := s.hist + [store.vault.value], log := s.log + [wrote]) else s'
  }

  function Next(s: Sys, e: Event): Sys {
    match e
    case Begin(tab, call, why) =>
      if call in s.calls then s else s.(calls := s.calls[call := (tab, LoadCall(why))])
    case Mutate(tab, call, m, iv) =>
      var task := StartMutation(TabOf(s, tab), m, iv);
      if call in s.calls || task == None then s else s.(calls := s.calls[call := (tab, task.value)])
    case Resume(call, rnd) =>
      if call !in s.calls then s
      else
        var (tab, task) := s.calls[call];
        var r := Continue(s.store, TabOf(s, tab), task, rnd);
        Recorded(s, r.store, r.wrote).(
          tabs := s.tabs[tab := r.tab],
          calls := if r.next == None then s.calls - {call} else s.calls[call := (tab, r.next.value)])
    case LockTab(tab) => s.(tabs := s.tabs[tab := Locked(TabOf(s, tab))])
    case Crash(tab) =>
      s.(tabs := s.tabs[tab := EMPTY_TAB],
         calls := map c | c in s.calls && s.calls[c].0 != tab :: s.calls[c])
  }

  function Run(s: Sys, es: seq<Event>): Sys {
    if es == [] then s else Next(Run(s, es[..|es| - 1]), es[|es| - 1])
  }

  /** The tab's secrets are what its own record holds, under its own key. */
  ghost predicate Coherent(t: Tab) {
    && t.record.Some? && t.key.Some? && t.secrets.Some?
    && Open(t.key.value, t.record.value.box) == t.secrets
  }

  lemma {:induction false} RunConcat(s: Sys, a: seq<Event>, b: seq<Event>)
    ensures Run(s, a + b) == Run(Run(s, a), b)
  {
    if b == [] {
      assert a + b == a;
    } else {
      assert (a + b)[..|a + b| - 1] == a + b[..|b| - 1];
      RunConcat(s, a, b[..|b| - 1]);
    }
  }

  /** What resuming a call does, seen from its own tab, from the store, and from everyone else. */
  lemma ResumeEffect(s: Sys, call: nat, rnd: Fresh, tab: nat, task: Task)
    requires call in s.calls && s.calls[call] == (tab, task)
    ensures var r, s' := Continue(s.store, TabOf(s, tab), task, rnd), Next(s, Resume(call, rnd));
            && s'.store == r.store && TabOf(s', tab) == r.tab
            && (r.next.Some? ==> s'.calls == s.calls[call := (tab, r.next.value)])
            && (r.next == None ==> s'.calls == s.calls - {call})
            && (forall x :: x != tab ==> TabOf(s', x) == TabOf(s, x))
            && s'.log == if r.wrote.Nothing? || r.wrote.ByDelete? then s.log else s.log + [r.wrote]
  {
  }
}
