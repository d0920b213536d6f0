/** Runs that show the conditions of the history and migration theorems are needed. Each one is
    a sequence of events from an ordinary start. */
module VaultRaces {
  import opened Common
  import opened SealedBox
  import opened VaultState
  import opened VaultMutations
  import opened VaultProtocol
  import H = VaultHistory
  import M = VaultMigration

  const NOTHING_STORED := Sys(Store(None, None), map[], map[], [], [], "", false)

  const LEGACY_KDF := Kdf(600000, 3)
  const LEGACY := M.Legacy("pw", "x", LegacyRecord(LEGACY_KDF, Sealed(Key("pw", LEGACY_KDF), 4, "x")))

  /** Only a v1 record is stored. */
  const LEGACY_STORED := Sys(Store(None, Some(LEGACY.record)), map[], map[], [], [], "pw", false)

  /** The history theorems start from the same states. */
  ghost predicate Reachable(s: Sys) {
    exists start, es :: H.Init(start) && s == Run(start, es)
  }

  lemma ReachStart(s: Sys)
    requires H.Init(s)
    ensures Reachable(s)
  {
    assert s == Run(s, []);
  }

  lemma ReachNext(s: Sys, e: Event)
    requires Reachable(s)
    ensures Reachable(Next(s, e))
  {
    var start, es :| H.Init(start) && s == Run(start, es);
    assert (es + [e])[..|es + [e]| - 1] == es;
    assert Next(s, e) == Run(start, es + [e]);
  }

  /** Resume a call whose next segment is known to be `r`. */
  lemma Go(s: Sys, call: nat, rnd: Fresh, tab: nat, task: Task, r: Segment) returns (s': Sys)
    requires Reachable(s) && call in s.calls && s.calls[call] == (tab, task)
    requires r == Continue(s.store, TabOf(s, tab), task, rnd)
    ensures Reachable(s')
    ensures s'.store == r.store && TabOf(s', tab) == r.tab
    ensures s'.calls == if r.next.Some? then s.calls[call := (tab, r.next.value)] else s.calls - {call}
    ensures forall x :: x != tab ==> TabOf(s', x) == TabOf(s, x)
    ensures s'.log == if r.wrote.Nothing? || r.wrote.ByDelete? then s.log else s.log + [r.wrote]
  {
    s' := Next(s, Resume(call, rnd));
    ReachNext(s, Resume(call, rnd));
    ResumeEffect(s, call, rnd, tab, task);
  }

  /** The last two segments of a call. */
  lemma GoTwice(s: Sys, call: nat, rnd: Fresh, tab: nat, task: Task, r: Segment, last: Segment) returns (s': Sys)
    requires Reachable(s) && call in s.calls && s.calls[call] == (tab, task)
    requires r == Continue(s.store, TabOf(s, tab), task, rnd) && r.next.Some?
    requires last == Continue(r.store, r.tab, r.next.value, rnd) && last.next == None && last.wrote.Nothing?
    ensures Reachable(s')
    ensures s'.store == last.store && TabOf(s', tab) == last.tab && s'.calls == s.calls - {call}
    ensures forall x :: x != tab ==> TabOf(s', x) == TabOf(s, x)
    ensures s'.log == if r.wrote.Nothing? || r.wrote.ByDelete? then s.log else s.log + [r.wrote]
  {
    s' := Go(s, call, rnd, tab, task, r);
    s' := Go(s', call, rnd, tab, r.next.value, last);
    assert s'.calls == s.calls - {call};
  }

  lemma Call(s: Sys, tab: nat, call: nat, why: Purpose) returns (s': Sys)
    requires Reachable(s) && call !in s.calls
    ensures Reachable(s') && s' == s.(calls := s.calls[call := (tab, LoadCall(why))])
  {
    s' := Next(s, Begin(tab, call, why));
    ReachNext(s, Begin(tab, call, why));
  }

  lemma Mutating(s: Sys, tab: nat, call: nat, m: Mutation, iv: nat, task: Task) returns (s': Sys)
    requires Reachable(s) && call !in s.calls && StartMutation(TabOf(s, tab), m, iv) == Some(task)
    ensures Reachable(s') && s' == s.(calls := s.calls[call := (tab, task)])
  {
    s' := Next(s, Mutate(tab, call, m, iv));
    ReachNext(s, Mutate(tab, call, m, iv));
  }

  /** A load, and what the waiting call does with it. */
  lemma Load(s: Sys, tab: nat, call: nat, why: Purpose, rnd: Fresh, r: Segment) returns (s': Sys)
    requires Reachable(s) && call !in s.calls
    requires r == AfterLoad(s.store, TabOf(s, tab), s.store, why, rnd) && r.wrote.Nothing? && r.store == s.store
    ensures Reachable(s')
    ensures s'.store == s.store && TabOf(s', tab) == r.tab && s'.log == s.log
    ensures s'.calls == if r.next.Some? then s.calls[call := (tab, r.next.value)] else s.calls
    ensures forall x :: x != tab ==> TabOf(s', x) == TabOf(s, x)
  {
    var s1 := Call(s, tab, call, why);
    var s2 := Go(s1, call, rnd, tab, LoadCall(why), Step(s.store, TabOf(s, tab), Some(Loaded(s.store, why)), Nothing));
    s' := Go(s2, call, rnd, tab, Loaded(s.store, why), r);
  }

  const RND := Fresh(600000, 7, 8, 1)
  const LATE_RND := Fresh(600000, 17, 18, 3)
  const OTHER_RND := Fresh(600000, 99, 5, 5)
  const KDF := Kdf(600000, 7)
  const KEY := Key("pw", KDF)
  const ROW1 := Wallet(1, "Wallet 1", 1, false, false, 0)
  const ROW2 := Wallet(2, "b", 2, false, false, 0)
  const FIRST := Record(1, KDF, Sealed(KEY, 8, Secrets([Entry(1, "x")], map[])), Meta(1, [ROW1]))
  const ASKED := Asked("Wallet 1", "x", false, None)
  const OTHER_ASKED := Asked("b", "z", false, None)
  const LATE := Record(0, Kdf(600000, 17), Sealed(Key("pw", Kdf(600000, 17)), 18, Secrets([Entry(3, "x")], map[])),
                       Meta(3, [Wallet(3, "Wallet 1", 3, false, false, 0)]))
  const BOTH := Record(2, KDF, Sealed(KEY, 9, Secrets([Entry(1, "x"), Entry(2, "y")], map[])), Meta(1, [ROW1, ROW2]))

  lemma Texts()
    ensures Trim("Wallet 1") == "Wallet 1" && Trim("b") == "b"
    ensures NormName("Wallet 1") != "b" && NormName("b") == "b"
    ensures NormMnemonic("x") == "x" && NormMnemonic("y") == "y"
  {
    assert ToLower("b") == "b" && ToLower("x") == "x" && ToLower("y") == "y";
    assert Collapse("x") == ['x'] + Collapse("") && Collapse("y") == ['y'] + Collapse("");
  }

  const ADD := Add("b", "y", false, None, 2)

  lemma SecondNameFree()
    ensures NameFree(FIRST.meta, "b", None)
  {
    Texts();
    assert FIRST.meta.wallets == [ROW1];
    assert NameKey(ROW1) == NormName("Wallet 1");
  }

  lemma SecondSeedNew()
    ensures DupIndex([Entry(1, "x")], "y") == 1
  {
    Texts();
    assert SeedKey(Entry(1, "x")) == NormMnemonic("x");
    assert [Entry(1, "x")][1..] == [];
  }

  /** The branch `addWallet` takes for a new seed under a free name. */
  lemma AddNewWallet(meta: Meta, secrets: Secrets, name: string, mnemonic: string, now: nat)
    requires DupIndex(secrets.mnemonics, mnemonic) == |secrets.mnemonics| && NameFree(meta, name, None)
    requires now !in WalletIds(meta.wallets)
    ensures ApplyAdd(meta, secrets, name, mnemonic, false, None, now)
            == Write(meta.(wallets := meta.wallets + [Wallet(now, Trim(name), now, false, false, 0)]),
                     secrets.(mnemonics := secrets.mnemonics + [Entry(now, mnemonic)]))
  {
  }

  lemma AddApplies(meta: Meta, secrets: Secrets)
    requires DupIndex(secrets.mnemonics, "y") == |secrets.mnemonics| && NameFree(meta, "b", None)
    requires 2 !in WalletIds(meta.wallets)
    ensures Apply(ADD, meta, secrets) == Write(meta.(wallets := meta.wallets + [Wallet(2, Trim("b"), 2, false, false, 0)]),
                                               secrets.(mnemonics := secrets.mnemonics + [Entry(2, "y")]))
  {
    AddNewWallet(meta, secrets, "b", "y", 2);
  }

  lemma AddToFirst()
    ensures Apply(ADD, FIRST.meta, FIRST.box.plain) == Write(BOTH.meta, BOTH.box.plain)
  {
    SecondNameFree();
    SecondSeedNew();
    assert WalletIds(FIRST.meta.wallets) == {1};
    AddApplies(FIRST.meta, FIRST.box.plain);
    BothIsFirstPlusOne();
  }

  lemma BothIsFirstPlusOne()
    ensures FIRST.meta.(wallets := FIRST.meta.wallets + [Wallet(2, Trim("b"), 2, false, false, 0)]) == BOTH.meta
    ensures FIRST.box.plain.(mnemonics := FIRST.box.plain.mnemonics + [Entry(2, "y")]) == BOTH.box.plain
  {
    Texts();
  }

  lemma CreateDraft()
    ensures var t, none := EMPTY_TAB, Store(None, None);
            AfterLoad(none, t, none, ForCreate("pw", "Wallet 1", "x", false, None), RND)
            == Step(none, t, Some(CreateSave(FIRST.(rev := 0), KEY, FIRST.box.plain, ASKED)), Nothing)
  {
    Texts();
  }

  /** A save that wins its revision check, followed by the rest of the call. */
  lemma Wins(s: Sys, call: nat, tab: nat, draft: Record, baseRev: nat, secrets: Secrets, base: Record, m: Mutation, held: Secrets)
    returns (s': Sys)
    requires Reachable(s) && call in s.calls && StoredRev(s.store) == baseRev
    requires s.calls[call] == (tab, CommitSave(draft, baseRev, secrets, base, m, held))
    ensures Reachable(s')
    ensures s'.store == s.store.(vault := Some(draft.(rev := baseRev + 1)))
    ensures TabOf(s', tab) == TabOf(s, tab).(record := Some(draft.(rev := baseRev + 1)), secrets := Some(secrets))
    ensures forall x :: x != tab ==> TabOf(s', x) == TabOf(s, x)
    ensures s'.calls == s.calls - {call} && s'.log == s.log + [ByMutation(m)]
  {
    var task := CommitSave(draft, baseRev, secrets, base, m, held);
    var saved := draft.(rev := baseRev + 1);
    var t := TabOf(s, tab);
    var store := s.store.(vault := Some(saved));
    s' := GoTwice(s, call, RND, tab, task, Step(store, t, Some(CommitSaved(saved, secrets)), ByMutation(m)),
                  Step(store, t.(record := Some(saved), secrets := Some(secrets)), None, Nothing));
  }

  lemma WinsCreate(s: Sys, call: nat, tab: nat, draft: Record, key: Key, secrets: Secrets, asked: Asked) returns (s': Sys)
    requires Reachable(s) && call in s.calls && StoredRev(s.store) == 0
    requires s.calls[call] == (tab, CreateSave(draft, key, secrets, asked))
    ensures Reachable(s')
    ensures s'.store == s.store.(vault := Some(draft.(rev := 1)))
    ensures TabOf(s', tab) == TabOf(s, tab).(record := Some(draft.(rev := 1)), key := Some(key), secrets := Some(secrets))
    ensures forall x :: x != tab ==> TabOf(s', x) == TabOf(s, x)
    ensures s'.calls == s.calls - {call} && s'.log == s.log + [ByCreate(key.password, asked)]
  {
    var saved := draft.(rev := 1);
    var t := TabOf(s, tab);
    var store := s.store.(vault := Some(saved));
    s' := GoTwice(s, call, RND, tab, CreateSave(draft, key, secrets, asked),
                  Step(store, t, Some(Created(saved, key, secrets)), ByCreate(key.password, asked)),
                  Step(store, t.(record := Some(saved), key := Some(key), secrets := Some(secrets)), None, Nothing));
  }

  /** Tab 1 creates a vault with wallet 1; nothing else is running. */
  lemma CreateFirst() returns (s: Sys)
    ensures Reachable(s)
    ensures s.store == Store(Some(FIRST), None) && s.calls == map[] && s.log == [ByCreate("pw", ASKED)]
    ensures TabOf(s, 1) == Tab(Some(FIRST), Some(KEY), Some(FIRST.box.plain), None) && TabOf(s, 0) == EMPTY_TAB
  {
    var z := NOTHING_STORED;
    ReachStart(z);
    CreateDraft();
    var draft := FIRST.(rev := 0);
    s := Load(z, 1, 10, ForCreate("pw", "Wallet 1", "x", false, None), RND,
              Step(z.store, EMPTY_TAB, Some(CreateSave(draft, KEY, FIRST.box.plain, ASKED)), Nothing));
    s := WinsCreate(s, 10, 1, draft, KEY, FIRST.box.plain, ASKED);
    assert draft.(rev := 1) == FIRST;
  }

  lemma AddStarts(t: Tab)
    requires t.record == Some(FIRST) && t.key == Some(KEY) && t.secrets == Some(FIRST.box.plain)
    ensures StartMutation(t, ADD, 9) == Some(CommitSave(BOTH.(rev := 0), 1, BOTH.box.plain, FIRST, ADD, FIRST.box.plain))
  {
    AddToFirst();
  }

  /** Tab 1 adds wallet 2. */
  lemma AddSecond(s0: Sys) returns (s: Sys)
    requires Reachable(s0) && 11 !in s0.calls
    requires s0.store.vault == Some(FIRST)
    requires TabOf(s0, 1).record == Some(FIRST) && TabOf(s0, 1).key == Some(KEY) && TabOf(s0, 1).secrets == Some(FIRST.box.plain)
    ensures Reachable(s)
    ensures s.store == s0.store.(vault := Some(BOTH)) && s.calls == s0.calls && s.log == s0.log + [ByMutation(ADD)]
    ensures TabOf(s, 1) == TabOf(s0, 1).(record := Some(BOTH), secrets := Some(BOTH.box.plain))
    ensures forall x :: x != 1 ==> TabOf(s, x) == TabOf(s0, x)
  {
    AddStarts(TabOf(s0, 1));
    var draft := BOTH.(rev := 0);
    s := Mutating(s0, 1, 11, ADD, 9, CommitSave(draft, 1, BOTH.box.plain, FIRST, ADD, FIRST.box.plain));
    s := Wins(s, 11, 1, draft, 1, BOTH.box.plain, FIRST, ADD, FIRST.box.plain);
    assert draft.(rev := 2) == BOTH;
    assert s.calls == s0.calls by {
      PutDrop(s0.calls, 11, (1, CommitSave(draft, 1, BOTH.box.plain, FIRST, ADD, FIRST.box.plain)));
    }
  }

  lemma PutDrop<K, V>(m: map<K, V>, k: K, v: V)
    requires k !in m
    ensures m[k := v] - {k} == m
  {
  }

  /** The mnemonic of wallet 2 is gone although the wallet is still listed. */
  ghost predicate LostSecond(s: Sys) {
    && s.store.vault.Some? && s.store.vault.value.box.Sealed?
    && HasWallet(s.store.vault.value.meta, 2)
    && SeedOf(s.store.vault.value.box.plain, 2) == None
  }

  /** While tab 0 is decrypting the vault it loaded, tab 1 adds a wallet and tab 0 refreshes.
      Tab 0 then holds the new record with the old secrets; its next write, an innocent
      `setBackedUp`, passes the revision check and wipes the mnemonic tab 1 just stored. */
  lemma UnlockAcrossRefreshLosesMnemonic() returns (s: Sys)
    ensures Reachable(s)
    ensures s.log == [ByCreate("pw", ASKED), ByMutation(ADD), ByMutation(SetBackedUp(1))]
    ensures LostSecond(s)
  {
    s := CreateFirst();
    var stale := FIRST.box.plain;
    var waiting := UnlockOpened("pw", Some((KEY, stale)));
    s := Load(s, 0, 20, ForUnlock("pw"), RND, Step(s.store, EMPTY_TAB.(record := Some(FIRST)), Some(waiting), Nothing));
    s := AddSecond(s);
    s := Load(s, 0, 12, ForRefresh, RND, Step(s.store, EMPTY_TAB.(record := Some(BOTH)), None, Nothing));
    s := Go(s, 20, RND, 0, waiting, Step(s.store, Tab(Some(BOTH), Some(KEY), Some(stale), None), None, Nothing));
    s := Overwrite(s);
  }

  lemma Overwrite(s0: Sys) returns (s: Sys)
    requires Reachable(s0) && 21 !in s0.calls && s0.store.vault == Some(BOTH)
    requires TabOf(s0, 0) == Tab(Some(BOTH), Some(KEY), Some(FIRST.box.plain), None)
    ensures Reachable(s) && s.log == s0.log + [ByMutation(SetBackedUp(1))]
    ensures LostSecond(s)
  {
    HasWalletIff(BOTH.meta, 1);
    assert BOTH.meta.wallets[0] in BOTH.meta.wallets;
    var out := Apply(SetBackedUp(1), BOTH.meta, FIRST.box.plain);
    assert out.Write? && out.secrets == FIRST.box.plain && out.meta.wallets[1].id == 2;
    var draft := Record(0, KDF, Sealed(KEY, 30, FIRST.box.plain), out.meta);
    var commit := CommitSave(draft, 2, FIRST.box.plain, BOTH, SetBackedUp(1), FIRST.box.plain);
    s := Mutating(s0, 0, 21, SetBackedUp(1), 30, commit);
    s := Wins(s, 21, 0, draft, 2, FIRST.box.plain, BOTH, SetBackedUp(1), FIRST.box.plain);
    HasWalletIff(out.meta, 2);
    assert out.meta.wallets[1] in out.meta.wallets;
    assert FIRST.box.plain.mnemonics[1..] == [];
  }

  // ---- migration against a vault that has moved on ----

  lemma LegacyLoads(t: Tab, rnd: Fresh)
    requires t == EMPTY_TAB
    ensures AfterLoad(LEGACY_STORED.store, t, LEGACY_STORED.store, ForUnlock("pw"), rnd)
            == Step(LEGACY_STORED.store, t.(primary := Some(LEGACY.record)), Some(LegacyOpened("pw", Some("x"))), Nothing)
  {
  }

  /** The draft a tab seals with randomness of its own. */
  ghost predicate DraftOf(draft: Record, rnd: Fresh) {
    forall store, t {:trigger AfterLegacyOpen(store, t, "pw", Some("x"), rnd)} ::
      draft.box.Sealed? && AfterLegacyOpen(store, t, "pw", Some("x"), rnd)
                           == Step(store, t, Some(MigrateSealed(draft, draft.box.key, draft.box.plain)), Nothing)
  }

  lemma BothDrafts()
    ensures DraftOf(FIRST.(rev := 0), RND) && DraftOf(LATE, LATE_RND)
  {
    Texts();
  }

  /** Tab `tab` holds the decrypted v1 mnemonic and has sealed its own v2 draft. */
  lemma MigrateUpToSeal(s0: Sys, tab: nat, call: nat, rnd: Fresh, draft: Record) returns (s: Sys)
    requires Reachable(s0) && call !in s0.calls && s0.store == LEGACY_STORED.store && TabOf(s0, tab) == EMPTY_TAB
    requires draft.box.Sealed? && DraftOf(draft, rnd)
    ensures Reachable(s) && s.store == s0.store && s.log == s0.log
    ensures s.calls == s0.calls[call := (tab, MigrateSealed(draft, draft.box.key, draft.box.plain))]
    ensures TabOf(s, tab) == EMPTY_TAB.(primary := Some(LEGACY.record))
    ensures forall x :: x != tab ==> TabOf(s, x) == TabOf(s0, x)
  {
    LegacyLoads(TabOf(s0, tab), rnd);
    s := Load(s0, tab, call, ForUnlock("pw"), rnd,
              AfterLoad(LEGACY_STORED.store, EMPTY_TAB, LEGACY_STORED.store, ForUnlock("pw"), rnd));
    s := Go(s, call, rnd, tab, LegacyOpened("pw", Some("x")), AfterLegacyOpen(s.store, TabOf(s, tab), "pw", Some("x"), rnd));
  }

  /** The sealed draft is saved over whatever revision the tab's record names now. */
  lemma SealToSave(s0: Sys, tab: nat, call: nat, draft: Record, key: Key, plain: Secrets) returns (s: Sys)
    requires Reachable(s0) && call in s0.calls
    requires s0.calls[call] == (tab, MigrateSealed(draft, key, plain))
    requires TabOf(s0, tab).record == s0.store.vault
    ensures Reachable(s)
    ensures var saved := draft.(rev := StoredRev(s0.store) + 1);
            && s.store == s0.store.(vault := Some(saved))
            && s.calls == s0.calls[call := (tab, MigrateSaved(saved, key, plain))]
    ensures s.log == s0.log + [ByMigration] && forall x :: TabOf(s, x) == TabOf(s0, x)
  {
    var base := StoredRev(s0.store);
    var saved := draft.(rev := base + 1);
    var save := MigrateSave(draft, base, key, plain, s0.store.vault);
    s := Go(s0, call, RND, tab, MigrateSealed(draft, key, plain), Step(s0.store, TabOf(s0, tab), Some(save), Nothing));
    s := Go(s, call, RND, tab, save,
            Step(s0.store.(vault := Some(saved)), TabOf(s0, tab), Some(MigrateSaved(saved, key, plain)), ByMigration));
    assert s.calls == s0.calls[call := (tab, MigrateSaved(saved, key, plain))];
  }

  lemma SaveToEnd(s0: Sys, tab: nat, call: nat, saved: Record, key: Key, plain: Secrets) returns (s: Sys)
    requires Reachable(s0) && call in s0.calls && Open(key, saved.box) == Some(plain)
    requires s0.calls[call] == (tab, MigrateSaved(saved, key, plain))
    ensures Reachable(s) && s.store == s0.store.(primary := None) && s.calls == s0.calls - {call} && s.log == s0.log
    ensures TabOf(s, tab) == Tab(Some(saved), Some(key), Some(plain), None)
    ensures forall x :: x != tab ==> TabOf(s, x) == TabOf(s0, x)
  {
    var t := TabOf(s0, tab);
    s := Go(s0, call, RND, tab, MigrateSaved(saved, key, plain), Step(s0.store, t, Some(MigrateDelete(saved, key, plain)), Nothing));
    s := DropLegacy(s, tab, call, saved, key, plain);
    assert s.calls == s0.calls - {call};
  }

  lemma DropLegacy(s0: Sys, tab: nat, call: nat, saved: Record, key: Key, plain: Secrets) returns (s: Sys)
    requires Reachable(s0) && call in s0.calls && s0.calls[call] == (tab, MigrateDelete(saved, key, plain))
    ensures Reachable(s) && s.store == s0.store.(primary := None) && s.calls == s0.calls - {call} && s.log == s0.log
    ensures TabOf(s, tab) == Tab(Some(saved), Some(key), Some(plain), None)
    ensures forall x :: x != tab ==> TabOf(s, x) == TabOf(s0, x)
  {
    var store := s0.store.(primary := None);
    s := GoTwice(s0, call, RND, tab, MigrateDelete(saved, key, plain),
                 Step(store, TabOf(s0, tab), Some(MigrateFinish(saved, key, plain)), Nothing),
                 Step(store, Tab(Some(saved), Some(key), Some(plain), None), None, Nothing));
  }

  /** Tab 1 has migrated; tab 0 is still holding its own sealed draft. */
  lemma MigratedBesideTabZero() returns (s: Sys)
    ensures Reachable(s) && s.log == [ByMigration]
    ensures s.store == Store(Some(FIRST), None)
    ensures s.calls == map[30 := (0, MigrateSealed(LATE, LATE.box.key, LATE.box.plain))]
    ensures TabOf(s, 1) == Tab(Some(FIRST), Some(KEY), Some(FIRST.box.plain), None)
    ensures TabOf(s, 0) == EMPTY_TAB.(primary := Some(LEGACY.record))
  {
    ReachStart(LEGACY_STORED);
    BothDrafts();
    s := MigrateUpToSeal(LEGACY_STORED, 0, 30, LATE_RND, LATE);
    s := MigrateUpToSeal(s, 1, 31, RND, FIRST.(rev := 0));
    s := SealToSave(s, 1, 31, FIRST.(rev := 0), KEY, FIRST.box.plain);
    assert FIRST.(rev := 1) == FIRST;
    s := SaveToEnd(s, 1, 31, FIRST, KEY, FIRST.box.plain);
    assert s.calls == map[30 := (0, MigrateSealed(LATE, LATE.box.key, LATE.box.plain))];
  }

  /** Two tabs migrate the same v1 record. Tab 1 finishes and adds a wallet; tab 0, still sealing
      its own copy, refreshes, so it reads the base revision of the vault that has moved on and
      replaces it. The v1 mnemonic is safe, the wallet tab 1 added is gone without a removal. */
  lemma LateMigrationDropsAddedWallet() returns (s: Sys)
    ensures Reachable(s)
    ensures s.log == [ByMigration, ByMutation(ADD), ByMigration]
    ensures M.Recoverable(LEGACY, s.store)
    ensures s.store.vault == Some(LATE.(rev := 3)) && !HasWallet(s.store.vault.value.meta, 2)
  {
    s := MigratedBesideTabZero();
    s := AddSecond(s);
    s := Load(s, 0, 32, ForRefresh, LATE_RND, Step(s.store, EMPTY_TAB.(record := Some(BOTH)), None, Nothing));
    s := SealToSave(s, 0, 30, LATE, LATE.box.key, LATE.box.plain);
    HasWalletIff(LATE.meta, 2);
    assert LATE.box.plain.mnemonics[0].mnemonic == "x";
  }

  // ---- revision numbers restart with a new record ----

  /** Revision 1 of a later life of the record: another password, another salt, another wallet. */
  const OTHER := Record(1, Kdf(600000, 99), Sealed(Key("pw2", Kdf(600000, 99)), 5, Secrets([Entry(5, "z")], map[])),
                        Meta(5, [Wallet(5, "b", 5, false, false, 0)]))

  lemma OtherDraft()
    ensures var t, none := EMPTY_TAB, Store(None, None);
            AfterLoad(none, t, none, ForCreate("pw2", "b", "z", false, None), OTHER_RND)
            == Step(none, t, Some(CreateSave(OTHER.(rev := 0), OTHER.box.key, OTHER.box.plain, OTHER_ASKED)), Nothing)
  {
    Texts();
  }

  lemma RemoveStarts(t: Tab)
    requires t.record == Some(FIRST) && t.key == Some(KEY) && t.secrets == Some(FIRST.box.plain)
    ensures StartMutation(t, Remove(1), 9) == Some(DeleteSave(1, FIRST, Remove(1)))
  {
    HasWalletIff(FIRST.meta, 1);
    assert FIRST.meta.wallets[0] in FIRST.meta.wallets;
    assert FIRST.meta.wallets[1..] == [];
    assert Without(FIRST.meta.wallets, WalletId, 1) == Without(FIRST.meta.wallets[1..], WalletId, 1) == [];
  }

  lemma WinsDelete(s: Sys, call: nat, tab: nat, baseRev: nat, base: Record, m: Mutation) returns (s': Sys)
    requires Reachable(s) && call in s.calls && StoredRev(s.store) == baseRev
    requires s.calls[call] == (tab, DeleteSave(baseRev, base, m))
    ensures Reachable(s')
    ensures s'.store == s.store.(vault := None) && TabOf(s', tab) == Locked(TabOf(s, tab).(record := None))
    ensures forall x :: x != tab ==> TabOf(s', x) == TabOf(s, x)
    ensures s'.calls == s.calls - {call} && s'.log == s.log
  {
    var t := TabOf(s, tab);
    var store := s.store.(vault := None);
    s' := GoTwice(s, call, RND, tab, DeleteSave(baseRev, base, m), Step(store, t, Some(Deleted), ByDelete(m)),
                  Step(store, Locked(t.(record := None)), None, Nothing));
  }

  /** Tab 1 removes the only wallet, and with it the vault. */
  lemma DeleteFirst(s0: Sys) returns (s: Sys)
    requires Reachable(s0) && 22 !in s0.calls && s0.store == Store(Some(FIRST), None)
    requires TabOf(s0, 1) == Tab(Some(FIRST), Some(KEY), Some(FIRST.box.plain), None)
    ensures Reachable(s)
    ensures s.store == Store(None, None) && s.calls == s0.calls && s.log == s0.log && TabOf(s, 1) == EMPTY_TAB
    ensures forall x :: x != 1 ==> TabOf(s, x) == TabOf(s0, x)
  {
    RemoveStarts(TabOf(s0, 1));
    s := Mutating(s0, 1, 22, Remove(1), 9, DeleteSave(1, FIRST, Remove(1)));
    s := WinsDelete(s, 22, 1, 1, FIRST, Remove(1));
    assert s.calls == s0.calls;
  }

  /** Tab 0 unlocks the vault tab 1 created, and starts to add a wallet. */
  lemma CommitInFlight() returns (s: Sys)
    ensures Reachable(s)
    ensures s.store == Store(Some(FIRST), None) && s.log == [ByCreate("pw", ASKED)]
    ensures s.calls == map[21 := (0, CommitSave(BOTH.(rev := 0), 1, BOTH.box.plain, FIRST, ADD, FIRST.box.plain))]
    ensures TabOf(s, 1) == Tab(Some(FIRST), Some(KEY), Some(FIRST.box.plain), None)
  {
    s := CreateFirst();
    var plain := FIRST.box.plain;
    var waiting := UnlockOpened("pw", Some((KEY, plain)));
    s := Load(s, 0, 20, ForUnlock("pw"), RND, Step(s.store, EMPTY_TAB.(record := Some(FIRST)), Some(waiting), Nothing));
    s := Go(s, 20, RND, 0, waiting, Step(s.store, Tab(Some(FIRST), Some(KEY), Some(plain), None), None, Nothing));
    AddStarts(TabOf(s, 0));
    s := Mutating(s, 0, 21, ADD, 9, CommitSave(BOTH.(rev := 0), 1, BOTH.box.plain, FIRST, ADD, FIRST.box.plain));
    assert s.calls == map[21 := (0, CommitSave(BOTH.(rev := 0), 1, BOTH.box.plain, FIRST, ADD, FIRST.box.plain))];
  }

  /** The revision check compares numbers only. While tab 0's commit is in flight, tab 1 deletes the vault
      and creates another; the commit then passes against revision 1 of the new life and replaces a vault
      it has never seen, which its password no longer opens. */
  lemma RevisionCheckIgnoresLives() returns (s: Sys)
    ensures Reachable(s)
    ensures s.log == [ByCreate("pw", ASKED), ByCreate("pw2", OTHER_ASKED), ByMutation(ADD)]
    ensures s.store.vault == Some(BOTH) && !HasWallet(BOTH.meta, 5)
    ensures OpenWithPassword("pw2", BOTH.kdf, BOTH.box) == None
  {
    s := CommitInFlight();
    s := DeleteFirst(s);
    OtherDraft();
    var create := CreateSave(OTHER.(rev := 0), OTHER.box.key, OTHER.box.plain, OTHER_ASKED);
    s := Load(s, 1, 23, ForCreate("pw2", "b", "z", false, None), OTHER_RND, Step(s.store, EMPTY_TAB, Some(create), Nothing));
    s := WinsCreate(s, 23, 1, OTHER.(rev := 0), OTHER.box.key, OTHER.box.plain, OTHER_ASKED);
    s := Wins(s, 21, 0, BOTH.(rev := 0), 1, BOTH.box.plain, FIRST, ADD, FIRST.box.plain);
    assert BOTH.(rev := 0).(rev := 2) == BOTH;
    HasWalletIff(BOTH.meta, 5);
  }
}
