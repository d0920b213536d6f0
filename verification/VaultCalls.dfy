/** What each call of the vault does when nothing comes between its segments: what is stored in the end, what the tab
    holds, and exactly when the call is refused. */
module VaultCalls {
  import opened Common
  import opened SealedBox
  import opened VaultState
  import opened VaultProtocol
  import M = VaultMigration

  /** The stored record, the v1 record and the tab after the call, which is over. */
  predicate Ends(s: Sys, call: nat, tab: nat, vault: Option<Record>, primary: Option<LegacyRecord>, t: Tab) {
    call !in s.calls && s.store == Store(vault, primary) && TabOf(s, tab) == t
  }

  /** The call ended with the next revision of t's record, holding what out says, stored and held by the tab. */
  predicate EndsWith(s: Sys, call: nat, tab: nat, t: Tab, iv: nat, out: Outcome, primary: Option<LegacyRecord>)
    requires t.record.Some? && t.key.Some? && out.Write?
  {
    var next := Record(t.record.value.rev + 1, t.record.value.kdf, Sealed(t.key.value, iv, out.secrets), out.meta);
    Ends(s, call, tab, Some(next), primary, Tab(Some(next), t.key, Some(out.secrets), t.primary))
  }

  /** A mutation of an unlocked tab in step with the store: a write stores the next revision, sealed under the tab's
      key with the record's own kdf block, and leaves the tab in step and unlocked. */
  lemma MutationStores(s: Sys, tab: nat, call: nat, m: Mutation, iv: nat, rnd: Fresh, t: Tab, out: Outcome, s1: Sys)
    requires call !in s.calls && t == TabOf(s, tab) && Coherent(t) && t.record == s.store.vault
    requires out == Apply(m, t.record.value.meta, t.secrets.value) && out.Write?
    requires s1 == Next(s, Mutate(tab, call, m, iv))
    ensures EndsWith(M.Drive(s1, call, rnd, 2), call, tab, t, iv, out, s.store.primary)
  {
    var task := CommitStarts(s, tab, call, m, iv, out, s1, t);
    StartedCommitRuns(s, s1, tab, call, task, rnd, t, iv, out);
  }

  lemma CommitStarts(s: Sys, tab: nat, call: nat, m: Mutation, iv: nat, out: Outcome, s1: Sys, t: Tab) returns (task: Task)
    requires call !in s.calls && t == TabOf(s, tab) && Coherent(t) && s1 == Next(s, Mutate(tab, call, m, iv))
    requires out == Apply(m, t.record.value.meta, t.secrets.value) && out.Write?
    ensures s1 == s.(calls := s.calls[call := (tab, task)]) && Carries(task, t, iv, out)
  {
    task := StartMutation(t, m, iv).value;
  }

  /** The task is the commit of what the mutation computed in t. */
  predicate Carries(task: Task, t: Tab, iv: nat, out: Outcome)
    requires t.record.Some? && t.key.Some? && out.Write?
  {
    && task.CommitSave? && task.baseRev == t.record.value.rev && task.secrets == out.secrets
    && task.draft == Record(0, t.record.value.kdf, Sealed(t.key.value, iv, out.secrets), out.meta)
  }

  lemma StartedCommitRuns(s: Sys, s1: Sys, tab: nat, call: nat, task: Task, rnd: Fresh, t: Tab, iv: nat, out: Outcome)
    requires s1 == s.(calls := s.calls[call := (tab, task)]) && t == TabOf(s, tab) && Coherent(t) && t.record == s.store.vault
    requires out.Write? && Carries(task, t, iv, out)
    ensures EndsWith(M.Drive(s1, call, rnd, 2), call, tab, t, iv, out, s.store.primary)
  {
    CommitRuns(s1, tab, call, task, rnd);
  }

  lemma CommitRuns(s: Sys, tab: nat, call: nat, task: Task, rnd: Fresh)
    requires call in s.calls && s.calls[call] == (tab, task) && task.CommitSave? && task.baseRev == StoredRev(s.store)
    ensures var saved := task.draft.(rev := task.baseRev + 1);
            Ends(M.Drive(s, call, rnd, 2), call, tab, Some(saved), s.store.primary,
                 TabOf(s, tab).(record := Some(saved), secrets := Some(task.secrets)))
  {
    var saved := task.draft.(rev := task.baseRev + 1);
    var s2 := M.OneSegment(s, tab, task, call, rnd, 2);
    var s3 := M.OneSegment(s2, tab, CommitSaved(saved, task.secrets), call, rnd, 1);
    M.DriveIdle(s3, call, rnd, 0);
  }

  /** Removing the only wallet deletes the record and locks the tab. */
  lemma LastRemovalDeletes(s: Sys, tab: nat, call: nat, id: Id, iv: nat, rnd: Fresh)
    requires call !in s.calls && Coherent(TabOf(s, tab)) && TabOf(s, tab).record == s.store.vault
    requires Apply(Remove(id), TabOf(s, tab).record.value.meta, TabOf(s, tab).secrets.value).DeleteVault?
    ensures Ends(M.Drive(Next(s, Mutate(tab, call, Remove(id), iv)), call, rnd, 2), call, tab, None, s.store.primary,
                 Tab(None, None, None, TabOf(s, tab).primary))
  {
    var r := TabOf(s, tab).record.value;
    var task := DeleteSave(r.rev, r, Remove(id));
    assert StartMutation(TabOf(s, tab), Remove(id), iv) == Some(task);
    DeletionRuns(s.(calls := s.calls[call := (tab, task)]), tab, call, task, rnd);
  }

  lemma DeletionRuns(s: Sys, tab: nat, call: nat, task: Task, rnd: Fresh)
    requires call in s.calls && s.calls[call] == (tab, task) && task.DeleteSave? && task.baseRev == StoredRev(s.store)
    ensures Ends(M.Drive(s, call, rnd, 2), call, tab, None, s.store.primary, Tab(None, None, None, TabOf(s, tab).primary))
  {
    var s2 := M.OneSegment(s, tab, task, call, rnd, 2);
    var s3 := M.OneSegment(s2, tab, Deleted, call, rnd, 1);
    M.DriveIdle(s3, call, rnd, 0);
  }

  /** createVault in a locked tab over an empty store: the one wallet asked for, under a key of the password and the
      fresh salt, stored as revision 1 and unlocked. */
  lemma CreateStores(s: Sys, tab: nat, call: nat, password: string, a: Asked, rnd: Fresh)
    requires call !in s.calls && TabOf(s, tab).key == None && s.store == Store(None, None)
    ensures var kdf := Kdf(rnd.iterations, rnd.salt);
            var secrets := Secrets([Entry(rnd.now, a.mnemonic)], if a.source.Some? then map[rnd.now := a.source.value] else map[]);
            var r := Record(1, kdf, Sealed(Key(password, kdf), rnd.iv, secrets),
                            Meta(rnd.now, [Wallet(rnd.now, Trim(a.name), rnd.now, a.backedUp, a.source.Some?, 0)]));
            Ends(M.Drive(Next(s, Begin(tab, call, ForCreate(password, a.name, a.mnemonic, a.backedUp, a.source))), call, rnd, 4),
                 call, tab, Some(r), None, Tab(Some(r), Some(Key(password, kdf)), Some(secrets), None))
  {
    var s1 := Next(s, Begin(tab, call, ForCreate(password, a.name, a.mnemonic, a.backedUp, a.source)));
    var s2 := M.OneSegment(s1, tab, s1.calls[call].1, call, rnd, 4);
    var s3 := M.OneSegment(s2, tab, s2.calls[call].1, call, rnd, 3);
    CreationRuns(s3, tab, call, s3.calls[call].1, rnd);
  }

  lemma CreationRuns(s: Sys, tab: nat, call: nat, task: Task, rnd: Fresh)
    requires call in s.calls && s.calls[call] == (tab, task) && task.CreateSave? && StoredRev(s.store) == 0
    ensures var saved := task.draft.(rev := 1);
            Ends(M.Drive(s, call, rnd, 2), call, tab, Some(saved), s.store.primary,
                 TabOf(s, tab).(record := Some(saved), key := Some(task.key), secrets := Some(task.secrets)))
  {
    var saved := task.draft.(rev := 1);
    var s4 := M.OneSegment(s, tab, task, call, rnd, 2);
    var s5 := M.OneSegment(s4, tab, Created(saved, task.key, task.secrets), call, rnd, 1);
    M.DriveIdle(s5, call, rnd, 0);
  }

  /** In an unlocked tab, or over any stored record, createVault changes nothing stored and no key. */
  lemma CreateRefuses(s: Sys, tab: nat, call: nat, password: string, a: Asked, rnd: Fresh)
    requires call !in s.calls && (TabOf(s, tab).key.Some? || s.store != Store(None, None))
    ensures var t := TabOf(s, tab);
            Ends(M.Drive(Next(s, Begin(tab, call, ForCreate(password, a.name, a.mnemonic, a.backedUp, a.source))), call, rnd, 2),
                 call, tab, s.store.vault, s.store.primary, t.(record := s.store.vault, primary := s.store.primary))
  {
    var s1 := Next(s, Begin(tab, call, ForCreate(password, a.name, a.mnemonic, a.backedUp, a.source)));
    var s2 := M.OneSegment(s1, tab, s1.calls[call].1, call, rnd, 2);
    var s3 := M.OneSegment(s2, tab, s2.calls[call].1, call, rnd, 1);
    M.DriveIdle(s3, call, rnd, 0);
  }

  /** unlock of a v2 vault with no v1 record beside it: exactly the right password gives the tab the key and the
      stored plaintext; a wrong one leaves its key and secrets as they were. */
  lemma UnlockOpens(s: Sys, tab: nat, call: nat, password: string, rnd: Fresh)
    requires call !in s.calls && s.store.vault.Some? && s.store.primary == None
    ensures var r, t := s.store.vault.value, TabOf(s, tab).(record := s.store.vault, primary := None);
            Ends(M.Drive(Next(s, Begin(tab, call, ForUnlock(password))), call, rnd, 3), call, tab, s.store.vault, None,
                 if r.box.Sealed? && r.box.key == Key(password, r.kdf)
                 then t.(key := Some(Key(password, r.kdf)), secrets := Some(r.box.plain)) else t)
  {
    var s1 := Next(s, Begin(tab, call, ForUnlock(password)));
    var s2 := M.OneSegment(s1, tab, s1.calls[call].1, call, rnd, 3);
    var s3 := M.OneSegment(s2, tab, s2.calls[call].1, call, rnd, 2);
    var s4 := M.OneSegment(s3, tab, s3.calls[call].1, call, rnd, 1);
    M.DriveIdle(s4, call, rnd, 0);
  }

  /** refresh: the tab holds the stored records. If it was unlocked it has the stored plaintext when its key opens
      the stored record, and is locked otherwise. */
  lemma RefreshFollows(s: Sys, tab: nat, call: nat, rnd: Fresh)
    requires call !in s.calls
    ensures var t, vault := TabOf(s, tab).(record := s.store.vault, primary := s.store.primary), s.store.vault;
            Ends(M.Drive(Next(s, Begin(tab, call, ForRefresh)), call, rnd, 3), call, tab, vault, s.store.primary,
                 if t.key == None then t
                 else if vault.Some? && vault.value.box.Sealed? && vault.value.box.key == t.key.value
                 then t.(secrets := Some(vault.value.box.plain))
                 else t.(key := None, secrets := None))
  {
    var s1 := Next(s, Begin(tab, call, ForRefresh));
    var s2 := M.OneSegment(s1, tab, s1.calls[call].1, call, rnd, 3);
    var s3 := M.OneSegment(s2, tab, s2.calls[call].1, call, rnd, 2);
    if call in s3.calls {
      var s4 := M.OneSegment(s3, tab, s3.calls[call].1, call, rnd, 1);
      M.DriveIdle(s4, call, rnd, 0);
    } else {
      M.DriveIdle(s3, call, rnd, 1);
    }
  }

  // ---- the v1 record ----

  /** The password opens the box under the kdf block beside it. */
  predicate Opens<P>(kdf: Kdf, box: Cipher<P>, password: string) {
    box.Sealed? && box.key == Key(password, kdf)
  }

  /** unlock of a good v2 vault that an interrupted migration left a v1 record beside: the vault is opened as ever and
      the v1 record goes. */
  lemma UnlockClearsOrphan(s: Sys, tab: nat, call: nat, password: string, rnd: Fresh, r: Record)
    requires call !in s.calls && s.store.vault == Some(r) && s.store.primary.Some? && Opens(r.kdf, r.box, password)
    ensures Ends(M.Drive(Next(s, Begin(tab, call, ForUnlock(password))), call, rnd, 5), call, tab, Some(r), None,
                 Tab(Some(r), Some(Key(password, r.kdf)), Some(r.box.plain), None))
  {
    var s1 := Next(s, Begin(tab, call, ForUnlock(password)));
    var s2 := M.OneSegment(s1, tab, s1.calls[call].1, call, rnd, 5);
    var s3 := M.OneSegment(s2, tab, s2.calls[call].1, call, rnd, 4);
    var s4 := M.OneSegment(s3, tab, s3.calls[call].1, call, rnd, 3);
    var s5 := M.OneSegment(s4, tab, OrphanDelete, call, rnd, 2);
    var s6 := M.OneSegment(s5, tab, OrphanDeleted, call, rnd, 1);
    M.DriveIdle(s6, call, rnd, 0);
  }

  /** The vault a migration makes: the one v1 mnemonic as "Wallet 1", not backed up, under a key of the same password
      and a fresh salt, over whatever revision was stored. */
  function Migrated(password: string, seed: string, rnd: Fresh, baseRev: nat): Record {
    var kdf := Kdf(rnd.iterations, rnd.salt);
    Record(baseRev + 1, kdf, Sealed(Key(password, kdf), rnd.iv, OnlySeed(seed, rnd)),
           Meta(rnd.now, [Wallet(rnd.now, "Wallet 1", rnd.now, false, false, 0)]))
  }

  function OnlySeed(seed: string, rnd: Fresh): Secrets {
    Secrets([Entry(rnd.now, seed)], map[])
  }

  /** The password opens the v1 record but no vault: the vault is the migrated one and the v1 record goes. */
  lemma UnlockMigrates(s: Sys, tab: nat, call: nat, password: string, rnd: Fresh, p: LegacyRecord)
    requires call !in s.calls && s.store.primary == Some(p) && Opens(p.kdf, p.box, password)
    requires s.store.vault.Some? ==> !Opens(s.store.vault.value.kdf, s.store.vault.value.box, password)
    ensures var r := Migrated(password, p.box.plain, rnd, if s.store.vault.Some? then s.store.vault.value.rev else 0);
            Ends(M.Drive(Next(s, Begin(tab, call, ForUnlock(password))), call, rnd, 9), call, tab, Some(r), None,
                 Tab(Some(r), Some(Key(password, r.kdf)), Some(OnlySeed(p.box.plain, rnd)), None))
  {
    var s1 := Next(s, Begin(tab, call, ForUnlock(password)));
    var s2 := M.OneSegment(s1, tab, s1.calls[call].1, call, rnd, 9);
    var s3 := M.OneSegment(s2, tab, s2.calls[call].1, call, rnd, 8);
    if s.store.vault == None {
      MigrationRuns(s3, tab, call, password, rnd, p.box.plain, 7);
    } else {
      var s4 := M.OneSegment(s3, tab, s3.calls[call].1, call, rnd, 7);
      MigrationRuns(s4, tab, call, password, rnd, p.box.plain, 6);
    }
  }

  lemma MigrationRuns(s: Sys, tab: nat, call: nat, password: string, rnd: Fresh, seed: string, n: nat)
    requires call in s.calls && s.calls[call] == (tab, LegacyOpened(password, Some(seed))) && n >= 6
    requires TabOf(s, tab).record == s.store.vault
    ensures var r := Migrated(password, seed, rnd, StoredRev(s.store));
            Ends(M.Drive(s, call, rnd, n), call, tab, Some(r), None,
                 Tab(Some(r), Some(Key(password, r.kdf)), Some(OnlySeed(seed, rnd)), None))
  {
    var r, secrets := Migrated(password, seed, rnd, StoredRev(s.store)), OnlySeed(seed, rnd);
    var key := Key(password, r.kdf);
    var s1 := M.OneSegment(s, tab, LegacyOpened(password, Some(seed)), call, rnd, n);
    MigrationFollows(s1, tab, call, rnd, r, key, secrets, n - 1);
  }

  lemma MigrationFollows(s: Sys, tab: nat, call: nat, rnd: Fresh, r: Record, key: Key, secrets: Secrets, n: nat)
    requires call in s.calls && n >= 5 && r.rev == StoredRev(s.store) + 1 && Open(key, r.box) == Some(secrets)
    requires s.calls[call] == (tab, MigrateSealed(r.(rev := 0), key, secrets)) && TabOf(s, tab).record == s.store.vault
    ensures Ends(M.Drive(s, call, rnd, n), call, tab, Some(r), None, Tab(Some(r), Some(key), Some(secrets), None))
  {
    var s1 := M.OneSegment(s, tab, MigrateSealed(r.(rev := 0), key, secrets), call, rnd, n);
    MigrationSaves(s1, tab, call, rnd, r, key, secrets, n - 1);
  }

  lemma MigrationSaves(s: Sys, tab: nat, call: nat, rnd: Fresh, r: Record, key: Key, secrets: Secrets, n: nat)
    requires call in s.calls && n >= 4 && r.rev == StoredRev(s.store) + 1 && Open(key, r.box) == Some(secrets)
    requires s.calls[call] == (tab, MigrateSave(r.(rev := 0), StoredRev(s.store), key, secrets, TabOf(s, tab).record))
    ensures Ends(M.Drive(s, call, rnd, n), call, tab, Some(r), None, Tab(Some(r), Some(key), Some(secrets), None))
  {
    var s1 := M.OneSegment(s, tab, s.calls[call].1, call, rnd, n);
    assert r.(rev := 0).(rev := StoredRev(s.store) + 1) == r;
    MigrationVerifies(s1, tab, call, rnd, r, key, secrets, n - 1);
  }

  lemma MigrationVerifies(s: Sys, tab: nat, call: nat, rnd: Fresh, r: Record, key: Key, secrets: Secrets, n: nat)
    requires call in s.calls && s.calls[call] == (tab, MigrateSaved(r, key, secrets)) && n >= 3
    requires s.store.vault == Some(r) && Open(key, r.box) == Some(secrets)
    ensures Ends(M.Drive(s, call, rnd, n), call, tab, Some(r), None, Tab(Some(r), Some(key), Some(secrets), None))
  {
    var s1 := M.OneSegment(s, tab, MigrateSaved(r, key, secrets), call, rnd, n);
    MigrationDrops(s1, tab, call, rnd, r, key, secrets, n - 1);
  }

  lemma MigrationDrops(s: Sys, tab: nat, call: nat, rnd: Fresh, r: Record, key: Key, secrets: Secrets, n: nat)
    requires call in s.calls && s.calls[call] == (tab, MigrateDelete(r, key, secrets)) && n >= 2
    requires s.store.vault == Some(r)
    ensures Ends(M.Drive(s, call, rnd, n), call, tab, Some(r), None, Tab(Some(r), Some(key), Some(secrets), None))
  {
    var s1 := M.OneSegment(s, tab, MigrateDelete(r, key, secrets), call, rnd, n);
    var s2 := M.OneSegment(s1, tab, MigrateFinish(r, key, secrets), call, rnd, n - 1);
    M.DriveIdle(s2, call, rnd, n - 2);
  }

  /** A saved record that its key does not open ends the migration with the v1 record where it was. */
  lemma UnverifiedKeepsV1(s: Sys, tab: nat, call: nat, rnd: Fresh, saved: Record, key: Key, secrets: Secrets)
    requires call in s.calls && s.calls[call] == (tab, MigrateSaved(saved, key, secrets))
    requires !(saved.box.Sealed? && saved.box.key == key)
    ensures Ends(M.Drive(s, call, rnd, 1), call, tab, s.store.vault, s.store.primary, TabOf(s, tab))
  {
    var s1 := M.OneSegment(s, tab, MigrateSaved(saved, key, secrets), call, rnd, 1);
    M.DriveIdle(s1, call, rnd, 0);
  }

  /** Where the password opens neither record, unlock changes nothing stored, no key and no secrets. */
  lemma UnlockRefuses(s: Sys, tab: nat, call: nat, password: string, rnd: Fresh)
    requires call !in s.calls
    requires s.store.vault.Some? ==> !Opens(s.store.vault.value.kdf, s.store.vault.value.box, password)
    requires s.store.primary.Some? ==> !Opens(s.store.primary.value.kdf, s.store.primary.value.box, password)
    ensures Ends(M.Drive(Next(s, Begin(tab, call, ForUnlock(password))), call, rnd, 4), call, tab, s.store.vault, s.store.primary,
                 TabOf(s, tab).(record := s.store.vault, primary := s.store.primary))
  {
    var s1 := Next(s, Begin(tab, call, ForUnlock(password)));
    var s2 := M.OneSegment(s1, tab, s1.calls[call].1, call, rnd, 4);
    var s3 := M.OneSegment(s2, tab, s2.calls[call].1, call, rnd, 3);
    if call !in s3.calls {
      M.DriveIdle(s3, call, rnd, 2);
    } else if s.store.vault == None {
      WrongV1(s3, tab, call, password, rnd, 2);
    } else {
      WrongV2(s3, tab, call, password, rnd);
    }
  }

  lemma WrongV1(s: Sys, tab: nat, call: nat, password: string, rnd: Fresh, n: nat)
    requires call in s.calls && s.calls[call] == (tab, LegacyOpened(password, None)) && n >= 1
    ensures Ends(M.Drive(s, call, rnd, n), call, tab, s.store.vault, s.store.primary, TabOf(s, tab))
  {
    var s1 := M.OneSegment(s, tab, LegacyOpened(password, None), call, rnd, n);
    M.DriveIdle(s1, call, rnd, n - 1);
  }

  lemma WrongV2(s: Sys, tab: nat, call: nat, password: string, rnd: Fresh)
    requires call in s.calls && s.calls[call] == (tab, UnlockOpened(password, None))
    requires var p := TabOf(s, tab).primary; p.Some? ==> !Opens(p.value.kdf, p.value.box, password)
    ensures Ends(M.Drive(s, call, rnd, 2), call, tab, s.store.vault, s.store.primary, TabOf(s, tab))
  {
    var s1 := M.OneSegment(s, tab, UnlockOpened(password, None), call, rnd, 2);
    if call !in s1.calls {
      M.DriveIdle(s1, call, rnd, 1);
    } else {
      WrongV1(s1, tab, call, password, rnd, 1);
    }
  }
}
