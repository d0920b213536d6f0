/** The objects of keystore.js and vault.js: one store, and one manager per tab whose methods
    reassign `record`, `key`, `secrets` and `primary` in place. Every method is one
    await-delimited segment and is proved to do exactly what VaultProtocol's step does. */
module VaultManagers {
  import opened Common
  import opened SealedBox
  import opened VaultState
  import opened VaultProtocol

  /** The two IndexedDB records; each method body is one transaction. */
  class KeyStore {
    var vault: Option<Record>
    var primary: Option<LegacyRecord>

    ghost function Contents(): Store
      reads this
    {
      Store(vault, primary)
    }

    constructor ()
      ensures Contents() == Store(None, None)
    {
      vault, primary := None, None;
    }

    method LoadKeystoreAny() returns (found: Store)
      ensures found == Contents()
    {
      found := Store(vault, primary);
    }

    /** None is VaultConflictError: the stored revision moved and nothing is written. */
    method SaveRecord(draft: Record, baseRev: nat) returns (saved: Option<Record>)
      modifies this`vault
      ensures saved.Some? <==> StoredRev(old(Contents())) == baseRev
      ensures saved.Some? ==> saved.value == draft.(rev := baseRev + 1)
      ensures Contents() == if saved.Some? then old(Contents()).(vault := saved) else old(Contents())
    {
      var current := if vault.Some? then vault.value.rev else 0;
      if current != baseRev {
        return None;
      }
      saved := Some(draft.(rev := baseRev + 1));
      vault := saved;
    }

    method DeleteRecord(baseRev: nat) returns (deleted: bool)
      modifies this`vault
      ensures deleted <==> StoredRev(old(Contents())) == baseRev
      ensures Contents() == if deleted then old(Contents()).(vault := None) else old(Contents())
    {
      var current := if vault.Some? then vault.value.rev else 0;
      deleted := current == baseRev;
      if deleted {
        vault := None;
      }
    }

    method DeleteKeystore()
      modifies this`primary
      ensures Contents() == old(Contents()).(primary := None)
    {
      primary := None;
    }
  }

  class VaultManager {
    const storage: KeyStore
    var record: Option<Record>
    var key: Option<Key>
    var secrets: Option<Secrets>
    var primary: Option<LegacyRecord>

    ghost function State(): Tab
      reads this
    {
      Tab(record, key, secrets, primary)
    }

    constructor (storage: KeyStore)
      ensures this.storage == storage && State() == EMPTY_TAB
    {
      this.storage := storage;
      record, key, secrets, primary := None, None, None, None;
    }

    method Lock()
      modifies this`key, this`secrets
      ensures State() == Locked(old(State()))
    {
      key := None;
      secrets := None;
    }

    /** After loadKeystoreAny: the rest of refresh, unlock or createVault up to its next await. */
    method OnLoaded(found: Store, why: Purpose, rnd: Fresh) returns (next: Option<Task>)
      modifies this
      ensures var r := AfterLoad(old(storage.Contents()), old(State()), found, why, rnd);
              State() == r.tab && next == r.next && r.store == storage.Contents()
    {
      record := found.vault;
      primary := found.primary;
      next := None;
      match why
      case ForRefresh =>
        if key.Some? {
          if record.Some? {
            next := Some(RefreshOpened(Open(key.value, record.value.box)));
          } else {
            Lock();
          }
        }
      case ForUnlock(password) =>
        if record.Some? {
          next := Some(UnlockOpened(password, TryPassword(record.value, password)));
        } else if primary.Some? {
          next := Some(Migrating(primary.value, password));
        }
      case ForCreate(password, name, mnemonic, backedUp, source) =>
        if key == None && record == None && primary == None {
          var newKey := Derive(password, Kdf(rnd.iterations, rnd.salt));
          var id := NextWalletId({}, rnd.now);
          var newSecrets := FirstSecrets(id, mnemonic, source);
          var newMeta := FirstMeta(id, name, backedUp, source, rnd.now);
          next := Some(CreateSave(Record(0, newKey.kdf, Seal(newKey, rnd.iv, newSecrets), newMeta), newKey, newSecrets,
                                  Asked(name, mnemonic, backedUp, source)));
        }
    }

    /** refresh, after the held key was tried on the reloaded record. */
    method OnRefreshOpened(got: Option<Secrets>)
      modifies this`key, this`secrets
      ensures State() == if got == None then Locked(old(State())) else old(State()).(secrets := got)
    {
      secrets := got;
      if secrets == None {
        Lock();
      }
    }

    method OnUnlockOpened(password: string, unlocked: Option<(Key, Secrets)>) returns (next: Option<Task>)
      modifies this`key, this`secrets
      ensures var r := AfterUnlockOpen(old(storage.Contents()), old(State()), password, unlocked);
              State() == r.tab && next == r.next && r.store == storage.Contents()
    {
      next := None;
      if unlocked.Some? {
        key := Some(unlocked.value.0);
        secrets := Some(unlocked.value.1);
        if primary.Some? {
          next := Some(OrphanDelete);
        }
      } else if primary.Some? {
        next := Some(Migrating(primary.value, password));
      }
    }

    /** commit, after the encryption: the compare-and-set. */
    method OnSealed(draft: Record, baseRev: nat, newSecrets: Secrets) returns (next: Task)
      modifies storage
      ensures var saved := VaultProtocol.SaveVaultRecord(old(storage.Contents()), draft, baseRev);
              && storage.Contents() == (if saved.Some? then old(storage.Contents()).(vault := saved) else old(storage.Contents()))
              && next == (if saved.Some? then CommitSaved(saved.value, newSecrets) else LoadCall(ForRefresh))
    {
      var saved := storage.SaveRecord(draft, baseRev);
      next := if saved.Some? then CommitSaved(saved.value, newSecrets) else LoadCall(ForRefresh);
    }

    method OnCommitted(saved: Record, newSecrets: Secrets)
      modifies this`record, this`secrets
      ensures State() == old(State()).(record := Some(saved), secrets := Some(newSecrets))
    {
      record := Some(saved);
      secrets := Some(newSecrets);
    }

    /** removeWallet of the last wallet: the guarded deletion. */
    method OnDelete(baseRev: nat) returns (next: Task)
      modifies storage
      ensures storage.Contents() ==
              (if StoredRev(old(storage.Contents())) == baseRev then old(storage.Contents()).(vault := None)
               else old(storage.Contents()))
      ensures next == if StoredRev(old(storage.Contents())) == baseRev then Deleted else LoadCall(ForRefresh)
    {
      var deleted := storage.DeleteRecord(baseRev);
      next := if deleted then Deleted else LoadCall(ForRefresh);
    }

    method OnMigrateSealed(draft: Record, newKey: Key, newSecrets: Secrets) returns (next: Task)
      ensures next == MigrateSave(draft, if State().record.Some? then State().record.value.rev else 0, newKey, newSecrets, State().record)
    {
      next := MigrateSave(draft, if record.Some? then record.value.rev else 0, newKey, newSecrets, record);
    }

    method OnMigrateSave(draft: Record, baseRev: nat, newKey: Key, newSecrets: Secrets) returns (next: Option<Task>)
      modifies storage
      ensures var saved := VaultProtocol.SaveVaultRecord(old(storage.Contents()), draft, baseRev);
              && storage.Contents() == (if saved.Some? then old(storage.Contents()).(vault := saved) else old(storage.Contents()))
              && next == (if saved.Some? then Some(MigrateSaved(saved.value, newKey, newSecrets)) else None)
    {
      var saved := storage.SaveRecord(draft, baseRev);
      next := if saved.Some? then Some(MigrateSaved(saved.value, newKey, newSecrets)) else None;
    }

    method OnHeld(saved: Record, newKey: Key, newSecrets: Secrets, dropLegacy: bool)
      modifies this
      ensures State() == Tab(Some(saved), Some(newKey), Some(newSecrets), if dropLegacy then None else old(primary))
    {
      record := Some(saved);
      key := Some(newKey);
      secrets := Some(newSecrets);
      if dropLegacy {
        primary := None;
      }
    }

    /** Resume one suspended call: exactly one step of the interleaved system. */
    method Resume(task: Task, rnd: Fresh) returns (next: Option<Task>)
      modifies this, storage
      ensures var r := Continue(old(storage.Contents()), old(State()), task, rnd);
              storage.Contents() == r.store && State() == r.tab && next == r.next
    {
      next := None;
      match task
      case LoadCall(why) =>
        var found := storage.LoadKeystoreAny();
        next := Some(Loaded(found, why));
      case Loaded(found, why) => next := OnLoaded(found, why, rnd);
      case RefreshOpened(got) => OnRefreshOpened(got);
      case UnlockOpened(password, unlocked) => next := OnUnlockOpened(password, unlocked);
      case OrphanDelete =>
        storage.DeleteKeystore();
        next := Some(OrphanDeleted);
      case OrphanDeleted => primary := None;
      case LegacyOpened(password, mnemonic) =>
        if mnemonic.Some? {
          var newKey := Derive(password, Kdf(rnd.iterations, rnd.salt));
          var id := NextWalletId({}, rnd.now);
          var newSecrets := FirstSecrets(id, mnemonic.value, None);
          var newMeta := FirstMeta(id, "Wallet 1", false, None, rnd.now);
          next := Some(MigrateSealed(Record(0, newKey.kdf, Seal(newKey, rnd.iv, newSecrets), newMeta), newKey, newSecrets));
        }
      case MigrateSealed(draft, newKey, newSecrets) =>
        var t := OnMigrateSealed(draft, newKey, newSecrets);
        next := Some(t);
      case MigrateSave(draft, baseRev, newKey, newSecrets, _) => next := OnMigrateSave(draft, baseRev, newKey, newSecrets);
      case MigrateSaved(saved, newKey, newSecrets) =>
        if Open(newKey, saved.box).Some? {
          next := Some(MigrateDelete(saved, newKey, newSecrets));
        }
      case MigrateDelete(saved, newKey, newSecrets) =>
        storage.DeleteKeystore();
        next := Some(MigrateFinish(saved, newKey, newSecrets));
      case MigrateFinish(saved, newKey, newSecrets) => OnHeld(saved, newKey, newSecrets, true);
      case CommitSave(draft, baseRev, newSecrets, _, _, _) =>
        var t := OnSealed(draft, baseRev, newSecrets);
        next := Some(t);
      case CommitSaved(saved, newSecrets) => OnCommitted(saved, newSecrets);
      case DeleteSave(baseRev, _, _) =>
        var t := OnDelete(baseRev);
        next := Some(t);
      case Deleted =>
        record := None;
        Lock();
      case CreateSave(draft, newKey, newSecrets, _) =>
        var saved := storage.SaveRecord(draft, 0);
        if saved.Some? {
          next := Some(Created(saved.value, newKey, newSecrets));
        }
      case Created(saved, newKey, newSecrets) => OnHeld(saved, newKey, newSecrets, false);
    }

    /** The synchronous half of every mutation: read, compute, snapshot the base revision. */
    method Mutate(m: Mutation, iv: nat) returns (next: Option<Task>)
      ensures next == StartMutation(State(), m, iv)
    {
      next := None;
      if key.Some? && record.Some? && secrets.Some? {
        var held := record.value;
        match Apply(m, held.meta, secrets.value)
        case Write(nextMeta, nextSecrets) =>
          var baseRev, baseKdf := held.rev, held.kdf;
          next := Some(CommitSave(Record(0, baseKdf, Seal(key.value, iv, nextSecrets), nextMeta), baseRev, nextSecrets, held, m, secrets.value));
        case DeleteVault => next := Some(DeleteSave(held.rev, held, m));
        case Refused(_) =>
        case NoWrite =>
      }
    }
  }

  /** newWalletId's loop. */
  method NextWalletId(taken: set<Id>, now: nat) returns (n: Id)
    ensures n == NewWalletId(taken, now)
    ensures n !in taken && now <= n && forall k :: now <= k < n ==> k in taken
  {
    n := now;
    while n in taken
      invariant now <= n && NewWalletId(taken, n) == NewWalletId(taken, now)
      invariant forall k :: now <= k < n ==> k in taken
      decreases |From(taken, n)|
    {
      FromShrinks(taken, n);
      n := n + 1;
    }
  }
}
