/** What each mutation writes, field by field, and exactly when it writes at all. */
module VaultEffects {
  import opened Common
  import opened VaultState
  import opened VaultMutations

  ghost predicate Known(meta: Meta, id: Id) {
    exists w :: w in meta.wallets && w.id == id
  }

  /** Another wallet has this name, up to case and outer blanks. */
  ghost predicate Taken(meta: Meta, name: string, id: Id) {
    exists w :: w in meta.wallets && w.id != id && ToLower(Trim(w.name)) == ToLower(Trim(name))
  }

  /** after is before but for the rows of id, which have become row of what they were. */
  ghost predicate OnlyRow(before: Meta, after: Meta, id: Id, row: Wallet -> Wallet) {
    && after.activeId == before.activeId && |after.wallets| == |before.wallets|
    && forall i :: 0 <= i < |before.wallets| ==>
         after.wallets[i] == if before.wallets[i].id == id then row(before.wallets[i]) else before.wallets[i]
  }

  /** renameWallet refuses an unknown wallet, an empty name and a taken one; else that wallet, and nothing else,
      gets the trimmed name. */
  lemma RenameIsExact(meta: Meta, secrets: Secrets, id: Id, name: string)
    ensures var out := Apply(Rename(id, name), meta, secrets);
            && (out.Refused? <==> !Known(meta, id) || Trim(name) == "" || Taken(meta, Trim(name), id))
            && (!out.Refused? ==>
                  && out.Write? && out.secrets == secrets
                  && OnlyRow(meta, out.meta, id, (w: Wallet) => w.(name := Trim(name))))
  {
    HasWalletIff(meta, id);
    if !Taken(meta, Trim(name), id) {
      assert NameFree(meta, Trim(name), Some(id));
    }
  }

  /** setActive refuses an unknown wallet, writes nothing for the active one, and else makes it active. */
  lemma SetActiveIsExact(meta: Meta, secrets: Secrets, id: Id)
    ensures var out := Apply(SetActive(id), meta, secrets);
            && (out.Refused? <==> !Known(meta, id))
            && (out.NoWrite? <==> Known(meta, id) && meta.activeId == id)
            && (out.Write? <==> Known(meta, id) && meta.activeId != id)
            && (out.Write? ==> out.meta.activeId == id && out.meta.wallets == meta.wallets && out.secrets == secrets)
  {
    HasWalletIff(meta, id);
  }

  /** setBackedUp refuses an unknown wallet, and else marks that wallet, and nothing else. */
  lemma SetBackedUpIsExact(meta: Meta, secrets: Secrets, id: Id)
    ensures var out := Apply(SetBackedUp(id), meta, secrets);
            && (out.Refused? <==> !Known(meta, id))
            && (Known(meta, id) ==>
                  && out.Write? && out.secrets == secrets
                  && OnlyRow(meta, out.meta, id, (w: Wallet) => w.(backedUp := true)))
  {
    HasWalletIff(meta, id);
  }

  /** setReceiveIndex refuses an unknown wallet; it writes exactly an index that is a safe integer and beyond the
      one stored, and then that wallet, and nothing else, has it. */
  lemma SetReceiveIndexIsExact(meta: Meta, secrets: Secrets, id: Id, index: int, w: Wallet)
    requires DistinctBy(meta.wallets, WalletId) && w in meta.wallets && w.id == id
    ensures var out := Apply(SetReceiveIndex(id, index), meta, secrets);
            && (out.Write? <==> w.receiveIndex < index <= 9_007_199_254_740_991)
            && (out.NoWrite? <==> !(w.receiveIndex < index <= 9_007_199_254_740_991))
            && (out.Write? ==>
                  && out.secrets == secrets
                  && OnlyRow(meta, out.meta, id, (v: Wallet) => v.(receiveIndex := index)))
  {
    HasWalletIff(meta, id);
    var i :| 0 <= i < |meta.wallets| && meta.wallets[i] == w;
    DistinctSame(meta.wallets, WalletId, i, WalletIndex(meta, id));
  }

  lemma SetReceiveIndexRefuses(meta: Meta, secrets: Secrets, id: Id, index: int)
    ensures Apply(SetReceiveIndex(id, index), meta, secrets).Refused? <==> !Known(meta, id)
  {
    HasWalletIff(meta, id);
  }

  /** removeWallet cuts the wallet's row, mnemonic and source out; the only wallet takes the vault with it; an
      active one hands over to the next in order, or to the one before it if it was the last. */
  lemma RemoveIsExact(meta: Meta, secrets: Secrets, id: Id, k: nat)
    requires WellFormed(meta, secrets) && k < |meta.wallets| && meta.wallets[k].id == id
    ensures var out, ws := Apply(Remove(id), meta, secrets), meta.wallets;
            && (out.DeleteVault? <==> |ws| == 1) && (out.Write? <==> |ws| > 1)
            && (out.Write? ==>
                  && out.meta.wallets == ws[..k] + ws[k + 1..]
                  && out.secrets.mnemonics == secrets.mnemonics[..k] + secrets.mnemonics[k + 1..]
                  && out.secrets.sources == secrets.sources - {id}
                  && out.meta.activeId == (if meta.activeId != id then meta.activeId
                                           else if k + 1 < |ws| then ws[k + 1].id else ws[k - 1].id))
  {
    HasWalletIff(meta, id);
    assert meta.wallets[k] in meta.wallets;
    DistinctSame(meta.wallets, WalletId, k, WalletIndex(meta, id));
    WithoutSlice(meta.wallets, WalletId, id, k);
    if Apply(Remove(id), meta, secrets).Write? {
      RemoveCuts(meta, secrets, id);
    }
  }

  lemma RemoveRefuses(meta: Meta, secrets: Secrets, id: Id)
    ensures Apply(Remove(id), meta, secrets).Refused? <==> !Known(meta, id)
  {
    HasWalletIff(meta, id);
  }

  /** A seed that is in the vault: without a source, or with one recorded already, nothing is written; else its
      wallet, and nothing else, is marked derived and given the source. */
  lemma AddKnownSeedIsExact(meta: Meta, secrets: Secrets, m: Mutation, e: Entry)
    requires m.Add? && WellFormed(meta, secrets)
    requires e in secrets.mnemonics && NormMnemonic(e.mnemonic) == NormMnemonic(m.mnemonic)
    ensures var out := Apply(m, meta, secrets);
            && (out.Write? <==> m.source.Some? && e.id !in secrets.sources) && (out.NoWrite? <==> !out.Write?)
            && (out.Write? ==>
                  && out.secrets == Secrets(secrets.mnemonics, secrets.sources[e.id := m.source.value])
                  && OnlyRow(meta, out.meta, e.id, (w: Wallet) => w.(derived := true)))
  {
    var d := DupIndex(secrets.mnemonics, m.mnemonic);
    var i :| 0 <= i < |secrets.mnemonics| && secrets.mnemonics[i] == e;
    DistinctSame(secrets.mnemonics, SeedKey, d, i);
  }

  /** A new seed: refused exactly under a taken name; else one wallet and one mnemonic are appended under the least
      free number from the clock on, with the source if there is one. */
  lemma AddNewSeedIsExact(meta: Meta, secrets: Secrets, m: Mutation)
    requires m.Add?
    requires forall e :: e in secrets.mnemonics ==> NormMnemonic(e.mnemonic) != NormMnemonic(m.mnemonic)
    ensures var out := Apply(m, meta, secrets);
            && (out.Refused? <==> exists w :: w in meta.wallets && ToLower(Trim(w.name)) == ToLower(Trim(m.name)))
            && (!out.Refused? ==>
                  && out.Write? && |out.meta.wallets| == |meta.wallets| + 1
                  && var id := out.meta.wallets[|meta.wallets|].id;
                  && m.now <= id && !Known(meta, id) && (forall k: nat :: m.now <= k < id ==> Known(meta, k))
                  && out.meta == Meta(meta.activeId,
                                      meta.wallets + [Wallet(id, Trim(m.name), m.now, m.backedUp, m.source.Some?, 0)])
                  && out.secrets.mnemonics == secrets.mnemonics + [Entry(id, m.mnemonic)]
                  && out.secrets.sources == if m.source.Some? then secrets.sources[id := m.source.value] else secrets.sources)
  {
    assert DupIndex(secrets.mnemonics, m.mnemonic) == |secrets.mnemonics|;
    if forall w :: w in meta.wallets ==> ToLower(Trim(w.name)) != ToLower(Trim(m.name)) {
      assert NameFree(meta, m.name, None);
      NewIdIsLeast(meta, m.now);
    }
  }

  lemma NewIdIsLeast(meta: Meta, now: nat)
    ensures var id := NewWalletId(WalletIds(meta.wallets), now);
            now <= id && !Known(meta, id) && forall k: nat :: now <= k < id ==> Known(meta, k)
  {
    var id := NewWalletId(WalletIds(meta.wallets), now);
    LeastFree(WalletIds(meta.wallets), now);
    forall k: nat | now <= k < id ensures Known(meta, k) {
      assert k in WalletIds(meta.wallets);
    }
  }

  lemma {:induction false} LeastFree(taken: set<Id>, n: nat)
    ensures var id := NewWalletId(taken, n);
            n <= id && id !in taken && forall k: nat :: n <= k < id ==> k in taken
    decreases |From(taken, n)|
  {
    if n in taken {
      FromShrinks(taken, n);
      LeastFree(taken, n + 1);
    }
  }
}
