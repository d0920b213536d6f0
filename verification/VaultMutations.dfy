/** What one mutation keeps and what it leaves alone, for every meta and every secrets. */
module VaultMutations {
  import opened Common
  import opened VaultState

  // ---- distinct keys under append, cut and in-place update ----

  lemma DistinctAppend<T, K>(xs: seq<T>, key: T -> K, x: T)
    requires DistinctBy(xs, key)
    requires forall i :: 0 <= i < |xs| ==> key(xs[i]) != key(x)
    ensures DistinctBy(xs + [x], key)
  {
  }

  lemma DistinctCut<T, K>(xs: seq<T>, key: T -> K, k: nat)
    requires DistinctBy(xs, key) && k < |xs|
    ensures DistinctBy(xs[..k] + xs[k + 1..], key)
  {
    var ys := xs[..k] + xs[k + 1..];
    assert forall j :: 0 <= j < |ys| ==> ys[j] == xs[if j < k then j else j + 1];
  }

  lemma DistinctUpdate<T, K>(xs: seq<T>, ys: seq<T>, key: T -> K)
    requires DistinctBy(xs, key) && |xs| == |ys|
    requires forall i :: 0 <= i < |xs| ==> key(xs[i]) == key(ys[i])
    ensures DistinctBy(ys, key)
  {
  }

  lemma DistinctSame<T, K>(xs: seq<T>, key: T -> K, i: nat, j: nat)
    requires DistinctBy(xs, key) && i < |xs| && j < |xs| && key(xs[i]) == key(xs[j])
    ensures i == j
  {
  }

  lemma DistinctOther<T, K>(xs: seq<T>, key: T -> K, i: nat, j: nat)
    requires DistinctBy(xs, key) && i < |xs| && j < |xs| && i != j
    ensures key(xs[i]) != key(xs[j])
  {
  }

  // ---- the invariant is kept ----

  lemma ActiveKept(meta: Meta, ws': seq<Wallet>, i: nat)
    requires i < |ws'| && ws'[i].id == meta.activeId
    ensures HasWallet(meta.(wallets := ws'), meta.activeId)
  {
    HasWalletIff(meta.(wallets := ws'), meta.activeId);
    assert ws'[i] in ws';
  }

  lemma AppendKeepsWellFormed(meta: Meta, secrets: Secrets, row: Wallet, e: Entry, sources': map<Id, Source>)
    requires WellFormed(meta, secrets)
    requires row.id == e.id && row.id !in WalletIds(meta.wallets)
    requires forall i :: 0 <= i < |meta.wallets| ==> NameKey(meta.wallets[i]) != NameKey(row)
    requires forall i :: 0 <= i < |secrets.mnemonics| ==> SeedKey(secrets.mnemonics[i]) != SeedKey(e)
    requires sources' - {row.id} == secrets.sources - {row.id} && (row.derived <==> row.id in sources')
    ensures WellFormed(meta.(wallets := meta.wallets + [row]), Secrets(secrets.mnemonics + [e], sources'))
  {
    var ws := meta.wallets;
    forall i | 0 <= i < |ws| ensures WalletId(ws[i]) != WalletId(row) {
      assert ws[i].id in WalletIds(ws);
    }
    DistinctAppend(ws, WalletId, row);
    DistinctAppend(ws, NameKey, row);
    DistinctAppend(secrets.mnemonics, SeedKey, e);
    ActiveKept(meta, ws + [row], WalletIndex(meta, meta.activeId));
    AppendKeepsSources(ws, secrets.sources, row, sources');
  }

  lemma AppendKeepsSources(ws: seq<Wallet>, sources: map<Id, Source>, row: Wallet, sources': map<Id, Source>)
    requires DerivedMatchesSources(ws, sources) && row.id !in WalletIds(ws)
    requires sources' - {row.id} == sources - {row.id} && (row.derived <==> row.id in sources')
    ensures DerivedMatchesSources(ws + [row], sources')
  {
    var ws' := ws + [row];
    forall i | 0 <= i < |ws| ensures ws[i].derived <==> ws[i].id in sources' {
      assert ws[i].id in WalletIds(ws);
      assert ws[i].id in sources' <==> ws[i].id in sources' - {row.id};
    }
    forall id | id in sources' ensures exists i :: 0 <= i < |ws'| && ws'[i].id == id {
      if id == row.id {
        assert ws'[|ws|].id == id;
      } else {
        assert id in sources' - {row.id};
        var i :| 0 <= i < |ws| && ws[i].id == id;
        assert ws'[i].id == id;
      }
    }
  }

  lemma UpgradeKeepsWellFormed(meta: Meta, secrets: Secrets, d: nat, ws': seq<Wallet>, source: Source)
    requires WellFormed(meta, secrets) && d < |meta.wallets| && |ws'| == |meta.wallets|
    requires forall i :: 0 <= i < |ws'| ==>
      ws'[i] == if meta.wallets[i].id == meta.wallets[d].id then meta.wallets[i].(derived := true) else meta.wallets[i]
    ensures WellFormed(meta.(wallets := ws'), secrets.(sources := secrets.sources[meta.wallets[d].id := source]))
  {
    var ws := meta.wallets;
    DistinctUpdate(ws, ws', WalletId);
    DistinctUpdate(ws, ws', NameKey);
    ActiveKept(meta, ws', WalletIndex(meta, meta.activeId));
    UpgradeKeepsSources(ws, secrets.sources, d, ws', source);
  }

  lemma UpgradeKeepsSources(ws: seq<Wallet>, sources: map<Id, Source>, d: nat, ws': seq<Wallet>, source: Source)
    requires DerivedMatchesSources(ws, sources) && d < |ws| && |ws'| == |ws|
    requires forall i :: 0 <= i < |ws'| ==>
      ws'[i] == if ws[i].id == ws[d].id then ws[i].(derived := true) else ws[i]
    ensures DerivedMatchesSources(ws', sources[ws[d].id := source])
  {
    var sources' := sources[ws[d].id := source];
    forall id | id in sources' ensures exists i :: 0 <= i < |ws'| && ws'[i].id == id {
      if id == ws[d].id {
        assert ws'[d].id == id;
      } else {
        var i :| 0 <= i < |ws| && ws[i].id == id;
        assert ws'[i].id == id;
      }
    }
  }

  lemma AddKeepsWellFormed(meta: Meta, secrets: Secrets, m: Mutation)
    requires m.Add? && WellFormed(meta, secrets) && Apply(m, meta, secrets).Write?
    ensures WellFormed(Apply(m, meta, secrets).meta, Apply(m, meta, secrets).secrets)
  {
    var out := Apply(m, meta, secrets);
    var d := DupIndex(secrets.mnemonics, m.mnemonic);
    if d < |secrets.mnemonics| {
      assert meta.wallets[d].id == secrets.mnemonics[d].id;
      UpgradeKeepsWellFormed(meta, secrets, d, out.meta.wallets, m.source.value);
    } else {
      var id := NewWalletId(WalletIds(meta.wallets), m.now);
      var row := NewRow(id, m.name, m.backedUp, m.source, m.now);
      NormTrimmed(m.name);
      SourcesOnlyForWallets(meta.wallets, secrets.sources, id);
      AppendKeepsWellFormed(meta, secrets, row, Entry(id, m.mnemonic), out.secrets.sources);
    }
  }

  lemma SourcesOnlyForWallets(ws: seq<Wallet>, sources: map<Id, Source>, id: Id)
    requires DerivedMatchesSources(ws, sources) && id !in WalletIds(ws)
    ensures id !in sources
  {
    assert forall i :: 0 <= i < |ws| ==> ws[i] in ws && ws[i].id in WalletIds(ws);
  }

  /** Trimming twice changes nothing, so the stored name normalises like the typed one. */
  lemma NormTrimmed(s: string)
    ensures NormName(Trim(s)) == NormName(s)
  {
    var t := TrimStart(s);
    TrimStartDone(s);
    TrimEndDone(t);
    TrimEndKeepsStart(t);
    assert TrimStart(Trim(s)) == Trim(s);
    assert TrimEnd(Trim(s)) == Trim(s);
  }

  lemma TrimStartDone(s: string)
    ensures TrimStart(s) == "" || !IsSpace(TrimStart(s)[0])
  {
  }

  lemma TrimEndDone(s: string)
    ensures TrimEnd(s) == "" || !IsSpace(TrimEnd(s)[|TrimEnd(s)| - 1])
  {
  }

  lemma TrimEndKeepsStart(s: string)
    ensures TrimEnd(s) == "" || TrimEnd(s)[0] == s[0]
  {
  }

  lemma UpdateKeepsWellFormed(meta: Meta, secrets: Secrets, ws': seq<Wallet>)
    requires WellFormed(meta, secrets)
    requires |ws'| == |meta.wallets|
    requires forall i :: 0 <= i < |ws'| ==> ws'[i].id == meta.wallets[i].id && ws'[i].derived == meta.wallets[i].derived
    requires DistinctBy(ws', NameKey)
    ensures WellFormed(meta.(wallets := ws'), secrets)
  {
    DistinctUpdate(meta.wallets, ws', WalletId);
    ActiveKept(meta, ws', WalletIndex(meta, meta.activeId));
    forall id | id in secrets.sources ensures exists k :: 0 <= k < |ws'| && ws'[k].id == id {
      var k :| 0 <= k < |meta.wallets| && meta.wallets[k].id == id;
      assert ws'[k].id == id;
    }
  }

  lemma CutKeepsWellFormed(meta: Meta, secrets: Secrets, k: nat, active: Id, i: nat)
    requires WellFormed(meta, secrets) && k < |meta.wallets|
    requires i < |meta.wallets| && i != k && meta.wallets[i].id == active
    ensures WellFormed(Meta(active, meta.wallets[..k] + meta.wallets[k + 1..]),
                       Secrets(secrets.mnemonics[..k] + secrets.mnemonics[k + 1..], secrets.sources - {meta.wallets[k].id}))
  {
    var ws, es := meta.wallets, secrets.mnemonics;
    DistinctCut(ws, WalletId, k);
    DistinctCut(ws, NameKey, k);
    DistinctCut(es, SeedKey, k);
    CutKeepsAligned(ws, es, k);
    ActiveKept(Meta(active, ws), ws[..k] + ws[k + 1..], if i < k then i else i - 1);
    CutKeepsSources(ws, secrets.sources, k);
  }

  lemma CutKeepsAligned(ws: seq<Wallet>, es: seq<Entry>, k: nat)
    requires Aligned(ws, es) && k < |ws|
    ensures Aligned(ws[..k] + ws[k + 1..], es[..k] + es[k + 1..])
  {
  }

  lemma CutKeepsSources(ws: seq<Wallet>, sources: map<Id, Source>, k: nat)
    requires DistinctBy(ws, WalletId) && DerivedMatchesSources(ws, sources) && k < |ws|
    ensures DerivedMatchesSources(ws[..k] + ws[k + 1..], sources - {ws[k].id})
  {
    var ws' := ws[..k] + ws[k + 1..];
    forall j | 0 <= j < |ws'| ensures ws'[j].derived <==> ws'[j].id in sources - {ws[k].id} {
      var j' := if j < k then j else j + 1;
      CutAt(ws, k, j');
      DistinctOther(ws, WalletId, j', k);
    }
    forall id | id in sources - {ws[k].id} ensures exists j :: 0 <= j < |ws'| && ws'[j].id == id {
      var j :| 0 <= j < |ws| && ws[j].id == id;
      CutAt(ws, k, j);
    }
  }

  lemma CutAt<T>(xs: seq<T>, k: nat, i: nat)
    requires k < |xs| && i < |xs| && i != k
    ensures (xs[..k] + xs[k + 1..])[if i < k then i else i - 1] == xs[i]
  {
  }

  /** Removing wallet k cuts position k out of both lists. */
  lemma RemoveCuts(meta: Meta, secrets: Secrets, id: Id)
    requires WellFormed(meta, secrets) && ApplyRemove(meta, secrets, id).Write?
    ensures var out, k := ApplyRemove(meta, secrets, id), WalletIndex(meta, id);
            && k < |meta.wallets| && |meta.wallets| > 1
            && out.meta.wallets == meta.wallets[..k] + meta.wallets[k + 1..]
            && out.secrets.mnemonics == secrets.mnemonics[..k] + secrets.mnemonics[k + 1..]
            && out.secrets.sources == secrets.sources - {id}
  {
    var k := WalletIndex(meta, id);
    WithoutSlice(meta.wallets, WalletId, id, k);
    WithoutSlice(secrets.mnemonics, EntryId, id, k);
  }

  lemma RemoveKeepsWellFormed(meta: Meta, secrets: Secrets, id: Id)
    requires WellFormed(meta, secrets) && ApplyRemove(meta, secrets, id).Write?
    ensures WellFormed(ApplyRemove(meta, secrets, id).meta, ApplyRemove(meta, secrets, id).secrets)
  {
    var k := WalletIndex(meta, id);
    RemoveCuts(meta, secrets, id);
    var i := if meta.activeId != id then WalletIndex(meta, meta.activeId)
             else if k + 1 < |meta.wallets| then k + 1 else k - 1;
    CutKeepsWellFormed(meta, secrets, k, ApplyRemove(meta, secrets, id).meta.activeId, i);
  }

  lemma RenameKeepsNames(meta: Meta, id: Id, name: string, ws': seq<Wallet>)
    requires DistinctBy(meta.wallets, WalletId) && DistinctBy(meta.wallets, NameKey)
    requires NameFree(meta, name, Some(id))
    requires |ws'| == |meta.wallets|
    requires forall i :: 0 <= i < |ws'| ==>
      ws'[i] == if meta.wallets[i].id == id then meta.wallets[i].(name := name) else meta.wallets[i]
    ensures DistinctBy(ws', NameKey)
  {
    var ws := meta.wallets;
    forall i, j | 0 <= i < j < |ws'| ensures NameKey(ws'[i]) != NameKey(ws'[j]) {
      assert ws[i] in ws && ws[j] in ws;
      assert WalletId(ws[i]) != WalletId(ws[j]);
      assert NameKey(ws[i]) != NameKey(ws[j]);
    }
  }

  lemma RenameKeepsWellFormed(meta: Meta, secrets: Secrets, id: Id, newName: string)
    requires WellFormed(meta, secrets) && Apply(Rename(id, newName), meta, secrets).Write?
    ensures WellFormed(Apply(Rename(id, newName), meta, secrets).meta, Apply(Rename(id, newName), meta, secrets).secrets)
  {
    var out := Apply(Rename(id, newName), meta, secrets);
    RenameKeepsNames(meta, id, Trim(newName), out.meta.wallets);
    UpdateKeepsWellFormed(meta, secrets, out.meta.wallets);
  }

  /** Marks that leave ids, names and `derived` alone. */
  lemma MarkKeepsWellFormed(meta: Meta, secrets: Secrets, ws': seq<Wallet>)
    requires WellFormed(meta, secrets) && |ws'| == |meta.wallets|
    requires forall i :: 0 <= i < |ws'| ==>
      && ws'[i].id == meta.wallets[i].id && ws'[i].derived == meta.wallets[i].derived
      && ws'[i].name == meta.wallets[i].name
    ensures WellFormed(meta.(wallets := ws'), secrets)
  {
    DistinctUpdate(meta.wallets, ws', NameKey);
    UpdateKeepsWellFormed(meta, secrets, ws');
  }

  /** Every mutation keeps the vault invariant. */
  lemma ApplyKeepsWellFormed(m: Mutation, meta: Meta, secrets: Secrets)
    requires WellFormed(meta, secrets) && Apply(m, meta, secrets).Write?
    ensures WellFormed(Apply(m, meta, secrets).meta, Apply(m, meta, secrets).secrets)
  {
    match m
    case Add(_, _, _, _, _) => AddKeepsWellFormed(meta, secrets, m);
    case Rename(id, newName) => RenameKeepsWellFormed(meta, secrets, id, newName);
    case Remove(id) => RemoveKeepsWellFormed(meta, secrets, id);
    case SetActive(id) => ActiveKeepsWellFormed(meta, secrets, id);
    case SetBackedUp(_) => MarkKeepsWellFormed(meta, secrets, Apply(m, meta, secrets).meta.wallets);
    case SetReceiveIndex(_, _) => MarkKeepsWellFormed(meta, secrets, Apply(m, meta, secrets).meta.wallets);
  }

  lemma ActiveKeepsWellFormed(meta: Meta, secrets: Secrets, id: Id)
    requires WellFormed(meta, secrets) && HasWallet(meta, id)
    ensures WellFormed(meta.(activeId := id), secrets)
  {
  }

  lemma FirstWellFormed(id: Id, name: string, mnemonic: string, backedUp: bool, source: Option<Source>, now: nat)
    ensures WellFormed(FirstMeta(id, name, backedUp, source, now), FirstSecrets(id, mnemonic, source))
  {
    var meta := FirstMeta(id, name, backedUp, source, now);
    HasWalletIff(meta, id);
    assert meta.wallets[0] in meta.wallets;
    assert meta.wallets[0].id == id;
  }

  /** A mutation asks for deletion exactly when it removes the only wallet. */
  lemma DeleteIffOnlyWallet(m: Mutation, meta: Meta, secrets: Secrets)
    requires WellFormed(meta, secrets)
    ensures Apply(m, meta, secrets).DeleteVault? <==>
            m.Remove? && |meta.wallets| == 1 && meta.wallets[0].id == m.id
  {
    if m.Remove? && HasWallet(meta, m.id) {
      var k := WalletIndex(meta, m.id);
      WithoutSlice(meta.wallets, WalletId, m.id, k);
      assert |meta.wallets[..k] + meta.wallets[k + 1..]| == |meta.wallets| - 1;
    }
  }

  // ---- what changes, wallet by wallet ----

  /** The mnemonic a wallet id opens to. */
  ghost function SeedOf(secrets: Secrets, id: Id): Option<string> {
    var i := IndexOf(secrets.mnemonics, EntryId, id);
    if i < |secrets.mnemonics| then Some(secrets.mnemonics[i].mnemonic) else None
  }

  ghost function RowOf(meta: Meta, id: Id): Option<Wallet> {
    if HasWallet(meta, id) then Some(meta.wallets[WalletIndex(meta, id)]) else None
  }

  lemma RowAt(meta: Meta, i: nat)
    requires i < |meta.wallets| && DistinctBy(meta.wallets, WalletId)
    ensures RowOf(meta, meta.wallets[i].id) == Some(meta.wallets[i])
  {
    HasWalletIff(meta, meta.wallets[i].id);
    assert meta.wallets[i] in meta.wallets;
    var k := WalletIndex(meta, meta.wallets[i].id);
    DistinctSame(meta.wallets, WalletId, k, i);
  }

  lemma SeedAt(secrets: Secrets, ws: seq<Wallet>, i: nat)
    requires i < |ws| && Aligned(ws, secrets.mnemonics) && DistinctBy(ws, WalletId)
    ensures SeedOf(secrets, ws[i].id) == Some(secrets.mnemonics[i].mnemonic)
  {
    var k := IndexOf(secrets.mnemonics, EntryId, ws[i].id);
    assert EntryId(secrets.mnemonics[i]) == ws[i].id;
    DistinctSame(ws, WalletId, k, i);
  }

  lemma SeedPresent(secrets: Secrets, ws: seq<Wallet>, id: Id)
    requires Aligned(ws, secrets.mnemonics)
    ensures SeedOf(secrets, id).Some? <==> exists i :: 0 <= i < |ws| && ws[i].id == id
  {
    if i :| 0 <= i < |ws| && ws[i].id == id {
      assert EntryId(secrets.mnemonics[i]) == id;
    }
    var k := IndexOf(secrets.mnemonics, EntryId, id);
    if k < |secrets.mnemonics| {
      assert ws[k].id == id;
    }
  }

  /** No mutation touches the row or the mnemonic of a wallet it does not name. */
  lemma OtherWalletsUntouched(m: Mutation, meta: Meta, secrets: Secrets, id: Id)
    requires WellFormed(meta, secrets) && Apply(m, meta, secrets).Write?
    requires HasWallet(meta, id)
    requires m.Add? || m.id != id
    ensures var out := Apply(m, meta, secrets);
            && SeedOf(out.secrets, id) == SeedOf(secrets, id)
            && RowOf(out.meta, id).Some?
            && (m.Add? || RowOf(out.meta, id) == RowOf(meta, id))
            && (m.Add? ==> RowOf(out.meta, id).value.(derived := false) == RowOf(meta, id).value.(derived := false))
  {
    var out := Apply(m, meta, secrets);
    ApplyKeepsWellFormed(m, meta, secrets);
    var i := WalletIndex(meta, id);
    RowAt(meta, i);
    SeedAt(secrets, meta.wallets, i);
    var i' := KeptAt(m, meta, secrets, i);
    RowAt(out.meta, i');
    SeedAt(out.secrets, out.meta.wallets, i');
  }

  lemma KeptByAdd(m: Mutation, meta: Meta, secrets: Secrets, i: nat)
    requires m.Add? && WellFormed(meta, secrets) && Apply(m, meta, secrets).Write? && i < |meta.wallets|
    ensures var out := Apply(m, meta, secrets);
            && i < |out.meta.wallets| && i < |out.secrets.mnemonics|
            && out.secrets.mnemonics[i] == secrets.mnemonics[i]
            && out.meta.wallets[i].id == meta.wallets[i].id
            && out.meta.wallets[i].(derived := false) == meta.wallets[i].(derived := false)
  {
  }

  /** Where wallet i stands after a mutation that does not name it. */
  lemma KeptAt(m: Mutation, meta: Meta, secrets: Secrets, i: nat) returns (i': nat)
    requires WellFormed(meta, secrets) && Apply(m, meta, secrets).Write?
    requires i < |meta.wallets|
    requires m.Add? || m.id != meta.wallets[i].id
    ensures var out := Apply(m, meta, secrets);
            && i' < |out.meta.wallets| && i' < |out.secrets.mnemonics|
            && out.secrets.mnemonics[i'] == secrets.mnemonics[i]
            && out.meta.wallets[i'].id == meta.wallets[i].id
            && (m.Add? || out.meta.wallets[i'] == meta.wallets[i])
            && out.meta.wallets[i'].(derived := false) == meta.wallets[i].(derived := false)
  {
    i' := i;
    if m.Remove? {
      i' := KeptByRemove(meta, secrets, m.id, i);
    } else if m.Add? {
      KeptByAdd(m, meta, secrets, i);
    } else {
      KeptInPlace(m, meta, secrets, i);
    }
  }

  lemma KeptByRemove(meta: Meta, secrets: Secrets, id: Id, i: nat) returns (i': nat)
    requires WellFormed(meta, secrets) && ApplyRemove(meta, secrets, id).Write?
    requires i < |meta.wallets| && meta.wallets[i].id != id
    ensures var out := ApplyRemove(meta, secrets, id);
            && i' < |out.meta.wallets| && i' < |out.secrets.mnemonics|
            && out.secrets.mnemonics[i'] == secrets.mnemonics[i]
            && out.meta.wallets[i'] == meta.wallets[i]
  {
    var k := WalletIndex(meta, id);
    RemoveCuts(meta, secrets, id);
    i' := if i < k then i else i - 1;
    CutAt(meta.wallets, k, i);
    CutAt(secrets.mnemonics, k, i);
  }

  lemma KeptInPlace(m: Mutation, meta: Meta, secrets: Secrets, i: nat)
    requires !m.Add? && !m.Remove? && Apply(m, meta, secrets).Write?
    requires Aligned(meta.wallets, secrets.mnemonics) && i < |meta.wallets| && meta.wallets[i].id != m.id
    ensures var out := Apply(m, meta, secrets);
            && i < |out.meta.wallets|
            && out.secrets == secrets
            && out.meta.wallets[i] == meta.wallets[i]
  {
  }

  /** Adding a seed that is not there yet appends one wallet that opens to that seed. */
  lemma AddGrowsByOne(meta: Meta, secrets: Secrets, m: Mutation)
    requires m.Add? && WellFormed(meta, secrets)
    requires forall i :: 0 <= i < |secrets.mnemonics| ==> SeedKey(secrets.mnemonics[i]) != NormMnemonic(m.mnemonic)
    ensures Apply(m, meta, secrets).Write? <==> NameFree(meta, m.name, None)
    ensures Apply(m, meta, secrets).Write? ==>
      var out := Apply(m, meta, secrets);
      && |out.meta.wallets| == |meta.wallets| + 1
      && meta.wallets <= out.meta.wallets
      && out.meta.activeId == meta.activeId
      && var row := out.meta.wallets[|meta.wallets|];
      && !HasWallet(meta, row.id)
      && row == Wallet(row.id, Trim(m.name), m.now, m.backedUp, m.source.Some?, 0)
      && SeedOf(out.secrets, row.id) == Some(m.mnemonic)
      && (m.source.Some? ==> row.id in out.secrets.sources && out.secrets.sources[row.id] == m.source.value)
  {
    var d := DupIndex(secrets.mnemonics, m.mnemonic);
    var out := Apply(m, meta, secrets);
    if out.Write? {
      ApplyKeepsWellFormed(m, meta, secrets);
      SeedAt(out.secrets, out.meta.wallets, |meta.wallets|);
      HasWalletIff(meta, out.meta.wallets[|meta.wallets|].id);
    }
  }

  /** A seed already in the vault is never added twice. */
  lemma AddNeverDuplicates(meta: Meta, secrets: Secrets, m: Mutation, e: Entry)
    requires m.Add? && WellFormed(meta, secrets)
    requires e in secrets.mnemonics && SeedKey(e) == NormMnemonic(m.mnemonic)
    ensures var out := Apply(m, meta, secrets);
            && (out.NoWrite? || out.Write?)
            && (out.Write? <==> m.source.Some? && e.id !in secrets.sources)
            && (out.Write? ==> out.secrets.mnemonics == secrets.mnemonics
                               && out.secrets.sources == secrets.sources[e.id := m.source.value]
                               && |out.meta.wallets| == |meta.wallets|)
  {
    var d := DupIndex(secrets.mnemonics, m.mnemonic);
    var i :| 0 <= i < |secrets.mnemonics| && secrets.mnemonics[i] == e;
    DistinctSame(secrets.mnemonics, SeedKey, d, i);
  }

  /** The removed wallet is gone from both halves, and the active id moves only if it was active. */
  lemma RemoveForgets(meta: Meta, secrets: Secrets, id: Id)
    requires WellFormed(meta, secrets) && ApplyRemove(meta, secrets, id).Write?
    ensures var out := ApplyRemove(meta, secrets, id);
            && !HasWallet(out.meta, id)
            && SeedOf(out.secrets, id) == None
            && id !in out.secrets.sources
            && (meta.activeId != id ==> out.meta.activeId == meta.activeId)
  {
    var out := ApplyRemove(meta, secrets, id);
    assert !HasWallet(out.meta, id) by {
      RemovedIsGone(meta, secrets, id);
    }
    ApplyKeepsWellFormed(Remove(id), meta, secrets);
    SeedPresent(out.secrets, out.meta.wallets, id);
  }

  lemma RemovedIsGone(meta: Meta, secrets: Secrets, id: Id)
    requires WellFormed(meta, secrets) && ApplyRemove(meta, secrets, id).Write?
    ensures !HasWallet(ApplyRemove(meta, secrets, id).meta, id)
  {
    RemoveCuts(meta, secrets, id);
    var ws, k := meta.wallets, WalletIndex(meta, id);
    var ws' := ws[..k] + ws[k + 1..];
    forall j | 0 <= j < |ws'| ensures ws'[j].id != id {
      var j' := if j < k then j else j + 1;
      CutAt(ws, k, j');
      DistinctOther(ws, WalletId, j', k);
    }
  }

  /** `backedUp` is never cleared and `receiveIndex` never walks back while a wallet exists. */
  lemma ApplyMonotone(m: Mutation, meta: Meta, secrets: Secrets, id: Id)
    requires WellFormed(meta, secrets) && Apply(m, meta, secrets).Write?
    requires HasWallet(meta, id) && HasWallet(Apply(m, meta, secrets).meta, id)
    ensures var before, after := RowOf(meta, id).value, RowOf(Apply(m, meta, secrets).meta, id).value;
            && (before.backedUp ==> after.backedUp)
            && before.receiveIndex <= after.receiveIndex
  {
    if m.Add? || m.id != id {
      OtherWalletsUntouched(m, meta, secrets, id);
    } else if m.Remove? {
      RemoveForgets(meta, secrets, id);
    } else {
      var out := Apply(m, meta, secrets);
      ApplyKeepsWellFormed(m, meta, secrets);
      var i := WalletIndex(meta, id);
      RowAt(meta, i);
      assert out.meta.wallets[i].id == id;
      RowAt(out.meta, i);
    }
  }

  /** Only `Remove` of that very wallet takes a wallet or its mnemonic away. */
  lemma WalletKept(m: Mutation, meta: Meta, secrets: Secrets, id: Id)
    requires WellFormed(meta, secrets) && Apply(m, meta, secrets).Write?
    requires HasWallet(meta, id) && m != Remove(id)
    ensures var out := Apply(m, meta, secrets);
            HasWallet(out.meta, id) && SeedOf(out.secrets, id) == SeedOf(secrets, id)
  {
    var out := Apply(m, meta, secrets);
    if m.Add? || m.id != id {
      OtherWalletsUntouched(m, meta, secrets, id);
    } else {
      HasWalletIff(out.meta, id);
      var i := WalletIndex(meta, id);
      assert out.meta.wallets[i].id == id && out.meta.wallets[i] in out.meta.wallets;
    }
  }

  // ---- a mutation computed from other secrets than the stored ones ----

  /** The part of the stored secrets that m reads or carries over is what the tab holds. What m overwrites
      or drops may differ: a removed wallet's mnemonic and source, the source slot of a new wallet. */
  predicate Agrees(m: Mutation, meta: Meta, held: Secrets, stored: Secrets) {
    match m
    case Remove(id) =>
      && Without(held.mnemonics, EntryId, id) == Without(stored.mnemonics, EntryId, id)
      && held.sources - {id} == stored.sources - {id}
    case Add(_, mnemonic, _, source, now) =>
      && held.mnemonics == stored.mnemonics
      && if source.Some? && DupIndex(held.mnemonics, mnemonic) == |held.mnemonics| then
           var id := NewWalletId(WalletIds(meta.wallets), now);
           held.sources - {id} == stored.sources - {id}
         else
           held.sources == stored.sources
    case _ => held == stored
  }

  /** A mutation that writes computes the same from both exactly when they agree. */
  lemma AppliesAlike(m: Mutation, meta: Meta, held: Secrets, stored: Secrets)
    requires Apply(m, meta, held).Write?
    ensures Apply(m, meta, stored) == Apply(m, meta, held) <==> Agrees(m, meta, held, stored)
  {
    if m.Add? {
      if DupIndex(held.mnemonics, m.mnemonic) == |held.mnemonics| {
        NewAppliesAlike(m, meta, held, stored);
      } else {
        UpgradeAppliesAlike(m, meta, held, stored);
      }
    }
  }

  lemma NewAppliesAlike(m: Mutation, meta: Meta, held: Secrets, stored: Secrets)
    requires m.Add? && Apply(m, meta, held).Write? && DupIndex(held.mnemonics, m.mnemonic) == |held.mnemonics|
    ensures Apply(m, meta, stored) == Apply(m, meta, held) <==> Agrees(m, meta, held, stored)
  {
    var id := NewWalletId(WalletIds(meta.wallets), m.now);
    if DupIndex(stored.mnemonics, m.mnemonic) < |stored.mnemonics| {
      assert Apply(m, meta, stored).Write? ==> |Apply(m, meta, stored).meta.wallets| == |meta.wallets|;
    } else {
      SameAppend(held.mnemonics, stored.mnemonics, Entry(id, m.mnemonic));
      if m.source.Some? {
        SamePut(held.sources, stored.sources, id, m.source.value);
      }
    }
  }

  lemma UpgradeAppliesAlike(m: Mutation, meta: Meta, held: Secrets, stored: Secrets)
    requires m.Add? && Apply(m, meta, held).Write? && DupIndex(held.mnemonics, m.mnemonic) < |held.mnemonics|
    ensures Apply(m, meta, stored) == Apply(m, meta, held) <==> Agrees(m, meta, held, stored)
  {
    var id := held.mnemonics[DupIndex(held.mnemonics, m.mnemonic)].id;
    if DupIndex(stored.mnemonics, m.mnemonic) < |stored.mnemonics| {
      SamePut(held.sources, stored.sources, id, m.source.value);
      assert id !in held.sources;
      assert id !in stored.sources ==> held.sources - {id} == held.sources && stored.sources - {id} == stored.sources;
    } else {
      assert Apply(m, meta, stored).Write? ==> |Apply(m, meta, stored).meta.wallets| == |meta.wallets| + 1;
    }
  }

  lemma SameAppend<T>(a: seq<T>, b: seq<T>, x: T)
    ensures a + [x] == b + [x] <==> a == b
  {
    if a + [x] == b + [x] {
      assert a == (a + [x])[..|a|] && b == (b + [x])[..|b|];
    }
  }

  lemma SamePut<K, V>(a: map<K, V>, b: map<K, V>, k: K, v: V)
    ensures a[k := v] == b[k := v] <==> a - {k} == b - {k}
  {
    if a[k := v] == b[k := v] {
      assert a[k := v] - {k} == a - {k} && b[k := v] - {k} == b - {k};
    }
    if a - {k} == b - {k} {
      assert a[k := v] == (a - {k})[k := v] && b[k := v] == (b - {k})[k := v];
    }
  }
}
