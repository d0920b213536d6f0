/** What a vault holds (cleartext meta, encrypted secrets) and what each mutation of
    apps/wallet/public/vault.js computes from it. */
module VaultState {
  import opened Common

  /** A wallet id is 'w' followed by a number; the number stands for it. */
  type Id = nat

  datatype Source = Source(kind: string, address: string, fp: string)

  datatype Wallet = Wallet(
    id: Id, name: string, createdAt: nat, backedUp: bool, derived: bool, receiveIndex: nat)

  datatype Meta = Meta(activeId: Id, wallets: seq<Wallet>)

  /** One property of the `mnemonics` object; the sequence keeps insertion order. */
  datatype Entry = Entry(id: Id, mnemonic: string)

  datatype Secrets = Secrets(mnemonics: seq<Entry>, sources: map<Id, Source>)

  datatype Mutation =
    | Add(name: string, mnemonic: string, backedUp: bool, source: Option<Source>, now: nat)
    | Rename(id: Id, newName: string)
    | Remove(id: Id)
    | SetActive(id: Id)
    | SetBackedUp(id: Id)
    | SetReceiveIndex(id: Id, index: int)

  datatype Outcome =
    | Refused(why: string)
    | NoWrite
    | Write(meta: Meta, secrets: Secrets)
    | DeleteVault

  const MAX_SAFE_INTEGER := 0x1F_FFFF_FFFF_FFFF

  // ---- text normalisation ----

  function TrimStart(s: string): string {
    if s != "" && IsSpace(s[0]) then TrimStart(s[1..]) else s
  }

  function TrimEnd(s: string): string {
    if s != "" && IsSpace(s[|s| - 1]) then TrimEnd(s[..|s| - 1]) else s
  }

  function Trim(s: string): string {
    TrimEnd(TrimStart(s))
  }

  /** Every run of white space becomes one blank. */
  function Collapse(s: string): string {
    if s == "" then ""
    else if !IsSpace(s[0]) then [s[0]] + Collapse(s[1..])
    else if |s| > 1 && IsSpace(s[1]) then Collapse(s[1..])
    else " " + Collapse(s[1..])
  }

  function NormMnemonic(m: string): string {
    Collapse(ToLower(Trim(m)))
  }

  function NormName(name: string): string {
    ToLower(Trim(name))
  }

  // ---- lookups ----

  function WalletId(w: Wallet): Id { w.id }

  function EntryId(e: Entry): Id { e.id }

  /** Names clash when they agree up to case and outer blanks. */
  function NameKey(w: Wallet): string { NormName(w.name) }

  /** Mnemonics are the same seed when they agree up to case and white space. */
  function SeedKey(e: Entry): string { NormMnemonic(e.mnemonic) }

  function WalletIds(ws: seq<Wallet>): set<Id> {
    set w | w in ws :: w.id
  }

  /** First position whose key is `id`, or the length. */
  function IndexOf<T>(xs: seq<T>, key: T -> Id, id: Id): (i: nat)
    ensures i <= |xs|
    ensures i < |xs| ==> key(xs[i]) == id
    ensures forall j :: 0 <= j < i ==> key(xs[j]) != id
  {
    if xs == [] || key(xs[0]) == id then 0 else 1 + IndexOf(xs[1..], key, id)
  }

  function Without<T>(xs: seq<T>, key: T -> Id, id: Id): seq<T> {
    if xs == [] then []
    else if key(xs[0]) == id then Without(xs[1..], key, id)
    else [xs[0]] + Without(xs[1..], key, id)
  }

  function WalletIndex(meta: Meta, id: Id): (i: nat)
    ensures i <= |meta.wallets|
    ensures i < |meta.wallets| ==> meta.wallets[i].id == id
    ensures forall j :: 0 <= j < i ==> meta.wallets[j].id != id
  {
    IndexOf(meta.wallets, WalletId, id)
  }

  predicate HasWallet(meta: Meta, id: Id) {
    WalletIndex(meta, id) < |meta.wallets|
  }

  /** First entry whose mnemonic is the same seed, or the length. */
  function DupIndex(es: seq<Entry>, mnemonic: string): (i: nat)
    ensures i <= |es|
    ensures i < |es| ==> SeedKey(es[i]) == NormMnemonic(mnemonic)
    ensures forall j :: 0 <= j < i ==> SeedKey(es[j]) != NormMnemonic(mnemonic)
  {
    if es == [] || SeedKey(es[0]) == NormMnemonic(mnemonic) then 0
    else 1 + DupIndex(es[1..], mnemonic)
  }

  predicate NameFree(meta: Meta, name: string, self: Option<Id>) {
    forall w :: w in meta.wallets && (self == None || w.id != self.value) ==> NameKey(w) != NormName(name)
  }

  function From(taken: set<Id>, n: nat): set<Id> {
    set x | x in taken && x >= n
  }

  /** newWalletId: the clock value, bumped past the ids in use. */
  function NewWalletId(taken: set<Id>, n: nat): (id: Id)
    ensures id !in taken && n <= id
    decreases |From(taken, n)|
  {
    if n !in taken then n
    else
      FromShrinks(taken, n);
      NewWalletId(taken, n + 1)
  }

  lemma FromShrinks(taken: set<Id>, n: nat)
    requires n in taken
    ensures |From(taken, n + 1)| < |From(taken, n)|
  {
    assert n in From(taken, n) && n !in From(taken, n + 1);
    SubsetSmaller(From(taken, n + 1), From(taken, n));
  }

  lemma SubsetSmaller<T>(a: set<T>, b: set<T>)
    requires a < b
    ensures |a| < |b|
  {
    var x :| x in b && x !in a;
    assert a <= b - {x};
    SubsetSize(a, b - {x});
  }

  lemma {:induction false} SubsetSize<T>(a: set<T>, b: set<T>)
    requires a <= b
    ensures |a| <= |b|
  {
    if a != {} {
      var x :| x in a;
      SubsetSize(a - {x}, b - {x});
    }
  }

  // ---- what a mutation computes ----

  /** wallets.map((w) => (w.id === id ? f(w) : w)) */
  function UpdateWallet(ws: seq<Wallet>, id: Id, f: Wallet -> Wallet): (r: seq<Wallet>)
    ensures |r| == |ws|
    ensures forall i :: 0 <= i < |ws| ==> r[i] == if ws[i].id == id then f(ws[i]) else ws[i]
  {
    seq(|ws|, i requires 0 <= i < |ws| => if ws[i].id == id then f(ws[i]) else ws[i])
  }

  function NewRow(id: Id, name: string, backedUp: bool, source: Option<Source>, now: nat): Wallet {
    Wallet(id, Trim(name), now, backedUp, source.Some?, 0)
  }

  /** The read-compute half of a mutation: everything before `commit` is called. */
  function Apply(m: Mutation, meta: Meta, secrets: Secrets): Outcome {
    match m
    case Add(name, mnemonic, backedUp, source, now) =>
      ApplyAdd(meta, secrets, name, mnemonic, backedUp, source, now)
    case Rename(id, newName) =>
      if !HasWallet(meta, id) then Refused("unknown wallet")
      else if Trim(newName) == "" then Refused("wallet name must not be empty")
      else if !NameFree(meta, Trim(newName), Some(id)) then Refused("a wallet with this name already exists")
      else Write(meta.(wallets := UpdateWallet(meta.wallets, id, (w: Wallet) => w.(name := Trim(newName)))), secrets)
    case Remove(id) =>
      ApplyRemove(meta, secrets, id)
    case SetActive(id) =>
      if !HasWallet(meta, id) then Refused("unknown wallet")
      else if meta.activeId == id then NoWrite
      else Write(meta.(activeId := id), secrets)
    case SetBackedUp(id) =>
      if !HasWallet(meta, id) then Refused("unknown wallet")
      else Write(meta.(wallets := UpdateWallet(meta.wallets, id, (w: Wallet) => w.(backedUp := true))), secrets)
    case SetReceiveIndex(id, index) =>
      if !HasWallet(meta, id) then Refused("unknown wallet")
      else
        var current := meta.wallets[WalletIndex(meta, id)].receiveIndex;
        var want := if 0 < index <= MAX_SAFE_INTEGER then index else 0;
        var next := if want > current then want else current;
        if next == current then NoWrite
        else Write(meta.(wallets := UpdateWallet(meta.wallets, id, (w: Wallet) => w.(receiveIndex := next))), secrets)
  }

  function ApplyAdd(meta: Meta, secrets: Secrets, name: string, mnemonic: string, backedUp: bool,
                    source: Option<Source>, now: nat): Outcome
  {
    var d := DupIndex(secrets.mnemonics, mnemonic);
    if d < |secrets.mnemonics| then
      var dupId := secrets.mnemonics[d].id;
      if source.Some? && dupId !in secrets.sources then
        Write(meta.(wallets := UpdateWallet(meta.wallets, dupId, (w: Wallet) => w.(derived := true))),
              secrets.(sources := secrets.sources[dupId := source.value]))
      else NoWrite
    else if !NameFree(meta, name, None) then Refused("a wallet with this name already exists")
    else
      var id := NewWalletId(WalletIds(meta.wallets), now);
      Write(meta.(wallets := meta.wallets + [NewRow(id, name, backedUp, source, now)]),
            Secrets(secrets.mnemonics + [Entry(id, mnemonic)],
                    if source.Some? then secrets.sources[id := source.value] else secrets.sources))
  }

  /** What is left after removing `id` stands next to it. */
  lemma NeighbourExists(ws: seq<Wallet>, id: Id)
    requires Without(ws, WalletId, id) != []
    ensures |ws| > 1 || WalletId(ws[0]) != id
  {
    assert |ws| == 1 ==> ws[1..] == [];
  }

  function ApplyRemove(meta: Meta, secrets: Secrets, id: Id): Outcome {
    if !HasWallet(meta, id) then Refused("unknown wallet")
    else
      var ws := meta.wallets;
      var remaining := Without(ws, WalletId, id);
      if remaining == [] then DeleteVault
      else
        var idx := WalletIndex(meta, id);
        var active :=
          if meta.activeId != id then meta.activeId
          else if idx + 1 < |ws| then ws[idx + 1].id
          else (NeighbourExists(ws, id); ws[idx - 1].id);
        Write(Meta(active, remaining),
              Secrets(Without(secrets.mnemonics, EntryId, id), secrets.sources - {id}))
  }

  /** createVault and migrateV1 both start from one wallet. */
  function FirstMeta(id: Id, name: string, backedUp: bool, source: Option<Source>, now: nat): Meta {
    Meta(id, [NewRow(id, name, backedUp, source, now)])
  }

  function FirstSecrets(id: Id, mnemonic: string, source: Option<Source>): Secrets {
    Secrets([Entry(id, mnemonic)], if source.Some? then map[id := source.value] else map[])
  }

  // ---- the vault invariant ----

  /** No two positions share a key. */
  ghost predicate DistinctBy<T, K>(xs: seq<T>, key: T -> K) {
    forall i, j :: 0 <= i < j < |xs| ==> key(xs[i]) != key(xs[j])
  }

  /** Row i and mnemonic i belong to the same wallet. */
  ghost predicate Aligned(ws: seq<Wallet>, es: seq<Entry>) {
    && |ws| == |es|
    && forall i :: 0 <= i < |ws| ==> ws[i].id == es[i].id
  }

  ghost predicate DerivedMatchesSources(ws: seq<Wallet>, sources: map<Id, Source>) {
    && (forall i :: 0 <= i < |ws| ==> (ws[i].derived <==> ws[i].id in sources))
    && (forall id :: id in sources ==> exists i :: 0 <= i < |ws| && ws[i].id == id)
  }

  ghost predicate WellFormed(meta: Meta, secrets: Secrets) {
    && DistinctBy(meta.wallets, WalletId)
    && DistinctBy(meta.wallets, NameKey)
    && DistinctBy(secrets.mnemonics, SeedKey)
    && Aligned(meta.wallets, secrets.mnemonics)
    && DerivedMatchesSources(meta.wallets, secrets.sources)
    && HasWallet(meta, meta.activeId)
  }

  // ---- lemmas ----

  lemma HasWalletIff(meta: Meta, id: Id)
    ensures HasWallet(meta, id) <==> exists w :: w in meta.wallets && w.id == id
  {
    if w :| w in meta.wallets && w.id == id {
      var i :| 0 <= i < |meta.wallets| && meta.wallets[i] == w;
      assert WalletIndex(meta, id) <= i;
    }
  }

  lemma {:induction false} WithoutSlice<T>(xs: seq<T>, key: T -> Id, id: Id, k: nat)
    requires k < |xs| && key(xs[k]) == id
    requires forall i :: 0 <= i < |xs| && i != k ==> key(xs[i]) != id
    ensures Without(xs, key, id) == xs[..k] + xs[k + 1..]
  {
    if k == 0 {
      WithoutAbsent(xs[1..], key, id);
    } else {
      assert key(xs[0]) != id;
      WithoutSlice(xs[1..], key, id, k - 1);
      assert [xs[0]] + (xs[1..][..k - 1] + xs[1..][k..]) == xs[..k] + xs[k + 1..];
    }
  }

  lemma {:induction false} WithoutAbsent<T>(xs: seq<T>, key: T -> Id, id: Id)
    requires forall i :: 0 <= i < |xs| ==> key(xs[i]) != id
    ensures Without(xs, key, id) == xs
  {
    if xs != [] {
      assert key(xs[0]) != id;
      assert forall i :: 0 <= i < |xs[1..]| ==> xs[1..][i] == xs[i + 1];
      WithoutAbsent(xs[1..], key, id);
    }
  }
}
