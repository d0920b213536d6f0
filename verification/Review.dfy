/** The coin choices behind the mint, transfer and redeem review screens (app.js, coinpick.js), against
    the builders that run after the user confirms. */
module Review {
  import opened Common
  import opened Builders

  // ---- sorting ----

  predicate Ascending<T>(xs: seq<T>, key: T -> int) {
    forall i, j :: 0 <= i < j < |xs| ==> key(xs[i]) <= key(xs[j])
  }

  function InsertBy<T>(x: T, xs: seq<T>, key: T -> int): seq<T> {
    if xs == [] || key(x) <= key(xs[0]) then [x] + xs else [xs[0]] + InsertBy(x, xs[1..], key)
  }

  function SortBy<T>(xs: seq<T>, key: T -> int): seq<T> {
    if xs == [] then [] else InsertBy(xs[0], SortBy(xs[1..], key), key)
  }

  lemma {:induction false} InsertKeeps<T>(x: T, xs: seq<T>, key: T -> int)
    ensures multiset(InsertBy(x, xs, key)) == multiset(xs) + multiset{x}
  {
    if xs != [] && key(x) > key(xs[0]) {
      InsertKeeps(x, xs[1..], key);
      assert xs == [xs[0]] + xs[1..];
    }
  }

  lemma {:induction false} InsertSorts<T>(x: T, xs: seq<T>, key: T -> int)
    requires Ascending(xs, key)
    ensures multiset(InsertBy(x, xs, key)) == multiset(xs) + multiset{x}
    ensures Ascending(InsertBy(x, xs, key), key)
  {
    InsertKeeps(x, xs, key);
    if xs != [] && key(x) > key(xs[0]) {
      InsertSorts(x, xs[1..], key);
      HeadIsLeast(xs[0], InsertBy(x, xs[1..], key), x, xs[1..], key);
    }
  }

  lemma HeadIsLeast<T>(h: T, r: seq<T>, x: T, rest: seq<T>, key: T -> int)
    requires multiset(r) == multiset(rest) + multiset{x} && Ascending(r, key)
    requires key(h) <= key(x) && forall i :: 0 <= i < |rest| ==> key(h) <= key(rest[i])
    ensures Ascending([h] + r, key)
  {
    forall i | 0 <= i < |r| ensures key(h) <= key(r[i]) {
      assert r[i] in multiset(r);
      assert r[i] in multiset(rest) || r[i] == x;
    }
  }

  lemma {:induction false} SortSorts<T>(xs: seq<T>, key: T -> int)
    ensures multiset(SortBy(xs, key)) == multiset(xs) && Ascending(SortBy(xs, key), key)
  {
    if xs != [] {
      SortSorts(xs[1..], key);
      InsertSorts(xs[0], SortBy(xs[1..], key), key);
      assert xs == [xs[0]] + xs[1..];
    }
  }

  lemma SameMembers<T>(xs: seq<T>, key: T -> int)
    ensures forall x :: x in SortBy(xs, key) <==> x in xs
  {
    SortSorts(xs, key);
    forall x ensures x in SortBy(xs, key) <==> x in xs {
      assert x in SortBy(xs, key) <==> x in multiset(SortBy(xs, key));
      assert x in xs <==> x in multiset(xs);
    }
  }

  function Filter<T(!new)>(xs: seq<T>, keep: T -> bool): (r: seq<T>)
    ensures forall x :: x in r <==> x in xs && keep(x)
  {
    if xs == [] then [] else (if keep(xs[0]) then [xs[0]] else []) + Filter(xs[1..], keep)
  }

  /** find: the first that matches. */
  function First<T(==,!new)>(xs: seq<T>, want: T -> bool): (r: Option<T>)
    ensures r == None <==> forall x :: x in xs ==> !want(x)
    ensures r.Some? ==> r.value in xs && want(r.value)
  {
    if xs == [] then None else if want(xs[0]) then Some(xs[0]) else First(xs[1..], want)
  }

  /** In ascending order the first match is a least one. */
  lemma {:induction false} FirstIsLeast<T(!new)>(xs: seq<T>, key: T -> int, want: T -> bool, x: T)
    requires Ascending(xs, key) && x in xs && want(x)
    ensures First(xs, want).Some? && key(First(xs, want).value) <= key(x)
  {
    if !want(xs[0]) {
      FirstIsLeast(xs[1..], key, want, x);
    }
  }

  // ---- coinpick.js ----

  /** A sufficient coin's tier, best first: preferred taproot key, other taproot, P2WPKH. */
  function Tier(u: Coin, prefer: Option<Key>): nat {
    if u.v0 then 2 else if prefer == Some(u.key) then 0 else 1
  }

  function PickDgbCoin(utxos: seq<Coin>, minSats: int, prefer: Option<Key>): Option<Coin> {
    var enough := SortBy(Filter(utxos, (u: Coin) => u.valueSats >= minSats), CoinValue);
    var preferred := First(enough, u => Tier(u, prefer) == 0);
    if preferred.Some? then preferred
    else
      var taproot := First(enough, (u: Coin) => !u.v0);
      if taproot.Some? then taproot else First(enough, (u: Coin) => u.v0)
  }

  lemma EnoughCoins(utxos: seq<Coin>, minSats: int)
    ensures var enough := SortBy(Filter(utxos, (u: Coin) => u.valueSats >= minSats), CoinValue);
            Ascending(enough, CoinValue) && forall u :: u in enough <==> u in utxos && u.valueSats >= minSats
  {
    var kept := Filter(utxos, (u: Coin) => u.valueSats >= minSats);
    SortSorts(kept, CoinValue);
    SameMembers(kept, CoinValue);
  }

  /** No reason to take b instead of a: a taproot coin on the preferred key beats any coin but a smaller one of its
      kind, another taproot coin beats any P2WPKH coin, and of one kind the smaller beats the larger. */
  predicate AsGood(a: Coin, b: Coin, prefer: Option<Key>) {
    if b.v0 then !a.v0 || a.valueSats <= b.valueSats
    else if prefer == Some(b.key) then !a.v0 && prefer == Some(a.key) && a.valueSats <= b.valueSats
    else !a.v0 && (prefer == Some(a.key) || a.valueSats <= b.valueSats)
  }

  /** There is a pick exactly when some coin suffices, and no coin that suffices is better. */
  lemma PickIsBest(utxos: seq<Coin>, minSats: int, prefer: Option<Key>)
    ensures var pick := PickDgbCoin(utxos, minSats, prefer);
            && (pick == None <==> forall u :: u in utxos ==> u.valueSats < minSats)
            && (pick.Some? ==> pick.value in utxos && pick.value.valueSats >= minSats)
            && (pick.Some? ==> forall u :: u in utxos && u.valueSats >= minSats ==> AsGood(pick.value, u, prefer))
  {
    var enough := SortBy(Filter(utxos, (u: Coin) => u.valueSats >= minSats), CoinValue);
    EnoughCoins(utxos, minSats);
    var pick := PickDgbCoin(utxos, minSats, prefer);
    forall u | pick.Some? && u in utxos && u.valueSats >= minSats ensures AsGood(pick.value, u, prefer) {
      PickIsLeast(enough, prefer, u);
    }
  }

  lemma PickIsLeast(enough: seq<Coin>, prefer: Option<Key>, u: Coin)
    requires Ascending(enough, CoinValue) && u in enough
    ensures var a := First(enough, u => Tier(u, prefer) == 0);
            var b := First(enough, (u: Coin) => !u.v0);
            var c := First(enough, (u: Coin) => u.v0);
            var pick := if a.Some? then a else if b.Some? then b else c;
            pick.Some? && AsGood(pick.value, u, prefer)
  {
    if Tier(u, prefer) == 0 {
      FirstIsLeast(enough, CoinValue, u => Tier(u, prefer) == 0, u);
    } else if !u.v0 {
      FirstIsLeast(enough, CoinValue, (u: Coin) => !u.v0, u);
    } else {
      FirstIsLeast(enough, CoinValue, (u: Coin) => u.v0, u);
    }
  }

  // ---- mint review ----

  const MINT_FEE_SATS := 12_000_000
  const TRANSFER_FEE_SATS := 12_000_000

  function MintReview(utxos: seq<Coin>, m: MintOrder): Result<Coin> {
    var collateral := RequiredCollateralSats(m.ddCents, m.tierId, m.price, m.dcaMultiplierBps);
    if collateral.Err? then Err(collateral.message)
    else
      var pick := PickDgbCoin(utxos, collateral.value + MINT_FEE_SATS, None);
      if pick == None then Err("insufficient funds") else Ok(pick.value)
  }

  /** The mint review passes exactly when some coin of the wallet lets the builder succeed at this quote,
      and then its own pick does, whatever the tip is by signing time. */
  lemma MintReviewIsExact(c: Crypto, utxos: seq<Coin>, m: MintOrder)
    requires m.tipHeight >= 0
    ensures MintReview(utxos, m).Ok? <==> exists u :: u in utxos && BuildMint(c, u, m, 12_000_000).Ok?
    ensures MintReview(utxos, m).Ok? ==>
              && MintReview(utxos, m).value in utxos
              && forall tip: nat :: BuildMint(c, MintReview(utxos, m).value, m.(tipHeight := tip), 12_000_000).Ok?
  {
    forall u, tip: nat ensures BuildMint(c, u, m.(tipHeight := tip), MINT_FEE_SATS).Ok? <==> Funds(u, m) {
      MintAccepts(c, u, m, tip);
    }
    assert m.(tipHeight := m.tipHeight) == m;
    var collateral := RequiredCollateralSats(m.ddCents, m.tierId, m.price, m.dcaMultiplierBps);
    if collateral.Ok? {
      PickIsBest(utxos, collateral.value + MINT_FEE_SATS, None);
    }
  }

  /** The coin covers the collateral at this quote, and the fee. */
  predicate Funds(u: Coin, m: MintOrder) {
    var collateral := RequiredCollateralSats(m.ddCents, m.tierId, m.price, m.dcaMultiplierBps);
    collateral.Ok? && u.valueSats >= collateral.value + MINT_FEE_SATS
  }

  /** The builder throws at a quote for want of funds only. */
  lemma MintAccepts(c: Crypto, u: Coin, m: MintOrder, tip: nat)
    ensures BuildMint(c, u, m.(tipHeight := tip), MINT_FEE_SATS).Ok? <==> Funds(u, m)
  {
  }

  // ---- transfer review ----

  datatype OwnedDD = OwnedDD(coin: DDCoin, key: Key, address: string)

  function Cents(u: OwnedDD): int {
    u.coin.ddCents
  }

  predicate LeavesLegalChange(u: OwnedDD, cents: int) {
    u.coin.ddCents == cents || u.coin.ddCents - cents >= MIN_DD_OUTPUT_CENTS
  }

  predicate CanSend(u: OwnedDD, cents: int) {
    u.coin.ddCents >= cents && LeavesLegalChange(u, cents)
  }

  function PickDDCoin(dds: seq<OwnedDD>, cents: int): Option<OwnedDD> {
    var sorted := SortBy(Filter(dds, u => CanSend(u, cents)), Cents);
    if sorted == [] then None else Some(sorted[0])
  }

  function TransferReview(dds: seq<OwnedDD>, coins: seq<Coin>, cents: int): Result<(OwnedDD, Coin)> {
    if cents <= 0 then Err("amount must be positive")
    else if cents < MIN_DD_OUTPUT_CENTS then Err("consensus forbids DigiDollar outputs below $1.00")
    else
      var dd := PickDDCoin(dds, cents);
      if dd == None then Err("no single DigiDollar coin")
      else
        var fee := PickDgbCoin(coins, TRANSFER_FEE_SATS, Some(dd.value.key));
        if fee == None then Err("not enough DGB for the fee") else Ok((dd.value, fee.value))
  }

  /** What the confirm button builds. */
  function ConfirmTransfer(c: Crypto, dd: OwnedDD, fee: Coin, outputKey: Key32, cents: int, change: Bytes): Result<Built> {
    BuildTransfer(c, dd.coin, fee, dd.key, [Recipient(outputKey, cents)], TRANSFER_FEE_SATS, Some(change))
  }

  lemma PickedDDIsLeast(dds: seq<OwnedDD>, cents: int)
    ensures PickDDCoin(dds, cents) == None <==> forall u :: u in dds ==> !CanSend(u, cents)
    ensures PickDDCoin(dds, cents).Some? ==>
              var pick := PickDDCoin(dds, cents).value;
              pick in dds && CanSend(pick, cents) && forall u :: u in dds && CanSend(u, cents) ==> Cents(pick) <= Cents(u)
  {
    var kept := Filter(dds, u => CanSend(u, cents));
    var sorted := SortBy(kept, Cents);
    SortSorts(kept, Cents);
    SameMembers(kept, Cents);
    if sorted != [] {
      assert sorted[0] in sorted;
      forall u | u in dds && CanSend(u, cents) ensures Cents(sorted[0]) <= Cents(u) {
        var i :| 0 <= i < |sorted| && sorted[i] == u;
      }
    }
  }

  lemma OneRecipient(outputKey: Key32, cents: int)
    ensures Sum([Recipient(outputKey, cents)], RecipientCents) == cents
  {
    var rs := [Recipient(outputKey, cents)];
    assert rs[..0] == [];
    assert Sum(rs, RecipientCents) == Sum(rs[..0], RecipientCents) + RecipientCents(rs[0]);
  }

  /** The builder accepts a coin pair exactly when the coin can send the amount and the fee is covered. */
  lemma BuilderAccepts(c: Crypto, dd: OwnedDD, fee: Coin, outputKey: Key32, cents: int, change: Bytes)
    ensures ConfirmTransfer(c, dd, fee, outputKey, cents, change).Ok? <==>
            cents >= 100 && CanSend(dd, cents) && fee.valueSats >= 12_000_000
  {
    var rs := [Recipient(outputKey, cents)];
    OneRecipient(outputKey, cents);
    var ddChange := dd.coin.ddCents - cents;
    var amounts := TransferAmounts(rs, ddChange);
    assert amounts[0] == cents;
    if ddChange > 0 {
      assert amounts == [cents, ddChange];
      assert amounts[1] == ddChange;
    } else {
      assert amounts == [cents];
    }
  }

  /** The transfer review passes exactly when some DigiDollar coin and some DGB coin make the builder
      succeed, and then the pair it picked does, with the smallest DigiDollar coin that can. */
  lemma TransferReviewIsExact(c: Crypto, dds: seq<OwnedDD>, coins: seq<Coin>, outputKey: Key32, cents: int, change: Bytes)
    ensures TransferReview(dds, coins, cents).Ok? <==>
            exists dd, fee :: dd in dds && fee in coins && ConfirmTransfer(c, dd, fee, outputKey, cents, change).Ok?
    ensures TransferReview(dds, coins, cents).Ok? ==>
              var (dd, fee) := TransferReview(dds, coins, cents).value;
              && dd in dds && fee in coins && ConfirmTransfer(c, dd, fee, outputKey, cents, change).Ok?
              && forall u, f :: u in dds && ConfirmTransfer(c, u, f, outputKey, cents, change).Ok? ==> Cents(dd) <= Cents(u)
  {
    PickedDDIsLeast(dds, cents);
    var dd := PickDDCoin(dds, cents);
    if dd.Some? {
      PickIsBest(coins, TRANSFER_FEE_SATS, Some(dd.value.key));
    }
    forall u, f ensures ConfirmTransfer(c, u, f, outputKey, cents, change).Ok? <==>
                        cents >= MIN_DD_OUTPUT_CENTS && CanSend(u, cents) && f.valueSats >= TRANSFER_FEE_SATS
    {
      BuilderAccepts(c, u, f, outputKey, cents, change);
    }
  }

  // ---- redeem review ----

  function TotalDD(us: seq<OwnedDD>): int {
    Sum(us, Cents)
  }

  function Coins(us: seq<OwnedDD>): (r: seq<DDCoin>)
    ensures |r| == |us|
  {
    seq(|us|, i requires 0 <= i < |us| => us[i].coin)
  }

  lemma {:induction false} CoinsTotal(us: seq<OwnedDD>)
    ensures Sum(Coins(us), CentsOf) == TotalDD(us)
  {
    if us != [] {
      CoinsTotal(us[..|us| - 1]);
      assert Coins(us)[..|us| - 1] == Coins(us[..|us| - 1]);
    }
  }

  lemma {:induction false} PrefixIsLess(us: seq<OwnedDD>, k: nat)
    requires k <= |us| && forall i :: 0 <= i < |us| ==> us[i].coin.ddCents >= 0
    ensures TotalDD(us[..k]) <= TotalDD(us)
  {
    if k == |us| {
      assert us[..k] == us;
    } else {
      PrefixIsLess(us[..|us| - 1], k);
      assert us[..|us| - 1][..k] == us[..k];
    }
  }

  /** The burn set: coins of the position's address, largest first, until they cover it. None is the
      review's error. */
  method FillBurn(sorted: seq<OwnedDD>, needCents: int) returns (burn: Option<seq<OwnedDD>>)
    requires forall i :: 0 <= i < |sorted| ==> sorted[i].coin.ddCents >= 0
    ensures burn.Some? <==> TotalDD(sorted) >= needCents
    ensures burn.Some? ==>
              && burn.value <= sorted && TotalDD(burn.value) >= needCents
              && forall k :: 0 <= k < |burn.value| ==> TotalDD(burn.value[..k]) < needCents
  {
    var taken: seq<OwnedDD> := [];
    var got := 0;
    for i := 0 to |sorted|
      invariant taken == sorted[..i] && got == TotalDD(taken)
      invariant forall k :: 0 <= k < i ==> TotalDD(sorted[..k]) < needCents
    {
      if got >= needCents {
        break;
      }
      assert sorted[..i + 1][..i] == sorted[..i];
      taken := taken + [sorted[i]];
      got := got + sorted[i].coin.ddCents;
      assert taken == sorted[..i + 1];
    }
    if got < needCents {
      assert taken == sorted[..|sorted|] == sorted;
      return None;
    }
    PrefixIsLess(sorted, |taken|);
    forall k | 0 <= k < |taken| ensures TotalDD(taken[..k]) < needCents {
      assert taken[..k] == sorted[..k];
    }
    burn := Some(taken);
  }

  /** A filled burn set and a picked fee coin never make the redeem builder throw. */
  lemma FilledBurnRedeems(c: Crypto, col: Collateral, burn: seq<OwnedDD>, coins: seq<Coin>, key: Key, change: Bytes)
    requires TotalDD(burn) >= col.ddCents && PickDgbCoin(coins, 12_000_000, Some(key)).Some?
    ensures BuildRedeem(c, col, Coins(burn), PickDgbCoin(coins, 12_000_000, Some(key)).value, key, 12_000_000, Some(change)).Ok?
  {
    CoinsTotal(burn);
    PickIsBest(coins, 12_000_000, Some(key));
  }
}
