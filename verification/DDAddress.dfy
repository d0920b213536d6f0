/** DigiDollar addresses (address.js): the base58check form, its two-letter prefixes, and the decoder that
    takes either that form or a taproot witness address. */
module DDAddress {
  import opened Common
  import opened Positional
  import B58 = Base58
  import W = Bech32
  import Laws = Bech32Laws
  import G = BitGroups

  type Check4 = s: Bytes | |s| == 4 witness seq(4, i => 0)

  /** The first four bytes of the double SHA-256. */
  type Sum4 = Bytes -> Check4

  datatype Network = Mainnet | Testnet | Regtest

  function Version(n: Network): (v: Bytes)
    ensures |v| == 2
  {
    match n
    case Mainnet => [0x52, 0x85]
    case Testnet => [0xb1, 0x29]
    case Regtest => [0xa3, 0xa4]
  }

  function Hrp(n: Network): string {
    match n
    case Mainnet => "dgb"
    case Testnet => "dgbt"
    case Regtest => "dgbrt"
  }

  // ---- base58check ----

  function CheckEncode(payload: Bytes, sum4: Sum4): string {
    B58.Encode(payload + sum4(payload))
  }

  function CheckDecode(s: string, sum4: Sum4): Option<Bytes> {
    var full := B58.Decode(s);
    if full == None || |full.value| < 4 then None
    else
      var payload := full.value[..|full.value| - 4];
      if full.value[|full.value| - 4..] != sum4(payload) then None else Some(payload)
  }

  // ---- the addresses ----

  function EncodeDD(key: Key32, n: Network, sum4: Sum4): string {
    CheckEncode(Version(n) + key, sum4)
  }

  datatype Destination = Destination(outputKey: Bytes, network: Network)

  predicate HasSpace(s: string) {
    exists i :: 0 <= i < |s| && IsSpace(s[i])
  }

  function BechNetwork(lower: string): Option<Network> {
    if "dgb1" <= lower then Some(Mainnet)
    else if "dgbt1" <= lower then Some(Testnet)
    else if "dgbrt1" <= lower then Some(Regtest)
    else None
  }

  function NetworkOf(payload: Bytes): Option<Network>
    requires |payload| >= 2
  {
    if payload[..2] == Version(Mainnet) then Some(Mainnet)
    else if payload[..2] == Version(Testnet) then Some(Testnet)
    else if payload[..2] == Version(Regtest) then Some(Regtest)
    else None
  }

  /** decodeDDAddress; None is any of its RangeErrors. */
  function DecodeDD(addr: string, sum4: Sum4): Option<Destination> {
    if HasSpace(addr) then None
    else
      var bech := BechNetwork(ToLower(addr));
      if bech.Some? then
        var d := W.Decode(addr);
        if d == None || d.value.hrp != Hrp(bech.value) || d.value.version != 1 || |d.value.program| != 32 then None
        else Some(Destination(d.value.program, bech.value))
      else
        var payload := CheckDecode(addr, sum4);
        if payload == None || |payload.value| != 34 then None
        else
          var n := NetworkOf(payload.value);
          if n == None then None else Some(Destination(payload.value[2..], n.value))
  }

  // ---- the two leading letters ----

  /** The base58 digit of the network's first letter: D, T or R. The second is always D, 12. */
  function FirstDigit(n: Network): nat {
    match n
    case Mainnet => 12
    case Testnet => 26
    case Regtest => 24
  }

  function Letter(n: Network): char {
    match n
    case Mainnet => 'D'
    case Testnet => 'T'
    case Regtest => 'R'
  }

  function VersionValue(n: Network): nat {
    match n
    case Mainnet => 0x5285
    case Testnet => 0xb129
    case Regtest => 0xa3a4
  }

  lemma Pow256()
    ensures Pow(256, 36) == 497323236409786642155382248146820840100456150797347717440463976893159497012533375533056
  {
    assert Pow(256, 4) == 4294967296;
    PowAdd(256, 4, 4);
    PowAdd(256, 8, 8);
    PowAdd(256, 16, 16);
    PowAdd(256, 32, 4);
  }

  lemma Pow58Ten()
    ensures Pow(58, 10) == 430804206899405824
  {
    assert Pow(58, 5) == 656356768;
    PowAdd(58, 5, 5);
  }

  lemma Pow58Forty()
    ensures Pow(58, 40) == 34444488709877454747081479018851205589883534409595458615323760395288576
  {
    Pow58Ten();
    PowAdd(58, 10, 10);
    PowAdd(58, 20, 20);
  }

  lemma Pow58()
    ensures Pow(58, 50) == 14838830640714294999983396511843381888381117770762056659674968992599706869653743415066624
  {
    Pow58Ten();
    Pow58Forty();
    PowAdd(58, 40, 10);
  }

  /** The version bytes put the number in the range whose base58 digits start with the two letters. */
  lemma VersionRange(n: Network)
    ensures (58 * FirstDigit(n) + 12) * Pow(58, 50) <= VersionValue(n) * Pow(256, 36)
    ensures (VersionValue(n) + 1) * Pow(256, 36) <= (58 * FirstDigit(n) + 13) * Pow(58, 50)
  {
    Pow256();
    Pow58();
  }

  /** A base58 numeral whose value is in the range of a leading part starts with that part. */
  lemma LeadingDigits(d: seq<int>, lead: seq<int>, k: nat, n: nat)
    requires Digits(d, 58) && Canonical(d) && Digits(lead, 58) && Canonical(lead) && lead != []
    requires Value(lead, 58) == k && k * Pow(58, n) <= Value(d, 58) < (k + 1) * Pow(58, n)
    ensures |d| == |lead| + n && d[..|lead|] == lead
  {
    NextMultiple(k, Pow(58, n));
    var rest: nat := Value(d, 58) - k * Pow(58, n);
    var low := G.Numeral(rest, 58, n);
    G.NumeralValue(rest, 58, n);
    ValueConcat(lead, low, 58);
    CanonicalUnique(d, lead + low, 58);
  }

  lemma NextMultiple(k: nat, p: nat)
    ensures (k + 1) * p == k * p + p
  {
  }

  lemma PairValue(p: nat, q: nat)
    ensures Value([p, q], 58) == 58 * p + q
  {
    var d := [p, q];
    assert d[..1][..0] == [];
    assert Value(d[..1], 58) == Value(d[..1][..0], 58) * 58 + d[..1][0];
    assert Value(d, 58) == Value(d[..1], 58) * 58 + d[1];
  }

  /** The 38 bytes of a DigiDollar address. */
  function Full(key: Key32, n: Network, sum4: Sum4): (b: Bytes)
    ensures |b| == 38
  {
    Version(n) + key + sum4(Version(n) + key)
  }

  lemma FullValue(key: Key32, n: Network, sum4: Sum4)
    ensures VersionValue(n) * Pow(256, 36) <= Value(Full(key, n, sum4), 256) < (VersionValue(n) + 1) * Pow(256, 36)
  {
    var v, rest := Version(n), key + sum4(Version(n) + key);
    assert Full(key, n, sum4) == v + rest;
    ValueConcat(v, rest, 256);
    ValueBound(rest, 256);
    NextMultiple(VersionValue(n), Pow(256, 36));
    VersionBytes(n);
  }

  lemma VersionBytes(n: Network)
    ensures Value(Version(n), 256) == VersionValue(n)
  {
    var v := Version(n);
    assert v[..1][..0] == [];
    assert Value(v[..1], 256) == Value(v[..1][..0], 256) * 256 + v[..1][0];
    assert Value(v, 256) == Value(v[..1], 256) * 256 + v[1];
  }

  /** For every key and every checksum the address starts with DD, TD or RD. */
  lemma StartsWithLetters(key: Key32, n: Network, sum4: Sum4)
    ensures var s := EncodeDD(key, n, sum4); |s| == 52 && s[0] == Letter(n) && s[1] == 'D'
  {
    var full := Full(key, n, sum4);
    assert EncodeDD(key, n, sum4) == B58.Encode(full);
    EncodesNumeral(full);
    FullDigits(key, n, sum4);
    LetterChars(n);
    FirstChars(B58.Rebase(full, B58.B256, B58.B58));
  }

  lemma FullDigits(key: Key32, n: Network, sum4: Sum4)
    ensures var d := B58.Rebase(Full(key, n, sum4), B58.B256, B58.B58);
            |d| == 52 && d[0] == FirstDigit(n) && d[1] == 12
  {
    var full := Full(key, n, sum4);
    B58.RebaseNumeral(full, B58.B256, B58.B58);
    B58.RebaseValue(full, B58.B256, B58.B58);
    FullValue(key, n, sum4);
    var m := LetterRange(n, Value(full, 256));
    RangeDigits(B58.Rebase(full, B58.B256, B58.B58), FirstDigit(n), m);
  }

  lemma RangeDigits(d: seq<int>, p: nat, m: nat)
    requires Digits(d, 58) && Canonical(d) && 0 < p < 58
    requires (58 * p + 12) * Pow(58, m) <= Value(d, 58) < (58 * p + 13) * Pow(58, m)
    ensures |d| == m + 2 && d[0] == p && d[1] == 12
  {
    var lead := [p, 12];
    PairValue(p, 12);
    LeadingDigits(d, lead, 58 * p + 12, m);
    assert d[0] == lead[0] && d[1] == lead[1];
  }

  lemma LetterRange(n: Network, v: int) returns (m: nat)
    requires VersionValue(n) * Pow(256, 36) <= v < (VersionValue(n) + 1) * Pow(256, 36)
    ensures m + 2 == 52
    ensures (58 * FirstDigit(n) + 12) * Pow(58, m) <= v < (58 * FirstDigit(n) + 13) * Pow(58, m)
  {
    m := 50;
    VersionRange(n);
  }

  lemma EncodesNumeral(full: Bytes)
    requires B58.Numeral(full)
    ensures B58.Encode(full) == B58.Chars(B58.Rebase(full, B58.B256, B58.B58))
  {
    B58.LeadingIff(full, 0);
    assert full[0..] == full;
    assert B58.Zeros(0) + B58.Rebase(full, B58.B256, B58.B58) == B58.Rebase(full, B58.B256, B58.B58);
  }

  lemma FirstChars(d: seq<int>)
    requires Digits(d, 58) && |d| >= 2
    ensures B58.Chars(d)[0] == B58.CharOf(d[0]) && B58.Chars(d)[1] == B58.CharOf(d[1])
  {
  }

  lemma LetterChars(n: Network)
    ensures B58.CharOf(FirstDigit(n)) == Letter(n) && B58.CharOf(12) == 'D'
  {
  }

  // ---- decoding ----

  /** The check is over the whole payload: of the four-byte endings of a payload, the checksum alone is accepted. */
  lemma ChecksumIff(payload: Bytes, ending: Check4, sum4: Sum4)
    requires exists i :: 0 <= i < |payload| && payload[i] != 0
    ensures CheckDecode(B58.Encode(payload + ending), sum4) == if ending == sum4(payload) then Some(payload) else None
  {
    var full := payload + ending;
    var i :| 0 <= i < |payload| && payload[i] != 0;
    assert full[i] != 0;
    B58.DecodeInvertsEncode(full);
    Halves(B58.Encode(full), payload, ending, sum4);
  }

  lemma Halves(s: string, payload: Bytes, ending: Check4, sum4: Sum4)
    requires B58.Decode(s) == Some(payload + ending)
    ensures CheckDecode(s, sum4) == if ending == sum4(payload) then Some(payload) else None
  {
    var full := payload + ending;
    assert full[..|full| - 4] == payload && full[|full| - 4..] == ending;
  }

  /** The bytes of an address: the network's two, the key, and the checksum of all 34. */
  lemma AddressBytes(key: Key32, n: Network, sum4: Sum4)
    ensures var payload := (match n case Mainnet => [0x52, 0x85] case Testnet => [0xb1, 0x29] case Regtest => [0xa3, 0xa4]) + key;
            B58.Decode(EncodeDD(key, n, sum4)) == Some(payload + sum4(payload))
  {
    var payload := Version(n) + key;
    var full := payload + sum4(payload);
    assert full[0] != 0;
    B58.DecodeInvertsEncode(full);
  }

  /** Base58 characters are printable ASCII. */
  lemma NoSpaceInChars(d: seq<int>)
    requires Digits(d, 58)
    ensures !HasSpace(B58.Chars(d))
  {
    forall i | 0 <= i < |d| ensures !IsSpace(B58.Chars(d)[i]) {
      CharIsInk(d[i]);
    }
  }

  lemma CharIsInk(x: int)
    requires 0 <= x < 58
    ensures !IsSpace(B58.CharOf(x))
  {
    B58.B58Inks(x);
  }

  /** A DigiDollar address is never taken for a witness address: no witness prefix starts dd, td or rd. */
  lemma NotBech(s: string, n: Network)
    requires |s| >= 2 && s[0] == Letter(n) && s[1] == 'D'
    ensures BechNetwork(ToLower(s)) == None
  {
    assert ToLower(s)[1] == 'd';
    assert "dgb1"[1] == 'g' && "dgbt1"[1] == 'g' && "dgbrt1"[1] == 'g';
  }

  /** The base58check form decodes to its key and network. */
  lemma DDReadsBack(key: Key32, n: Network, sum4: Sum4)
    ensures DecodeDD(EncodeDD(key, n, sum4), sum4) == Some(Destination(key, n))
  {
    var s := EncodeDD(key, n, sum4);
    var payload := Version(n) + key;
    StartsWithLetters(key, n, sum4);
    NotBech(s, n);
    AddressHasNoSpace(payload + sum4(payload));
    assert payload[0] != 0;
    ChecksumIff(payload, sum4(payload), sum4);
    BaseForm(s, key, n, sum4);
  }

  lemma AddressHasNoSpace(full: Bytes)
    requires B58.Numeral(full)
    ensures !HasSpace(B58.Encode(full))
  {
    EncodesNumeral(full);
    NoSpaceInChars(B58.Rebase(full, B58.B256, B58.B58));
  }

  lemma BaseForm(s: string, key: Key32, n: Network, sum4: Sum4)
    requires !HasSpace(s) && BechNetwork(ToLower(s)) == None && CheckDecode(s, sum4) == Some(Version(n) + key)
    ensures DecodeDD(s, sum4) == Some(Destination(key, n))
  {
    var payload := Version(n) + key;
    assert payload[..2] == Version(n) && payload[2..] == key;
  }

  /** A taproot witness address of a network, in either case, decodes to its program and that network. */
  lemma WitnessReadsBack(addr: string, key: Key32, n: Network, sum4: Sum4)
    requires W.Decode(addr) == Some(W.Decoded(Hrp(n), 1, key))
    ensures DecodeDD(addr, sum4) == Some(Destination(key, n))
  {
    WitnessString(addr, key, n);
    WitnessNetwork(addr, n);
  }

  lemma WitnessString(addr: string, key: Key32, n: Network)
    requires W.Decode(addr) == Some(W.Decoded(Hrp(n), 1, key))
    ensures Hrp(n) + "1" <= ToLower(addr) && !HasSpace(addr)
  {
    Laws.EncodeInvertsDecode(addr);
    var full := EncodedForm(Hrp(n), key);
    Plain(addr, Hrp(n), full);
    HrpInk(n);
  }

  lemma EncodedForm(hrp: string, key: Key32) returns (full: seq<int>)
    ensures W.Groups(full) && W.Encode(hrp, 1, key) == Some(hrp + "1" + W.Chars(full))
  {
    var data := W.DataOf(1, key);
    full := data + W.Checksum(hrp, data, 1);
  }

  /** No space in a prefix means none in an address on it. */
  lemma Plain(addr: string, hrp: string, full: seq<int>)
    requires W.Groups(full) && ToLower(addr) == hrp + "1" + W.Chars(full)
    ensures !HasSpace(hrp) ==> !HasSpace(addr)
  {
    var lower := hrp + "1" + W.Chars(full);
    if !HasSpace(hrp) {
      forall i | 0 <= i < |addr| ensures !IsSpace(addr[i]) {
        LowerInk(addr[i]);
        if i < |hrp| {
          assert lower[i] == hrp[i];
        } else if i > |hrp| {
          assert lower[i] == W.CharOf(full[i - |hrp| - 1]);
          W.CharsetInk(full[i - |hrp| - 1]);
        }
      }
    }
  }

  lemma HrpInk(n: Network)
    ensures !HasSpace(Hrp(n))
  {
  }

  lemma LowerInk(c: char)
    ensures IsSpace(c) ==> LowerChar(c) == c
  {
  }

  lemma WitnessNetwork(addr: string, n: Network)
    requires Hrp(n) + "1" <= ToLower(addr)
    ensures BechNetwork(ToLower(addr)) == Some(n)
  {
    var lower := ToLower(addr);
    assert forall i :: 0 <= i < |Hrp(n)| + 1 ==> lower[i] == (Hrp(n) + "1")[i];
    match n
    case Mainnet =>
      assert "dgb" + "1" == "dgb1";
    case Testnet =>
      assert "dgbt" + "1" == "dgbt1" && lower[3] == 't';
      assert "dgb1"[3] == '1';
    case Regtest =>
      assert "dgbrt" + "1" == "dgbrt1" && lower[3] == 'r';
      assert "dgb1"[3] == '1' && "dgbt1"[3] == 't';
  }

  /** Both forms of a key come to the same destination, and toDDAddress of either is the base58check form. */
  lemma BothFormsAgree(key: Key32, n: Network, sum4: Sum4)
    ensures var w := W.Encode(Hrp(n), 1, key);
            w.Some? && DecodeDD(w.value, sum4) == DecodeDD(EncodeDD(key, n, sum4), sum4) == Some(Destination(key, n))
  {
    var w := W.Encode(Hrp(n), 1, key);
    Laws.DecodeInvertsEncode(Hrp(n), 1, key);
    WitnessLength(key, n);
    HrpIsLower(n);
    WitnessReadsBack(w.value, key, n, sum4);
    DDReadsBack(key, n, sum4);
  }

  lemma HrpIsLower(n: Network)
    ensures Hrp(n) != "" && ToLower(Hrp(n)) == Hrp(n)
  {
  }

  lemma WitnessLength(key: Key32, n: Network)
    ensures |W.Encode(Hrp(n), 1, key).value| <= 90
  {
    W.ByteDigits(key);
    G.BytesSurvive(key);
    var q, rem, m, k := G.PaddedLength(32);
    G.RegroupIs(key, 8, 5, true, G.Number(key, G.Unit(8)), q, rem);
    assert |W.DataOf(1, key)| == 53;
  }

  /** A key is recovered from its address alone: no two keys or networks share one. */
  lemma DDAddressesDistinct(k1: Key32, n1: Network, k2: Key32, n2: Network, sum4: Sum4)
    requires EncodeDD(k1, n1, sum4) == EncodeDD(k2, n2, sum4)
    ensures k1 == k2 && n1 == n2
  {
    DDReadsBack(k1, n1, sum4);
    DDReadsBack(k2, n2, sum4);
  }

  // ---- nothing else is an address ----

  /** A string is an address of a key on a network exactly when it is the base58check address of the two, or their
      taproot witness address in small letters or in capitals. */
  lemma AcceptsExactly(addr: string, key: Key32, n: Network, sum4: Sum4)
    ensures DecodeDD(addr, sum4) == Some(Destination(key, n)) <==>
            || addr == EncodeDD(key, n, sum4)
            || ((addr == ToLower(addr) || addr == W.ToUpper(addr)) && W.Encode(Hrp(n), 1, key) == Some(ToLower(addr)))
  {
    WitnessForm(addr, key, n, sum4);
    CheckedForm(addr, key, n, sum4);
  }

  lemma WitnessForm(addr: string, key: Key32, n: Network, sum4: Sum4)
    ensures (addr == ToLower(addr) || addr == W.ToUpper(addr)) && W.Encode(Hrp(n), 1, key) == Some(ToLower(addr)) <==>
            DecodeDD(addr, sum4) == Some(Destination(key, n)) && BechNetwork(ToLower(addr)).Some?
  {
    Laws.AcceptsExactly(addr, Hrp(n), 1, key);
    HrpIsLower(n);
    WitnessLength(key, n);
    if W.Decode(addr) == Some(W.Decoded(Hrp(n), 1, key)) {
      WitnessReadsBack(addr, key, n, sum4);
      WitnessString(addr, key, n);
      WitnessNetwork(addr, n);
    }
  }

  lemma CheckedForm(addr: string, key: Key32, n: Network, sum4: Sum4)
    ensures addr == EncodeDD(key, n, sum4) <==>
            DecodeDD(addr, sum4) == Some(Destination(key, n)) && BechNetwork(ToLower(addr)) == None
  {
    if addr == EncodeDD(key, n, sum4) {
      DDReadsBack(key, n, sum4);
      StartsWithLetters(key, n, sum4);
      NotBech(addr, n);
    } else if DecodeDD(addr, sum4) == Some(Destination(key, n)) && BechNetwork(ToLower(addr)) == None {
      OnlyItsString(addr, key, n, sum4);
    }
  }

  lemma OnlyItsString(addr: string, key: Key32, n: Network, sum4: Sum4)
    requires DecodeDD(addr, sum4) == Some(Destination(key, n)) && BechNetwork(ToLower(addr)) == None
    ensures addr == EncodeDD(key, n, sum4)
  {
    var payload, full := Version(n) + key, B58.Decode(addr).value;
    assert CheckDecode(addr, sum4) == Some(payload) by {
      var got := CheckDecode(addr, sum4).value;
      assert got == got[..2] + got[2..];
    }
    Rejoined(full, payload, sum4(payload));
    B58.DecodesIff(addr, payload + sum4(payload));
  }

  lemma Rejoined(full: Bytes, payload: Bytes, ending: Check4)
    requires |full| >= 4 && full[..|full| - 4] == payload && full[|full| - 4..] == ending
    requires payload != [] && payload[0] != 0
    ensures full == payload + ending && (payload + ending)[0] != 0
  {
  }
}
