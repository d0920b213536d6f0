/** envelope.js: the nVersion marker and the OP_RETURN metadata of DigiDollar transactions. */
module Envelope {
  import opened Common
  import opened Positional

  // ---- nVersion ----

  datatype DDType = Mint | Transfer | Redeem

  const DD_MARKER := 0x0770

  function Code(t: DDType): (c: nat)
    ensures 1 <= c <= 3
  {
    match t
    case Mint => 1
    case Transfer => 2
    case Redeem => 3
  }

  /** (code << 24) | DD_MARKER */
  function BuildDDVersion(t: DDType): int {
    Code(t) * 0x100_0000 + DD_MARKER
  }

  /** The type a marked nVersion announces; None for an unmarked or unknown one. */
  function ParseDDVersion(version: int): Option<DDType> {
    if version % 0x1_0000 != DD_MARKER then None
    else
      var code := version / 0x100_0000 % 256;
      if code == 1 then Some(Mint)
      else if code == 2 then Some(Transfer)
      else if code == 3 then Some(Redeem)
      else None
  }

  /** The third byte of the version is looked at by nobody, and 32-bit wrap-around does not matter. */
  function WithFreeByte(t: DDType, free: byte, wrap: int): int {
    wrap * 0x1_0000_0000 + BuildDDVersion(t) + free * 0x1_0000
  }

  lemma VersionReadsBack(t: DDType, free: byte, wrap: int)
    ensures ParseDDVersion(WithFreeByte(t, free, wrap)) == Some(t)
  {
    var v := WithFreeByte(t, free, wrap);
    assert v % 0x1_0000 == DD_MARKER by {
      DivModUnique(0x1_0000, v / 0x1_0000, v % 0x1_0000, wrap * 0x1_0000 + Code(t) * 256 + free, DD_MARKER);
    }
    DivModUnique(0x100_0000, v / 0x100_0000, v % 0x100_0000, wrap * 256 + Code(t), free * 0x1_0000 + DD_MARKER);
    DivModUnique(256, v / 0x100_0000 / 256, v / 0x100_0000 % 256, wrap, Code(t));
  }

  /** And no other version announces t. */
  lemma VersionOnlyThen(t: DDType, version: int)
    requires ParseDDVersion(version) == Some(t)
    ensures version == WithFreeByte(t, version / 0x1_0000 % 256, version / 0x1_0000_0000)
  {
    var high := version / 0x100_0000;
    assert high % 256 == Code(t);
    var mid := version / 0x1_0000;
    assert mid / 256 == high && mid == 256 * high + mid % 256;
    assert high / 256 == version / 0x1_0000_0000;
    assert high == 256 * (high / 256) + high % 256;
  }

  // ---- CScriptNum ----

  /** reduceRight: the little-endian value of a push. */
  function LeValue(s: Bytes): nat {
    if s == [] then 0 else s[0] + 256 * LeValue(s[1..])
  }

  function LeDigits(v: nat): (r: Bytes)
    ensures r == [] <==> v == 0
    ensures r != [] ==> r[|r| - 1] != 0
  {
    if v == 0 then [] else [v % 256] + LeDigits(v / 256)
  }

  function SignPad(d: Bytes): Bytes {
    if d != [] && d[|d| - 1] >= 0x80 then d + [0] else d
  }

  function LeMinimal(v: nat): Bytes {
    SignPad(LeDigits(v))
  }

  /** leMinimal; None is its RangeError. */
  method EncodeLeMinimal(value: int) returns (r: Option<Bytes>)
    ensures r == if value < 0 then None else Some(LeMinimal(value))
  {
    if value < 0 {
      return None;
    }
    var v: nat := value;
    if v == 0 {
      return Some([]);
    }
    var out: Bytes := [];
    while v > 0
      invariant out + LeDigits(v) == LeDigits(value)
    {
      out := out + [v % 256];
      v := v / 256;
    }
    assert out + LeDigits(v) == out;
    if out[|out| - 1] >= 0x80 {
      out := out + [0x00];
    }
    r := Some(out);
  }

  method LeToBigInt(s: Bytes) returns (acc: nat)
    ensures acc == LeValue(s)
  {
    acc := 0;
    var i := |s|;
    while i > 0
      invariant 0 <= i <= |s| && acc == LeValue(s[i..])
    {
      i := i - 1;
      assert s[i..][1..] == s[i + 1..];
      acc := acc * 256 + s[i];
    }
    assert s[0..] == s;
  }

  /** A non-negative CScriptNum: the top bit of the last byte, its sign, is clear. */
  predicate NonNegative(s: Bytes) {
    s != [] ==> s[|s| - 1] < 0x80
  }

  /** No byte could be dropped: the last one is non-zero or carries the sign for the one before it. */
  predicate Minimal(s: Bytes) {
    s != [] ==> s[|s| - 1] != 0 || (|s| > 1 && s[|s| - 2] >= 0x80)
  }

  lemma {:induction false} DigitsValue(v: nat)
    ensures LeValue(LeDigits(v)) == v
  {
    if v > 0 {
      DigitsValue(v / 256);
      assert LeDigits(v)[1..] == LeDigits(v / 256);
    }
  }

  lemma {:induction false} ValueOfPadded(d: Bytes)
    ensures LeValue(d + [0]) == LeValue(d)
  {
    if d != [] {
      assert (d + [0])[1..] == d[1..] + [0];
      ValueOfPadded(d[1..]);
    }
  }

  /** Digits without a trailing zero are determined by their value. */
  lemma {:induction false} DigitsUnique(s: Bytes)
    requires s != [] ==> s[|s| - 1] != 0
    ensures LeDigits(LeValue(s)) == s
  {
    if s != [] {
      if |s| > 1 {
        assert s[1..][|s[1..]| - 1] != 0;
      }
      DigitsUnique(s[1..]);
      assert LeValue(s) % 256 == s[0] && LeValue(s) / 256 == LeValue(s[1..]);
      assert s == [s[0]] + s[1..];
    }
  }

  /** leMinimal writes the one minimal non-negative CScriptNum of its value, and nothing else is. */
  lemma MinimalIffWritten(s: Bytes, v: nat)
    ensures s == LeMinimal(v) <==> NonNegative(s) && Minimal(s) && LeValue(s) == v
  {
    var d := LeDigits(v);
    DigitsValue(v);
    ValueOfPadded(d);
    if NonNegative(s) && Minimal(s) && LeValue(s) == v {
      if s != [] && s[|s| - 1] == 0 {
        var t := s[..|s| - 1];
        assert s == t + [0];
        ValueOfPadded(t);
        DigitsUnique(t);
      } else {
        DigitsUnique(s);
      }
    }
  }

  lemma {:induction false} DigitsLength(v: nat, n: nat)
    ensures |LeDigits(v)| <= n <==> v < Pow(256, n)
    decreases v
  {
    if v > 0 && n > 0 {
      DigitsLength(v / 256, n - 1);
      assert v < 256 * Pow(256, n - 1) <==> v / 256 < Pow(256, n - 1);
    }
  }

  lemma {:induction false} TopDigit(v: nat, n: nat)
    requires |LeDigits(v)| == n > 0
    ensures LeDigits(v)[n - 1] < 0x80 <==> 2 * v < Pow(256, n)
    decreases v
  {
    if n > 1 {
      TopDigit(v / 256, n - 1);
      assert 2 * v < 256 * Pow(256, n - 1) <==> 2 * (v / 256) < Pow(256, n - 1) by {
        HalfStep(v, Pow(256, n - 2));
      }
    } else {
      assert LeDigits(v) == [v % 256] + LeDigits(v / 256);
    }
  }

  lemma HalfStep(v: nat, p: nat)
    ensures 2 * v < 256 * (256 * p) <==> 2 * (v / 256) < 256 * p
  {
  }

  /** The push range: a number takes at most n bytes exactly when twice it is below 256^n. */
  lemma PushRange(v: nat, n: nat)
    requires n > 0
    ensures |LeMinimal(v)| <= n <==> 2 * v < Pow(256, n)
  {
    DigitsLength(v, n);
    DigitsLength(v, n - 1);
    var k := |LeDigits(v)|;
    if k == n {
      TopDigit(v, n);
    } else if k < n {
      assert 256 * Pow(256, n - 1) >= 2 * Pow(256, n - 1);
    }
  }

  // ---- pushes ----

  const MAX_PUSH := 75
  const OP_RETURN: byte := 0x6a

  function Push(p: Bytes): Bytes {
    [|p| % 256] + p
  }

  function PushAll(ps: seq<Bytes>): Bytes {
    if ps == [] then [] else Push(ps[0]) + PushAll(ps[1..])
  }

  /** subarray: both ends clamp to the string. */
  function Sub(s: Bytes, from: nat, to: nat): Bytes
    requires from <= to
  {
    if from >= |s| then [] else if to >= |s| then s[from..] else s[from..to]
  }

  function From(s: Bytes, i: nat): Bytes {
    if i >= |s| then [] else s[i..]
  }

  function Before(first: seq<Bytes>, rest: Option<seq<Bytes>>): Option<seq<Bytes>> {
    if rest == None then None else Some(first + rest.value)
  }

  lemma BeforeBefore(first: seq<Bytes>, p: Bytes, rest: Option<seq<Bytes>>)
    ensures Before(first, Before([p], rest)) == Before(first + [p], rest)
  {
    if rest.Some? {
      assert first + ([p] + rest.value) == (first + [p]) + rest.value;
    }
  }

  lemma BeforeNothing(rest: Option<seq<Bytes>>)
    ensures Before([], rest) == rest
  {
    if rest.Some? {
      assert [] + rest.value == rest.value;
    }
  }

  /** The pushes after OP_RETURN; the last may be cut short by the end of the script. */
  function Pushes(s: Bytes): Option<seq<Bytes>>
    decreases |s|
  {
    if s == [] then Some([])
    else if s[0] > MAX_PUSH then None
    else
      Before([Sub(s, 1, 1 + s[0])], Pushes(From(s, 1 + s[0])))
  }

  function ScriptPushes(script: Bytes): Option<seq<Bytes>> {
    if script == [] || script[0] != OP_RETURN then None else Pushes(script[1..])
  }

  /** readPushes from index i on, with the pushes read so far. */
  function ReadFrom(script: Bytes, i: nat, pushes: seq<Bytes>): Option<seq<Bytes>>
    decreases |script| - i, pushes
  {
    if i >= |script| then Some(pushes)
    else if script[i] > MAX_PUSH then None
    else ReadFrom(script, i + 1 + script[i], pushes + [Sub(script, i + 1, i + 1 + script[i])])
  }

  lemma OnePushBefore(read: Option<seq<Bytes>>, first: seq<Bytes>, p: Bytes, rest: Option<seq<Bytes>>, whole: Option<seq<Bytes>>)
    requires read == Before(first + [p], rest) && whole == Before([p], rest)
    ensures read == Before(first, whole)
  {
    BeforeBefore(first, p, rest);
  }

  /** The indexed reader yields what it had, and then the pushes of the rest. */
  lemma {:induction false} ReadFromIsPushes(script: Bytes, i: nat, pushes: seq<Bytes>)
    ensures ReadFrom(script, i, pushes) == Before(pushes, Pushes(From(script, i)))
    decreases |script| - i
  {
    if i >= |script| {
      assert pushes + [] == pushes;
    } else if script[i] > MAX_PUSH {
      PushesAt(script, i);
    } else {
      var next := i + 1 + script[i];
      var p, rest := Sub(script, i + 1, next), Pushes(From(script, next));
      ReadFromIsPushes(script, next, pushes + [p]);
      var whole := Pushes(From(script, i));
      assert whole == Before([p], rest) by { PushesAt(script, i); }
      OnePushBefore(ReadFrom(script, next, pushes + [p]), pushes, p, rest, whole);
    }
  }

  lemma ReadFromStart(script: Bytes)
    requires script != [] && script[0] == OP_RETURN
    ensures ReadFrom(script, 1, []) == ScriptPushes(script)
  {
    ReadFromIsPushes(script, 1, []);
    assert From(script, 1) == script[1..];
    BeforeNothing(Pushes(script[1..]));
  }

  /** readPushes, with its index; None is a RangeError. */
  method ReadPushes(script: Bytes) returns (r: Option<seq<Bytes>>)
    ensures r == ScriptPushes(script)
  {
    if script == [] || script[0] != OP_RETURN {
      return None;
    }
    ReadFromStart(script);
    var pushes: seq<Bytes> := [];
    var i := 1;
    while i < |script|
      invariant 1 <= i
      invariant ReadFrom(script, 1, []) == ReadFrom(script, i, pushes)
      decreases |script| - i
    {
      var len := script[i];
      if len > 75 {
        return None;
      }
      pushes := pushes + [Sub(script, i + 1, i + 1 + len)];
      i := i + 1 + len;
    }
    r := Some(pushes);
  }

  lemma PushesAt(script: Bytes, i: nat)
    requires i < |script|
    ensures var len := script[i];
            Pushes(From(script, i)) ==
            if len > MAX_PUSH then None
            else Before([Sub(script, i + 1, i + 1 + len)], Pushes(From(script, i + 1 + len)))
  {
    CutAt(script, i);
  }

  lemma CutAt(script: Bytes, i: nat)
    requires i < |script|
    ensures var s := From(script, i);
            var len: int := script[i];
            && s != [] && s[0] == len
            && Sub(s, 1, 1 + len) == Sub(script, i + 1, i + 1 + len) && From(s, 1 + len) == From(script, i + 1 + len)
  {
  }

  lemma PushesOfOne(p: Bytes, rest: Bytes)
    requires |p| <= MAX_PUSH
    ensures Pushes(Push(p) + rest) == Before([p], Pushes(rest))
  {
    var s := Push(p) + rest;
    assert s[0] == |p| && s == [s[0]] + p + rest;
    assert Sub(s, 1, 1 + |p|) == p;
    assert From(s, 1 + |p|) == rest;
  }

  /** A list of pushes reads back as itself exactly when every one is a direct push (at most 75 bytes). */
  lemma {:induction false} PushesReadBack(ps: seq<Bytes>)
    ensures Pushes(PushAll(ps)) == Some(ps) <==> forall i :: 0 <= i < |ps| ==> |ps[i]| <= MAX_PUSH
  {
    if ps != [] {
      var s := PushAll(ps);
      if |ps[0]| <= MAX_PUSH {
        PushesOfOne(ps[0], PushAll(ps[1..]));
        PushesReadBack(ps[1..]);
        assert ps == [ps[0]] + ps[1..];
        assert forall i :: 1 <= i < |ps| ==> ps[i] == ps[1..][i - 1];
      } else if Pushes(s).Some? {
        assert s[0] == |ps[0]| % 256;
        assert Pushes(s).value[0] == Sub(s, 1, 1 + s[0]);
        assert |Pushes(s).value[0]| <= MAX_PUSH;
      }
    }
  }

  // ---- metadata ----

  const MAGIC: Bytes := [0x44, 0x44]

  datatype MintMeta = MintMeta(ddCents: nat, unlockHeight: nat, lockTier: nat, ownerKey: Bytes)

  predicate Fits(v: nat) {
    |LeMinimal(v)| <= MAX_PUSH
  }

  function MintScript(m: MintMeta): Bytes {
    [OP_RETURN] + PushAll([MAGIC, [Code(Mint)], LeMinimal(m.ddCents), LeMinimal(m.unlockHeight),
                           LeMinimal(m.lockTier), m.ownerKey])
  }

  function BuildMintMetadata(m: MintMeta): Option<Bytes> {
    if |m.ownerKey| != 32 then None else Some(MintScript(m))
  }

  function ParseMintMetadata(script: Bytes): Option<MintMeta> {
    var r := ScriptPushes(script);
    if r == None then None
    else
      var ps := r.value;
      if |ps| != 6 || ps[0] != MAGIC || ps[1] != [Code(Mint)] || |ps[5]| != 32 then None
      else Some(MintMeta(LeValue(ps[2]), LeValue(ps[3]), LeValue(ps[4]), ps[5]))
  }

  function Encoded(amounts: seq<nat>): (r: seq<Bytes>)
    ensures |r| == |amounts|
    ensures forall i :: 0 <= i < |r| ==> r[i] == LeMinimal(amounts[i])
  {
    seq(|amounts|, i requires 0 <= i < |amounts| => LeMinimal(amounts[i]))
  }

  function Decoded(pushes: seq<Bytes>): (r: seq<nat>)
    ensures |r| == |pushes|
    ensures forall i :: 0 <= i < |r| ==> r[i] == LeValue(pushes[i])
  {
    seq(|pushes|, i requires 0 <= i < |pushes| => LeValue(pushes[i]))
  }

  function TransferScript(amounts: seq<nat>): Bytes {
    [OP_RETURN] + PushAll([MAGIC, [Code(Transfer)]] + Encoded(amounts))
  }

  predicate AllPositive(amounts: seq<int>) {
    forall i :: 0 <= i < |amounts| ==> amounts[i] > 0
  }

  /** buildTransferMetadata, appending one push per amount; None is a RangeError. */
  method BuildTransferMetadata(amounts: seq<int>) returns (r: Option<Bytes>)
    ensures r == if amounts != [] && AllPositive(amounts) then Some(TransferScript(amounts)) else None
  {
    if amounts == [] {
      return None;
    }
    var parts := [OP_RETURN] + Push(MAGIC) + Push([Code(Transfer)]);
    for k := 0 to |amounts|
      invariant AllPositive(amounts[..k])
      invariant parts == [OP_RETURN] + Push(MAGIC) + Push([Code(Transfer)]) + PushAll(Encoded(amounts[..k]))
    {
      if amounts[k] <= 0 {
        return None;
      }
      var one := EncodeLeMinimal(amounts[k]);
      parts := parts + Push(one.value);
      AmountAppended(amounts[..k], amounts[k]);
      assert amounts[..k + 1] == amounts[..k] + [amounts[k]];
    }
    assert amounts[..|amounts|] == amounts;
    TransferScriptParts(amounts);
    r := Some(parts);
  }

  lemma AmountAppended(amounts: seq<nat>, v: nat)
    ensures PushAll(Encoded(amounts + [v])) == PushAll(Encoded(amounts)) + Push(LeMinimal(v))
  {
    assert Encoded(amounts + [v]) == Encoded(amounts) + [LeMinimal(v)];
    PushAllAppend(Encoded(amounts), LeMinimal(v));
  }

  lemma TransferScriptParts(amounts: seq<nat>)
    ensures TransferScript(amounts)
         == [OP_RETURN] + Push(MAGIC) + Push([Code(Transfer)]) + PushAll(Encoded(amounts))
  {
    var ps := [MAGIC, [Code(Transfer)]] + Encoded(amounts);
    assert ps[1..] == [[Code(Transfer)]] + Encoded(amounts);
    assert ps[1..][1..] == Encoded(amounts);
    assert PushAll(ps) == Push(MAGIC) + PushAll(ps[1..]);
    assert PushAll(ps[1..]) == Push([Code(Transfer)]) + PushAll(Encoded(amounts));
  }

  lemma {:induction false} PushAllAppend(ps: seq<Bytes>, p: Bytes)
    ensures PushAll(ps + [p]) == PushAll(ps) + Push(p)
  {
    if ps == [] {
      assert ps + [p] == [p] && [p][1..] == [];
      assert PushAll([p]) == Push(p) + PushAll([]);
    } else {
      assert (ps + [p])[1..] == ps[1..] + [p];
      PushAllAppend(ps[1..], p);
    }
  }

  function ParseTransferMetadata(script: Bytes): Option<seq<nat>> {
    var r := ScriptPushes(script);
    if r == None then None
    else
      var ps := r.value;
      if |ps| < 3 || ps[0] != MAGIC || ps[1] != [Code(Transfer)] then None
      else Some(Decoded(ps[2..]))
  }

  function RedeemScript(changeCents: nat): Bytes {
    [OP_RETURN] + PushAll([MAGIC, [Code(Redeem)], LeMinimal(changeCents)])
  }

  function BuildRedeemMetadata(changeCents: int): Option<Bytes> {
    if changeCents <= 0 then None else Some(RedeemScript(changeCents))
  }

  function ParseRedeemMetadata(script: Bytes): Option<nat> {
    var r := ScriptPushes(script);
    if r == None then None
    else
      var ps := r.value;
      if |ps| != 3 || ps[0] != MAGIC || ps[1] != [Code(Redeem)] then None
      else Some(LeValue(ps[2]))
  }

  lemma NumberReadsBack(v: nat)
    ensures LeValue(LeMinimal(v)) == v
  {
    MinimalIffWritten(LeMinimal(v), v);
  }

  /** A key of another length is refused; whatever else is built reads back. */
  lemma MintReadsBack(m: MintMeta)
    requires Fits(m.ddCents) && Fits(m.unlockHeight) && Fits(m.lockTier)
    ensures BuildMintMetadata(m).Some? <==> |m.ownerKey| == 32
    ensures BuildMintMetadata(m).Some? ==> ParseMintMetadata(BuildMintMetadata(m).value) == Some(m)
  {
    if |m.ownerKey| == 32 {
      MintScriptReadsBack(m);
    }
  }

  lemma MintScriptReadsBack(m: MintMeta)
    requires |m.ownerKey| == 32 && Fits(m.ddCents) && Fits(m.unlockHeight) && Fits(m.lockTier)
    ensures ParseMintMetadata(MintScript(m)) == Some(m)
  {
    var ps := [MAGIC, [Code(Mint)], LeMinimal(m.ddCents), LeMinimal(m.unlockHeight), LeMinimal(m.lockTier), m.ownerKey];
    PushesReadBack(ps);
    assert MintScript(m)[1..] == PushAll(ps);
    NumberReadsBack(m.ddCents);
    NumberReadsBack(m.unlockHeight);
    NumberReadsBack(m.lockTier);
  }

  lemma TransferReadsBack(amounts: seq<nat>)
    requires amounts != [] && forall i :: 0 <= i < |amounts| ==> Fits(amounts[i])
    ensures ParseTransferMetadata(TransferScript(amounts)) == Some(amounts)
  {
    var ps := [MAGIC, [Code(Transfer)]] + Encoded(amounts);
    assert forall i :: 2 <= i < |ps| ==> ps[i] == LeMinimal(amounts[i - 2]);
    PushesReadBack(ps);
    assert TransferScript(amounts)[1..] == PushAll(ps);
    assert ps[2..] == Encoded(amounts);
    forall i | 0 <= i < |amounts| ensures Decoded(Encoded(amounts))[i] == amounts[i] {
      NumberReadsBack(amounts[i]);
    }
    assert Decoded(Encoded(amounts)) == amounts;
  }

  /** No change, or less than none, is refused; whatever else is built reads back. */
  lemma RedeemReadsBack(changeCents: int)
    requires changeCents > 0 ==> Fits(changeCents)
    ensures BuildRedeemMetadata(changeCents).Some? <==> changeCents > 0
    ensures BuildRedeemMetadata(changeCents).Some? ==>
              ParseRedeemMetadata(BuildRedeemMetadata(changeCents).value) == Some(changeCents)
  {
    if changeCents > 0 {
      RedeemScriptReadsBack(changeCents);
    }
  }

  lemma RedeemScriptReadsBack(changeCents: nat)
    requires Fits(changeCents)
    ensures ParseRedeemMetadata(RedeemScript(changeCents)) == Some(changeCents)
  {
    var ps := [MAGIC, [Code(Redeem)], LeMinimal(changeCents)];
    PushesReadBack(ps);
    assert RedeemScript(changeCents)[1..] == PushAll(ps);
    NumberReadsBack(changeCents);
  }

  /** The metadata of a mint and of a transfer that Core itself made. */
  lemma KnownScripts(owner: Key32)
    ensures MintScript(MintMeta(10_000, 1_037_552, 3, owner))
         == [0x6a, 2, 0x44, 0x44, 1, 1, 2, 0x10, 0x27, 3, 0xf0, 0xd4, 0x0f, 1, 3, 0x20] + owner
    ensures TransferScript([3_000, 7_000]) == [0x6a, 2, 0x44, 0x44, 1, 2, 2, 0xb8, 0x0b, 2, 0x58, 0x1b]
  {
    KnownNumbers();
    SixPushes(MAGIC, [1], [0x10, 0x27], [0xf0, 0xd4, 0x0f], [3], owner);
    KnownTransfer();
  }

  lemma KnownTransfer()
    requires LeMinimal(3_000) == [0xb8, 0x0b] && LeMinimal(7_000) == [0x58, 0x1b]
    ensures TransferScript([3_000, 7_000]) == [0x6a, 2, 0x44, 0x44, 1, 2, 2, 0xb8, 0x0b, 2, 0x58, 0x1b]
  {
    var amounts: seq<nat> := [3_000, 7_000];
    assert Encoded(amounts) == [LeMinimal(3_000), LeMinimal(7_000)];
    FourPushes(MAGIC, [2], [0xb8, 0x0b], [0x58, 0x1b]);
    assert [MAGIC, [2]] + Encoded(amounts) == [MAGIC, [2], [0xb8, 0x0b], [0x58, 0x1b]];
  }

  lemma KnownNumbers()
    ensures LeMinimal(10_000) == [0x10, 0x27] && LeMinimal(1_037_552) == [0xf0, 0xd4, 0x0f] && LeMinimal(3) == [3]
    ensures LeMinimal(3_000) == [0xb8, 0x0b] && LeMinimal(7_000) == [0x58, 0x1b]
  {
    TwoBytes(0x10, 0x27);
    ThreeBytes(0xf0, 0xd4, 0x0f);
    OneByte(3);
    TwoBytes(0xb8, 0x0b);
    TwoBytes(0x58, 0x1b);
  }

  lemma OneByte(a: byte)
    requires 0 < a < 0x80
    ensures LeMinimal(a) == [a]
  {
    var s: Bytes := [a];
    assert s[1..] == [];
    MinimalIffWritten(s, a);
  }

  lemma TwoBytes(a: byte, b: byte)
    requires 0 < b < 0x80
    ensures LeMinimal(a + 256 * b) == [a, b]
  {
    var s: Bytes := [a, b];
    var t: Bytes := [b];
    assert s[1..] == t && t[1..] == [];
    assert LeValue(t) == b + 256 * LeValue(t[1..]);
    MinimalIffWritten(s, a + 256 * b);
  }

  lemma ThreeBytes(a: byte, b: byte, c: byte)
    requires 0 < c < 0x80
    ensures LeMinimal(a + 256 * (b + 256 * c)) == [a, b, c]
  {
    var s: Bytes := [a, b, c];
    var t: Bytes := [b, c];
    var u: Bytes := [c];
    assert s[1..] == t && t[1..] == u && u[1..] == [];
    assert LeValue(t) == b + 256 * LeValue(u) && LeValue(u) == c + 256 * LeValue(u[1..]);
    MinimalIffWritten(s, a + 256 * (b + 256 * c));
  }

  lemma FirstPush(p: Bytes, rest: seq<Bytes>)
    ensures PushAll([p] + rest) == Push(p) + PushAll(rest)
  {
    assert ([p] + rest)[1..] == rest;
  }

  lemma FourPushes(p0: Bytes, p1: Bytes, p2: Bytes, p3: Bytes)
    ensures PushAll([p0, p1, p2, p3]) == Push(p0) + (Push(p1) + (Push(p2) + Push(p3)))
  {
    FirstPush(p0, [p1, p2, p3]);
    FirstPush(p1, [p2, p3]);
    FirstPush(p2, [p3]);
    FirstPush(p3, []);
    assert [p0] + [p1, p2, p3] == [p0, p1, p2, p3] && [p1] + [p2, p3] == [p1, p2, p3] && [p2] + [p3] == [p2, p3];
    assert [p3] + [] == [p3] && Push(p3) + PushAll([]) == Push(p3);
  }

  lemma SixPushes(p0: Bytes, p1: Bytes, p2: Bytes, p3: Bytes, p4: Bytes, p5: Bytes)
    ensures PushAll([p0, p1, p2, p3, p4, p5]) == Push(p0) + (Push(p1) + (Push(p2) + (Push(p3) + (Push(p4) + Push(p5)))))
  {
    FirstPush(p0, [p1, p2, p3, p4, p5]);
    FirstPush(p1, [p2, p3, p4, p5]);
    FourPushes(p2, p3, p4, p5);
    assert [p0] + [p1, p2, p3, p4, p5] == [p0, p1, p2, p3, p4, p5] && [p1] + [p2, p3, p4, p5] == [p1, p2, p3, p4, p5];
  }

  /** No script is metadata of two types. */
  lemma OneTypePerScript(script: Bytes)
    ensures ParseMintMetadata(script).Some? ==> ParseTransferMetadata(script) == None && ParseRedeemMetadata(script) == None
    ensures ParseTransferMetadata(script).Some? ==> ParseRedeemMetadata(script) == None
  {
    assert [Code(Mint)][0] != [Code(Transfer)][0] && [Code(Mint)][0] != [Code(Redeem)][0]
        && [Code(Transfer)][0] != [Code(Redeem)][0];
  }
}
