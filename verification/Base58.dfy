/** base58Encode and base58Decode (address.js): big-number base conversion, one carried digit at a time. */
module Base58 {
  import opened Common
  import opened Positional
  import opened Alphabets

  /** The two bases. */
  datatype Base = B58 | B256

  function Size(b: Base): (n: nat)
    ensures 2 <= n <= 256
  {
    if b == B58 then 58 else 256
  }

  function Rem(x: nat, b: Base): (r: int)
    ensures 0 <= r < Size(b)
  {
    if b == B58 then x % 58 else x % 256
  }

  function Quo(x: nat, b: Base): (q: nat)
    ensures x == Rem(x, b) + Times(q, b)
    ensures x > 0 ==> q < x
  {
    if b == B58 then x / 58 else x / 256
  }

  function Times(x: int, m: Base): (y: int)
    ensures y == x * Size(m)
  {
    if m == B58 then 58 * x else 256 * x
  }

  // ---- digit strings, least significant first ----

  function LowFirst(d: seq<int>, b: Base): int {
    if d == [] then 0 else d[0] + Times(LowFirst(d[1..], b), b)
  }

  /** The digits a carry is pushed as. */
  function Carry(c: nat, b: Base): (d: seq<int>)
    ensures Digits(d, Size(b)) && (d == [] <==> c == 0)
    decreases c, b
  {
    if c == 0 then [] else [Rem(c, b)] + Carry(Quo(c, b), b)
  }

  /** d * m + c, digit by digit. */
  function MulAdd(d: seq<int>, m: Base, c: nat, b: Base): (r: seq<int>)
    requires Digits(d, Size(b))
    ensures Digits(r, Size(b)) && |r| >= |d|
    decreases |d|
  {
    if d == [] then Carry(c, b)
    else
      var x := c + Times(d[0], m);
      [Rem(x, b)] + MulAdd(d[1..], m, Quo(x, b), b)
  }

  /** Horner's rule over the source digits. */
  function Convert(src: seq<int>, m: Base, b: Base, d: seq<int>): (r: seq<int>)
    requires Digits(src, Size(m)) && Digits(d, Size(b))
    ensures Digits(r, Size(b))
    decreases |src|
  {
    if src == [] then d else Convert(src[1..], m, b, MulAdd(d, m, src[0], b))
  }

  /** The two inner loops: run the carry through every digit, then push what is left of it. */
  method MulAddDigits(d: seq<int>, m: Base, c: nat, b: Base) returns (digits: seq<int>)
    requires Digits(d, Size(b))
    ensures digits == MulAdd(d, m, c, b)
  {
    digits := d;
    var carry: nat := c;
    for j := 0 to |d|
      invariant |digits| == |d| && digits[j..] == d[j..]
      invariant digits[..j] + MulAdd(d[j..], m, carry, b) == MulAdd(d, m, c, b)
    {
      var x: nat := carry + Times(digits[j], m);
      assert d[j..][0] == d[j] && d[j..][1..] == d[j + 1..];
      Regroup(digits[..j], [Rem(x, b)], MulAdd(d[j + 1..], m, Quo(x, b), b));
      digits := digits[j := Rem(x, b)];
      carry := Quo(x, b);
      assert digits[..j + 1] == digits[..j] + [Rem(x, b)];
    }
    assert digits[..|d|] == digits;
    digits := PushCarry(digits, carry, b);
  }

  method PushCarry(d: seq<int>, c: nat, b: Base) returns (digits: seq<int>)
    ensures digits == d + Carry(c, b)
  {
    digits := d;
    var carry: nat := c;
    while carry > 0
      invariant digits + Carry(carry, b) == d + Carry(c, b)
      decreases carry
    {
      Regroup(digits, [Rem(carry, b)], Carry(Quo(carry, b), b));
      digits := digits + [Rem(carry, b)];
      carry := Quo(carry, b);
    }
    assert digits + Carry(carry, b) == digits;
  }

  lemma Regroup(x: seq<int>, y: seq<int>, z: seq<int>)
    ensures x + (y + z) == (x + y) + z
  {
  }

  method ConvertDigits(src: seq<int>, m: Base, b: Base) returns (digits: seq<int>)
    requires Digits(src, Size(m))
    ensures digits == Convert(src, m, b, [0])
  {
    digits := [0];
    for i := 0 to |src|
      invariant Digits(digits, Size(b)) && Convert(src[i..], m, b, digits) == Convert(src, m, b, [0])
    {
      assert src[i..][0] == src[i] && src[i..][1..] == src[i + 1..];
      digits := MulAddDigits(digits, m, src[i], b);
    }
  }

  // ---- values ----

  lemma {:induction false} CarryValue(c: nat, b: Base)
    ensures LowFirst(Carry(c, b), b) == c
    decreases c
  {
    if c > 0 {
      CarryValue(Quo(c, b), b);
      assert Carry(c, b)[1..] == Carry(Quo(c, b), b);
    }
  }

  lemma {:induction false} MulAddValue(d: seq<int>, m: Base, c: nat, b: Base)
    requires Digits(d, Size(b))
    ensures LowFirst(MulAdd(d, m, c, b), b) == Times(LowFirst(d, b), m) + c
    decreases |d|
  {
    if d == [] {
      CarryValue(c, b);
    } else {
      var x := c + Times(d[0], m);
      var r := MulAdd(d[1..], m, Quo(x, b), b);
      MulAddValue(d[1..], m, Quo(x, b), b);
      assert MulAdd(d, m, c, b)[1..] == r;
      HornerStep(m, b, d[0], LowFirst(d[1..], b), c, Rem(x, b), Quo(x, b));
    }
  }

  lemma HornerStep(m: Base, b: Base, d0: int, rest: int, c: nat, r: int, q: int)
    requires c + Times(d0, m) == r + Times(q, b)
    ensures r + Times(Times(rest, m) + q, b) == Times(d0 + Times(rest, b), m) + c
  {
  }

  lemma {:induction false} ConvertValue(src: seq<int>, m: Base, b: Base, d: seq<int>)
    requires Digits(src, Size(m)) && Digits(d, Size(b))
    ensures LowFirst(Convert(src, m, b, d), b) == LowFirst(d, b) * Pow(Size(m), |src|) + Value(src, Size(m))
    decreases |src|
  {
    if src != [] {
      MulAddValue(d, m, src[0], b);
      ConvertValue(src[1..], m, b, MulAdd(d, m, src[0], b));
      ValueHead(src, Size(m));
      ShiftUp(LowFirst(d, b), m, Pow(Size(m), |src| - 1), src[0]);
    }
  }

  lemma ShiftUp(v: int, m: Base, p: nat, s: int)
    ensures (Times(v, m) + s) * p == v * (Size(m) * p) + s * p
  {
  }

  // ---- no useless zeros ----

  /** The most significant digit is not zero. */
  predicate TopNonZero(d: seq<int>) {
    d != [] && d[|d| - 1] != 0
  }

  lemma {:induction false} CarryTop(c: nat, b: Base)
    requires c > 0
    ensures TopNonZero(Carry(c, b))
    decreases c
  {
    if Quo(c, b) > 0 {
      CarryTop(Quo(c, b), b);
    }
  }

  lemma {:induction false} MulAddTop(d: seq<int>, m: Base, c: nat, b: Base)
    requires Digits(d, Size(b)) && (TopNonZero(d) || (d == [0] && c > 0))
    ensures TopNonZero(MulAdd(d, m, c, b))
    decreases |d|
  {
    var x := c + Times(d[0], m);
    if |d| == 1 {
      if Quo(x, b) > 0 {
        CarryTop(Quo(x, b), b);
      }
      assert d[1..] == [];
    } else {
      MulAddTop(d[1..], m, Quo(x, b), b);
    }
  }

  lemma {:induction false} ConvertTop(src: seq<int>, m: Base, b: Base, d: seq<int>)
    requires Digits(src, Size(m)) && Digits(d, Size(b)) && TopNonZero(d)
    ensures TopNonZero(Convert(src, m, b, d))
    decreases |src|
  {
    if src != [] {
      MulAddTop(d, m, src[0], b);
      ConvertTop(src[1..], m, b, MulAdd(d, m, src[0], b));
    }
  }

  /** Zero digits in front change nothing. */
  lemma ZeroStays(m: Base, b: Base)
    ensures MulAdd([0], m, 0, b) == [0]
  {
    var z := [0];
    assert z[1..] == [];
  }

  /** The number of zeros in front. */
  function Leading(s: seq<int>): (z: nat)
    ensures z <= |s|
  {
    if s == [] || s[0] != 0 then 0 else 1 + Leading(s[1..])
  }

  /** z zeros, and then none. */
  predicate ZerosThen(s: seq<int>, z: nat) {
    z <= |s| && (forall i :: 0 <= i < z ==> s[i] == 0) && (z < |s| ==> s[z] != 0)
  }

  lemma {:induction false} LeadingIff(s: seq<int>, z: nat)
    ensures Leading(s) == z <==> ZerosThen(s, z)
    decreases |s|
  {
    if s != [] && s[0] == 0 && z > 0 {
      LeadingIff(s[1..], z - 1);
      assert forall i :: 1 <= i < |s| ==> s[i] == s[1..][i - 1];
    }
  }

  lemma {:induction false} ConvertLeading(src: seq<int>, m: Base, b: Base)
    requires Digits(src, Size(m))
    ensures Convert(src, m, b, [0]) == Convert(src[Leading(src)..], m, b, [0])
    ensures Leading(src) < |src| ==> TopNonZero(Convert(src, m, b, [0]))
    decreases |src|
  {
    if src != [] && src[0] == 0 {
      ZeroStays(m, b);
      ConvertLeading(src[1..], m, b);
      assert src[Leading(src)..] == src[1..][Leading(src[1..])..];
    } else if src != [] {
      assert src[0..] == src;
      MulAddTop([0], m, src[0], b);
      ConvertTop(src[1..], m, b, MulAdd([0], m, src[0], b));
    }
  }

  lemma {:induction false} AllZeros(src: seq<int>, m: Base, b: Base)
    requires Digits(src, Size(m)) && Leading(src) == |src|
    ensures Convert(src, m, b, [0]) == [0]
    decreases |src|
  {
    if src != [] {
      ZeroStays(m, b);
      AllZeros(src[1..], m, b);
    }
  }

  // ---- most significant first ----

  lemma {:induction false} LowFirstReverse(d: seq<int>, b: Base)
    ensures Value(Reverse(d), Size(b)) == LowFirst(d, b)
  {
    if d != [] {
      LowFirstReverse(d[1..], b);
      assert Reverse(d)[..|d| - 1] == Reverse(d[1..]);
    }
  }

  lemma ReverseDigits(d: seq<int>, n: nat)
    requires Digits(d, n)
    ensures Digits(Reverse(d), n)
  {
    forall i | 0 <= i < |d| ensures 0 <= Reverse(d)[i] < n {
      ReverseAt(d, i);
    }
  }

  /** The digits of src, a numeral in base m, in base b. */
  function Rebase(src: seq<int>, m: Base, b: Base): (r: seq<int>)
    requires Digits(src, Size(m))
    ensures Digits(r, Size(b))
  {
    ReverseDigits(Convert(src, m, b, [0]), Size(b));
    Reverse(Convert(src, m, b, [0]))
  }

  lemma RebaseValue(src: seq<int>, m: Base, b: Base)
    requires Digits(src, Size(m))
    ensures Value(Rebase(src, m, b), Size(b)) == Value(src, Size(m))
  {
    var start: seq<int> := [0];
    assert start[1..] == [];
    assert LowFirst(start, b) == 0 + Times(LowFirst(start[1..], b), b);
    ConvertValue(src, m, b, start);
    LowFirstReverse(Convert(src, m, b, start), b);
    assert 0 * Pow(Size(m), |src|) == 0;
  }

  /** A numeral: not empty, no zero in front. */
  predicate Numeral(d: seq<int>) {
    d != [] && d[0] != 0
  }

  lemma RebaseNumeral(src: seq<int>, m: Base, b: Base)
    requires Digits(src, Size(m)) && Numeral(src)
    ensures Numeral(Rebase(src, m, b))
  {
    ConvertLeading(src, m, b);
    var d := Convert(src, m, b, [0]);
    ReverseAt(d, 0);
  }

  /** Rebasing there and back is the identity on numerals. */
  lemma RebaseBack(src: seq<int>, m: Base, b: Base)
    requires Digits(src, Size(m)) && Numeral(src)
    ensures Rebase(Rebase(src, m, b), b, m) == src
  {
    var d := Rebase(src, m, b);
    RebaseNumeral(src, m, b);
    RebaseNumeral(d, b, m);
    RebaseValue(src, m, b);
    RebaseValue(d, b, m);
    CanonicalUnique(Rebase(d, b, m), src, Size(m));
  }

  // ---- the codec ----

  function DigitOf(c: char): (d: int)
    ensures -1 <= d < 58
  {
    B58Rises();
    IndexOf(B58_ALPHABET, c)
  }

  function CharOf(d: int): char
    requires 0 <= d < 58
  {
    B58Rises();
    B58_ALPHABET[d]
  }

  lemma DigitBack(d: int)
    requires 0 <= d < 58
    ensures DigitOf(CharOf(d)) == d
  {
    B58Rises();
    IndexOfNth(B58_ALPHABET, d);
  }

  /** Every character of the alphabet is a printable one. */
  lemma B58Inks(d: int)
    requires 0 <= d < 58
    ensures '1' <= CharOf(d) <= 'z'
  {
    B58Rises();
    assert B58_ALPHABET[0] == '1' && B58_ALPHABET[57] == 'z';
  }

  function Chars(d: seq<int>): (r: string)
    requires Digits(d, 58)
    ensures |r| == |d|
  {
    seq(|d|, i requires 0 <= i < |d| => CharOf(d[i]))
  }

  function DigitsOf(s: string): (r: seq<int>)
    ensures |r| == |s|
  {
    seq(|s|, i requires 0 <= i < |s| => DigitOf(s[i]))
  }

  function Zeros(n: nat): (r: seq<int>)
    ensures |r| == n && forall i :: 0 <= i < n ==> r[i] == 0
  {
    seq(n, i => 0)
  }

  function ToBase58(src: seq<int>): (r: seq<int>)
    ensures Digits(r, 58)
  {
    if Digits(src, 256) then Rebase(src, B256, B58) else []
  }

  function ToBase256(src: seq<int>): (r: seq<int>)
    ensures Digits(r, 256)
  {
    if Digits(src, 58) then Rebase(src, B58, B256) else []
  }

  type Conversion = seq<int> -> seq<int>

  /** Zeros in front are copied one for one; only the rest is a number. */
  function EncodeDigits(to58: Conversion, bytes: seq<int>): seq<int> {
    Zeros(Leading(bytes)) + to58(bytes[Leading(bytes)..])
  }

  function DecodeDigits(to256: Conversion, digits: seq<int>): seq<int> {
    Zeros(Leading(digits)) + to256(digits)
  }

  function Encode(bytes: Bytes): string {
    Chars(EncodeDigits(ToBase58, bytes))
  }

  /** None is the RangeError for a character outside the alphabet. */
  function Decode(s: string): Option<Bytes> {
    var d := DigitsOf(s);
    if -1 in d then None else Some(DecodeDigits(ToBase256, d))
  }

  method Base58Encode(bytes: Bytes) returns (out: string)
    ensures out == Encode(bytes)
  {
    var zeros := CountZeros(bytes);
    var digits := ConvertDigits(bytes[zeros..], B256, B58);
    var ones := seq(zeros, i => CharOf(0));
    out := WriteDigits(ones, digits);
    JoinChars(zeros, Reverse(digits));
  }

  lemma JoinChars(zeros: nat, d: seq<int>)
    requires Digits(d, 58)
    ensures Chars(Zeros(zeros) + d) == seq(zeros, i => CharOf(0)) + Chars(d)
  {
  }

  /** Appends the digits' characters from the last digit to the first. */
  method WriteDigits(front: string, digits: seq<int>) returns (out: string)
    requires Digits(digits, 58)
    ensures Digits(Reverse(digits), 58) && out == front + Chars(Reverse(digits))
  {
    out := front;
    var i := |digits|;
    ReverseDigits(digits[i..], 58);
    while i > 0
      invariant 0 <= i <= |digits| && Digits(Reverse(digits[i..]), 58)
      invariant out == front + Chars(Reverse(digits[i..]))
    {
      i := i - 1;
      ReverseSuffix(digits, i);
      AppendChar(Reverse(digits[i + 1..]), digits[i]);
      out := out + [CharOf(digits[i])];
    }
    assert digits[0..] == digits;
  }

  lemma AppendChar(d: seq<int>, x: int)
    requires Digits(d, 58) && 0 <= x < 58
    ensures Digits(d + [x], 58) && Chars(d + [x]) == Chars(d) + [CharOf(x)]
  {
  }

  lemma ReverseSuffix(d: seq<int>, i: nat)
    requires i < |d|
    ensures Reverse(d[i..]) == Reverse(d[i + 1..]) + [d[i]]
  {
    assert d[i..][1..] == d[i + 1..];
  }

  /** indexOf of every character; None at the first that is not in the alphabet. */
  method ReadDigits(s: string) returns (vals: Option<seq<int>>)
    ensures vals == if -1 in DigitsOf(s) then None else Some(DigitsOf(s))
  {
    var all: seq<int> := [];
    for k := 0 to |s|
      invariant all == DigitsOf(s)[..k] && -1 !in all
    {
      var val := DigitOf(s[k]);
      assert DigitsOf(s)[k] == val;
      if val == -1 {
        return None;
      }
      all := all + [val];
      assert DigitsOf(s)[..k + 1] == DigitsOf(s)[..k] + [val];
    }
    assert DigitsOf(s)[..|s|] == DigitsOf(s);
    vals := Some(all);
  }

  method CountZeros(vals: seq<int>) returns (zeros: nat)
    ensures zeros == Leading(vals)
  {
    zeros := 0;
    while zeros < |vals| && vals[zeros] == 0
      invariant 0 <= zeros <= |vals| && forall i :: 0 <= i < zeros ==> vals[i] == 0
    {
      zeros := zeros + 1;
    }
    LeadingIff(vals, zeros);
  }

  method Base58Decode(s: string) returns (out: Option<Bytes>)
    ensures out == Decode(s)
  {
    var vals := ReadDigits(s);
    if vals == None {
      return None;
    }
    DigitsBack(s);
    var digits := ConvertDigits(vals.value, B58, B256);
    var zeros := CountZeros(vals.value);
    var bytes := FillBytes(zeros, digits);
    out := Some(bytes);
  }

  /** out[zeros + i] = bytes[bytes.length - 1 - i] */
  method FillBytes(zeros: nat, digits: seq<int>) returns (out: Bytes)
    requires Digits(digits, 256)
    ensures out == Zeros(zeros) + Reverse(digits)
  {
    var n := |digits|;
    var bytes := new byte[zeros + n](_ => 0);
    for i := 0 to n
      invariant forall k :: 0 <= k < zeros ==> bytes[k] == 0
      invariant forall k :: zeros <= k < zeros + i ==> bytes[k] == digits[n - 1 - (k - zeros)]
    {
      bytes[zeros + i] := digits[n - 1 - i];
    }
    out := bytes[..];
    forall k | 0 <= k < n ensures Reverse(digits)[k] == digits[n - 1 - k] {
      ReverseAt(digits, k);
    }
  }

  lemma CharsBack(d: seq<int>)
    requires Digits(d, 58)
    ensures DigitsOf(Chars(d)) == d
  {
    forall i | 0 <= i < |d| ensures DigitOf(CharOf(d[i])) == d[i] {
      DigitBack(d[i]);
    }
  }

  lemma DigitsBack(s: string)
    requires -1 !in DigitsOf(s)
    ensures Digits(DigitsOf(s), 58) && Chars(DigitsOf(s)) == s
  {
    forall i | 0 <= i < |s| ensures 0 <= DigitsOf(s)[i] < 58 && CharOf(DigitOf(s[i])) == s[i] {
      assert DigitsOf(s)[i] in DigitsOf(s);
    }
  }

  lemma LeadingOf(z: nat, d: seq<int>)
    requires d == [] || Numeral(d)
    ensures Leading(Zeros(z) + d) == z && (Zeros(z) + d)[z..] == d
  {
    LeadingIff(Zeros(z) + d, z);
  }

  lemma SplitLeading(s: seq<int>)
    ensures s == Zeros(Leading(s)) + s[Leading(s)..] && (Leading(s) < |s| ==> Numeral(s[Leading(s)..]))
  {
    LeadingIff(s, Leading(s));
  }

  lemma RebaseLeading(src: seq<int>, m: Base, b: Base)
    requires Digits(src, Size(m))
    ensures Rebase(src, m, b) == Rebase(src[Leading(src)..], m, b)
  {
    ConvertLeading(src, m, b);
  }

  lemma ZerosInFront(to256: Conversion, d: seq<int>, z: nat)
    requires d == [] || Numeral(d)
    requires to256(Zeros(z) + d) == to256(d)
    ensures DecodeDigits(to256, Zeros(z) + d) == Zeros(z) + to256(d)
  {
    LeadingOf(z, d);
  }

  lemma DigitsComeBack(to58: Conversion, to256: Conversion, bytes: seq<int>)
    requires Leading(bytes) < |bytes|
    requires var tail := bytes[Leading(bytes)..];
             Numeral(to58(tail)) && to256(to58(tail)) == tail && to256(EncodeDigits(to58, bytes)) == to256(to58(tail))
    ensures DecodeDigits(to256, EncodeDigits(to58, bytes)) == bytes
  {
    ZerosInFront(to256, to58(bytes[Leading(bytes)..]), Leading(bytes));
    SplitLeading(bytes);
  }

  lemma ToBase256Skips(z: nat, d: seq<int>)
    requires Digits(d, 58) && (d == [] || Numeral(d))
    ensures ToBase256(Zeros(z) + d) == ToBase256(d)
  {
    LeadingOf(z, d);
    RebaseLeading(Zeros(z) + d, B58, B256);
  }

  lemma NumeralComesBack(tail: seq<int>)
    requires Digits(tail, 256) && Numeral(tail)
    ensures Numeral(ToBase58(tail)) && ToBase256(ToBase58(tail)) == tail
  {
    RebaseNumeral(tail, B256, B58);
    RebaseBack(tail, B256, B58);
  }

  lemma EncodeIs(bytes: Bytes, d: seq<int>)
    requires d == EncodeDigits(ToBase58, bytes)
    ensures Digits(d, 58) && Encode(bytes) == Chars(d)
  {
  }

  lemma EncodedDigitsDecode(bytes: Bytes, d: seq<int>)
    requires Leading(bytes) < |bytes| && d == EncodeDigits(ToBase58, bytes)
    ensures DecodeDigits(ToBase256, d) == bytes
  {
    var z := Leading(bytes);
    var tail := bytes[z..];
    SplitLeading(bytes);
    NumeralComesBack(tail);
    ToBase256Skips(z, ToBase58(tail));
    DigitsComeBack(ToBase58, ToBase256, bytes);
  }

  lemma DecodeEncodeNumeral(bytes: Bytes)
    requires Leading(bytes) < |bytes|
    ensures Decode(Encode(bytes)) == Some(bytes)
  {
    var d := EncodeDigits(ToBase58, bytes);
    EncodeIs(bytes, d);
    EncodedDigitsDecode(bytes, d);
    DecodeOfChars(d);
  }

  lemma DecodeOfChars(d: seq<int>)
    requires Digits(d, 58)
    ensures Decode(Chars(d)) == Some(DecodeDigits(ToBase256, d))
  {
    CharsBack(d);
  }

  lemma RebaseNothing(m: Base, b: Base)
    ensures Rebase([], m, b) == [0]
  {
    var d := [0];
    assert d[1..] == [];
    assert Reverse(d) == Reverse(d[1..]) + [d[0]];
  }

  /** Decoding inverts encoding exactly on the byte strings with a byte that is not zero: a string of n
      zeros comes back as n + 2. */
  lemma DecodeInvertsEncode(bytes: Bytes)
    ensures Decode(Encode(bytes)) == Some(bytes) <==> exists i :: 0 <= i < |bytes| && bytes[i] != 0
    ensures Leading(bytes) == |bytes| ==> Decode(Encode(bytes)) == Some(Zeros(|bytes| + 2))
  {
    LeadingIff(bytes, Leading(bytes));
    if Leading(bytes) < |bytes| {
      DecodeEncodeNumeral(bytes);
    } else {
      ZerosGrow(bytes);
    }
  }

  lemma NothingIsZero(to: Conversion)
    requires to == ToBase58 || to == ToBase256
    ensures to([]) == [0]
  {
    RebaseNothing(B256, B58);
    RebaseNothing(B58, B256);
  }

  lemma OneMoreZero(n: nat)
    ensures Zeros(n) + [0] == Zeros(n + 1)
  {
  }

  lemma ZerosEncode(to58: Conversion, bytes: seq<int>)
    requires Leading(bytes) == |bytes| && to58([]) == [0]
    ensures EncodeDigits(to58, bytes) == Zeros(|bytes| + 1)
  {
    assert bytes[|bytes|..] == [];
    OneMoreZero(|bytes|);
  }

  lemma ZerosDecode(to256: Conversion, n: nat)
    requires to256(Zeros(n)) == [0]
    ensures DecodeDigits(to256, Zeros(n)) == Zeros(n + 1)
  {
    LeadingIff(Zeros(n), n);
    OneMoreZero(n);
  }

  lemma ZerosGrow(bytes: Bytes)
    requires Leading(bytes) == |bytes|
    ensures Decode(Encode(bytes)) == Some(Zeros(|bytes| + 2))
  {
    var n := |bytes|;
    NothingIsZero(ToBase58);
    NothingIsZero(ToBase256);
    ToBase256Skips(n + 1, []);
    assert Zeros(n + 1) + [] == Zeros(n + 1);
    ZerosEncode(ToBase58, bytes);
    ZerosDecode(ToBase256, n + 1);
    CharsBack(Zeros(n + 1));
  }

  lemma StringComesBack(to58: Conversion, to256: Conversion, d: seq<int>)
    requires Leading(d) < |d|
    requires var tail := d[Leading(d)..];
             to256(d) == to256(tail) && Numeral(to256(tail)) && to58(to256(tail)) == tail
    ensures EncodeDigits(to58, DecodeDigits(to256, d)) == d
  {
    var z := Leading(d);
    LeadingOf(z, to256(d[z..]));
    SplitLeading(d);
  }

  lemma NumeralGoesBack(tail: seq<int>)
    requires Digits(tail, 58) && Numeral(tail)
    ensures Numeral(ToBase256(tail)) && ToBase58(ToBase256(tail)) == tail
  {
    RebaseNumeral(tail, B58, B256);
    RebaseBack(tail, B58, B256);
  }

  /** And encoding inverts decoding on every valid string that is not all ones. */
  lemma EncodeInvertsDecode(s: string)
    requires Decode(s).Some? && exists i :: 0 <= i < |s| && DigitOf(s[i]) != 0
    ensures Encode(Decode(s).value) == s
  {
    var d := DigitsOf(s);
    DigitsBack(s);
    var i :| 0 <= i < |s| && DigitOf(s[i]) != 0;
    assert d[i] != 0;
    var z := Leading(d);
    LeadingIff(d, z);
    SplitLeading(d);
    RebaseLeading(d, B58, B256);
    NumeralGoesBack(d[z..]);
    StringComesBack(ToBase58, ToBase256, d);
  }

  lemma OnesDecode(s: string)
    requires Decode(s).Some? && forall i :: 0 <= i < |s| ==> DigitOf(s[i]) == 0
    ensures Decode(s).value == Zeros(|s| + 1)
  {
    var n := |s|;
    assert DigitsOf(s) == Zeros(n);
    NothingIsZero(ToBase256);
    ToBase256Skips(n, []);
    assert Zeros(n) + [] == Zeros(n);
    ZerosDecode(ToBase256, n);
  }

  /** A byte string with a byte that is not zero is read from its own encoding and from no other string. */
  lemma DecodesIff(s: string, bytes: Bytes)
    requires exists i :: 0 <= i < |bytes| && bytes[i] != 0
    ensures Decode(s) == Some(bytes) <==> s == Encode(bytes)
  {
    DecodeInvertsEncode(bytes);
    if Decode(s) == Some(bytes) {
      if forall i :: 0 <= i < |s| ==> DigitOf(s[i]) == 0 {
        OnesDecode(s);
        assert false;
      }
      EncodeInvertsDecode(s);
    }
  }
}
