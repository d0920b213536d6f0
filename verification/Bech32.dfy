/** Witness addresses (address.js): BIP-173 and BIP-350 encoding and decoding. */
module Bech32 {
  import opened Common
  import opened Positional
  import opened Alphabets
  import opened BitGroups
  import opened Lfsr

  const BECH32_CONST: bv32 := 1
  const BECH32M_CONST: bv32 := 0x2bc830a3

  function Spec(version: int): (w: bv32)
    ensures Small(w)
  {
    if version == 0 then BECH32_CONST else BECH32M_CONST
  }

  // ---- characters ----

  function UpperChar(c: char): char {
    if 'a' <= c <= 'z' then (c as int - 32) as char else c
  }

  function ToUpper(s: string): (r: string)
    ensures |r| == |s| && forall i :: 0 <= i < |s| ==> r[i] == UpperChar(s[i])
  {
    seq(|s|, i requires 0 <= i < |s| => UpperChar(s[i]))
  }

  function SymbolOf(c: char): (d: int)
    ensures -1 <= d < 32
  {
    CharsetDistinct();
    IndexOf(CHARSET, c)
  }

  function CharOf(d: int): char
    requires 0 <= d < 32
  {
    CharsetDistinct();
    CHARSET[d]
  }

  lemma SymbolBack(d: int)
    requires 0 <= d < 32
    ensures SymbolOf(CharOf(d)) == d
  {
    CharsetDistinct();
    IndexOfNth(CHARSET, d);
  }

  lemma CharBack(c: char)
    requires SymbolOf(c) >= 0
    ensures CharOf(SymbolOf(c)) == c
  {
  }

  /** The charset has no capital and no separator. */
  lemma CharsetIsPlain(d: int)
    requires 0 <= d < 32
    ensures LowerChar(CharOf(d)) == CharOf(d) && CharOf(d) != '1'
  {
    CharsetDistinct();
    assert forall i :: 0 <= i < 32 ==> CHARSET[i] != '1' && !('A' <= CHARSET[i] <= 'Z');
  }

  /** Charset characters are printable ASCII. */
  lemma CharsetInk(d: int)
    requires 0 <= d < 32
    ensures '0' <= CharOf(d) <= 'z'
  {
    CharsetDistinct();
    assert forall i :: 0 <= i < 32 ==> '0' <= CHARSET[i] <= 'z';
  }

  // ---- words for polymod ----

  function CodeHigh(c: char): bv32 {
    (c as bv32) >> 5
  }

  function CodeLow(c: char): bv32 {
    (c as bv32) & 31
  }

  function Word(d: int): bv32
    requires 0 <= d < 32
  {
    d as bv32
  }

  function Int(w: bv32): int {
    w as int
  }

  /** [charCode >>> 5 of each, 0, charCode & 31 of each] */
  function HrpExpand(hrp: string): (r: seq<bv32>)
    ensures |r| == 2 * |hrp| + 1
  {
    seq(|hrp|, i requires 0 <= i < |hrp| => CodeHigh(hrp[i])) + [0]
    + seq(|hrp|, i requires 0 <= i < |hrp| => CodeLow(hrp[i]))
  }

  lemma HrpSmall(hrp: string)
    ensures forall i :: 0 <= i < |HrpExpand(hrp)| ==> Small(HrpExpand(hrp)[i])
  {
  }

  predicate Groups(data: seq<int>) {
    Digits(data, 32)
  }

  function Words(data: seq<int>): (r: seq<bv32>)
    requires Groups(data)
    ensures |r| == |data|
  {
    seq(|data|, i requires 0 <= i < |data| => Word(data[i]))
  }

  function Ints(words: seq<bv32>): (r: seq<int>)
    requires forall i :: 0 <= i < |words| ==> Symbol(words[i])
    ensures |r| == |words|
  {
    seq(|words|, i requires 0 <= i < |words| => Int(words[i]))
  }

  lemma WordBack(d: int)
    requires 0 <= d < 32
    ensures Symbol(Word(d)) && Int(Word(d)) == d
  {
  }

  lemma IntBack(w: bv32)
    requires Symbol(w)
    ensures 0 <= Int(w) < 32 && Word(Int(w)) == w
  {
  }

  lemma WordsBack(data: seq<int>)
    requires Groups(data)
    ensures (forall i :: 0 <= i < |data| ==> Symbol(Words(data)[i])) && Ints(Words(data)) == data
  {
    forall i | 0 <= i < |data| ensures Symbol(Word(data[i])) && Int(Word(data[i])) == data[i] {
      WordBack(data[i]);
    }
  }

  lemma IntsBack(words: seq<bv32>)
    requires forall i :: 0 <= i < |words| ==> Symbol(words[i])
    ensures Groups(Ints(words)) && Words(Ints(words)) == words
  {
    forall i | 0 <= i < |words| ensures 0 <= Int(words[i]) < 32 && Word(Int(words[i])) == words[i] {
      IntBack(words[i]);
    }
  }

  // ---- checksums ----

  /** mod = polymod(hrp, data, six zeros) ^ spec, cut into six symbols. */
  function Checksum(hrp: string, data: seq<int>, version: int): (sum: seq<int>)
    requires Groups(data)
    ensures |sum| == 6 && Groups(sum)
  {
    var words := Ending(HrpExpand(hrp) + Words(data), Spec(version));
    IntsBack(words);
    Ints(words)
  }

  /** The decoder's test. */
  predicate CheckOk(hrp: string, data: seq<int>, version: int)
    requires Groups(data)
  {
    Poly(HrpExpand(hrp) + Words(data)) == Spec(version)
  }

  lemma WordsSmall(hrp: string, data: seq<int>)
    requires Groups(data)
    ensures var w := HrpExpand(hrp) + Words(data); forall i :: 0 <= i < |w| ==> Small(w[i])
  {
    HrpSmall(hrp);
    WordsBack(data);
  }

  /** The decoder accepts exactly the six symbols the encoder appends. */
  lemma ChecksumIff(hrp: string, data: seq<int>, sum: seq<int>, version: int)
    requires Groups(data) && Groups(sum) && |sum| == 6
    ensures Groups(data + sum)
    ensures CheckOk(hrp, data + sum, version) <==> sum == Checksum(hrp, data, version)
  {
    var x := HrpExpand(hrp) + Words(data);
    WordsSmall(hrp, data);
    WordsBack(sum);
    PolyEndsRight(x, Spec(version), Words(sum));
    JoinWords(hrp, data, sum);
    IntsBack(Ending(x, Spec(version)));
    WordsBack(sum);
  }

  lemma JoinWords(hrp: string, data: seq<int>, sum: seq<int>)
    requires Groups(data) && Groups(sum)
    ensures Groups(data + sum)
    ensures HrpExpand(hrp) + Words(data + sum) == (HrpExpand(hrp) + Words(data)) + Words(sum)
  {
    assert Words(data + sum) == Words(data) + Words(sum);
  }

  // ---- encode ----

  function Chars(data: seq<int>): (r: string)
    requires Groups(data)
    ensures |r| == |data| && forall i :: 0 <= i < |r| ==> r[i] == CharOf(data[i])
  {
    seq(|data|, i requires 0 <= i < |data| => CharOf(data[i]))
  }

  lemma ByteDigits(program: Bytes)
    ensures Digits(program, Unit(8)) && Unit(5) == 32 && Unit(8) == 256
  {
    UnitWord();
  }

  /** The version and the program in five-bit groups. */
  function DataOf(version: int, program: Bytes): (data: seq<int>)
    requires 0 <= version <= 16
    ensures Groups(data) && data != [] && data[0] == version
  {
    ByteDigits(program);
    BytesSurvive(program);
    [version] + Regroup(program, 8, 5, true).value
  }

  /** encodeWitnessAddress; None is its RangeError. */
  function Encode(hrp: string, version: int, program: Bytes): Option<string> {
    if version < 0 || version > 16 || |program| < 2 || |program| > 40 then None
    else
      var data := DataOf(version, program);
      Some(hrp + "1" + Chars(data + Checksum(hrp, data, version)))
  }

  // ---- decode ----

  datatype Decoded = Decoded(hrp: string, version: int, program: Bytes)

  function LastOne(s: string): (r: int)
    ensures -1 <= r < |s| && (r >= 0 ==> s[r] == '1') && forall i :: r < i < |s| ==> s[i] != '1'
  {
    if s == [] then -1 else if s[|s| - 1] == '1' then |s| - 1 else LastOne(s[..|s| - 1])
  }

  function Symbols(s: string): (r: seq<int>)
    ensures |r| == |s| && forall i :: 0 <= i < |r| ==> r[i] == SymbolOf(s[i])
  {
    seq(|s|, i requires 0 <= i < |s| => SymbolOf(s[i]))
  }

  /** data.slice(1, -6) */
  function Middle(data: seq<int>): seq<int> {
    if |data| <= 7 then [] else data[1..|data| - 6]
  }

  function ProgramOf(middle: seq<int>): Option<Bytes>
    requires Groups(middle)
  {
    UnitWord();
    var bytes := Regroup(middle, 5, 8, false);
    if bytes == None then None else Some(AsBytes(bytes.value))
  }

  function AsBytes(s: seq<int>): (r: Bytes) {
    if Digits(s, 256) then s else []
  }

  /** The hrp and what follows the separator, already lower-case. */
  function DecodeParts(hrp: string, tail: string): Option<Decoded> {
    var data := Symbols(tail);
    if -1 in data || data == [] then None
    else
      var version := data[0];
      if version > 16 || !CheckOk(hrp, data, version) then None
      else
        var program := ProgramOf(Middle(data));
        if program == None || |program.value| < 2 || |program.value| > 40 then None
        else if version == 0 && |program.value| != 20 && |program.value| != 32 then None
        else Some(Decoded(hrp, version, program.value))
  }

  function DecodeLower(lower: string): Option<Decoded> {
    var sep := LastOne(lower);
    if |lower| > 90 || sep < 1 || sep + 7 > |lower| then None
    else DecodeParts(lower[..sep], lower[sep + 1..])
  }

  /** decodeWitnessAddress; None is its RangeError. */
  function Decode(addr: string): Option<Decoded> {
    if addr != ToLower(addr) && addr != ToUpper(addr) then None else DecodeLower(ToLower(addr))
  }
}
