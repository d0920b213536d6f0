/** Known addresses: the version 0 and the version 1 example of BIP-173 and BIP-350 (sections "Test vectors" and
    "Test vectors for v0-v16 native segregated witness addresses"), computed to the last symbol. */
module AddressVectors {
  import opened Common
  import opened Positional
  import opened Registers
  import opened BitGroups
  import opened Lfsr
  import opened Bech32
  import opened Bech32Laws

  // ---- the program: 20 bytes are 32 groups ----

  const GROUPS0: seq<int> := [14, 20, 15, 7, 13, 26, 0, 25]
  const GROUPS1: seq<int> := [18, 6, 11, 13, 8, 21, 4, 20]
  const GROUPS2: seq<int> := [3, 17, 2, 29, 3, 12, 29, 3]
  const GROUPS3: seq<int> := [4, 15, 24, 20, 6, 14, 30, 22]
  const BYTES0: Bytes := [117, 30, 118, 232, 25]
  const BYTES1: Bytes := [145, 150, 212, 84, 148]
  const BYTES2: Bytes := [28, 69, 209, 179, 163]
  const BYTES3: Bytes := [35, 241, 67, 59, 214]

  const GROUPS: seq<int> := (GROUPS0 + GROUPS1) + (GROUPS2 + GROUPS3)
  const PROGRAM: Bytes := (BYTES0 + BYTES1) + (BYTES2 + BYTES3)

  lemma Powers()
    ensures Pow(32, 8) == Pow(256, 5) && Pow(32, 16) == Pow(256, 10) && Pow(32, 32) == Pow(256, 20)
  {
    assert Pow(32, 4) == 1_048_576 && Pow(256, 2) == 65_536;
    PowAdd(32, 4, 4);
    PowAdd(256, 2, 3);
    PowAdd(32, 8, 8);
    PowAdd(256, 5, 5);
    PowAdd(32, 16, 16);
    PowAdd(256, 10, 10);
  }

  lemma EightValue(d: seq<int>, b: nat)
    requires |d| == 8
    ensures Value(d, b) == ((((((d[0] * b + d[1]) * b + d[2]) * b + d[3]) * b + d[4]) * b + d[5]) * b + d[6]) * b + d[7]
  {
    FourValue(d[..4], b);
    assert d[..8][..7] == d[..7] && d[..7][..6] == d[..6] && d[..6][..5] == d[..5] && d[..5][..4] == d[..4] && d[..8] == d;
    assert Value(d[..5], b) == Value(d[..4], b) * b + d[4];
    assert Value(d[..6], b) == Value(d[..5], b) * b + d[5];
    assert Value(d[..7], b) == Value(d[..6], b) * b + d[6];
  }

  lemma FourValue(d: seq<int>, b: nat)
    requires |d| == 4
    ensures Value(d, b) == ((d[0] * b + d[1]) * b + d[2]) * b + d[3]
  {
    assert d[..3][..2] == d[..2] && d[..2][..1] == d[..1] && d[..1][..0] == [];
    assert Value(d[..1], b) == Value(d[..1][..0], b) * b + d[0];
    assert Value(d[..2], b) == Value(d[..1], b) * b + d[1];
    assert Value(d[..3], b) == Value(d[..2], b) * b + d[2];
  }

  lemma FiveValue(d: seq<int>, b: nat)
    requires |d| == 5
    ensures Value(d, b) == (((d[0] * b + d[1]) * b + d[2]) * b + d[3]) * b + d[4]
  {
    FourValue(d[..4], b);
  }

  lemma SameNumber(groups: seq<int>, bytes: Bytes)
    requires |groups| == 8 && |bytes| == 5
    requires ((((((groups[0] * 32 + groups[1]) * 32 + groups[2]) * 32 + groups[3]) * 32 + groups[4]) * 32 + groups[5]) * 32
              + groups[6]) * 32 + groups[7]
             == ((((bytes[0] as int) * 256 + bytes[1]) * 256 + bytes[2]) * 256 + bytes[3]) * 256 + bytes[4]
    ensures Value(groups, 32) == Value(bytes, 256)
  {
    EightValue(groups, 32);
    FiveValue(bytes, 256);
  }

  lemma JoinedNumber(x: seq<int>, y: seq<int>, a: Bytes, b: Bytes)
    requires Value(x, 32) == Value(a, 256) && Value(y, 32) == Value(b, 256) && Pow(32, |y|) == Pow(256, |b|)
    ensures Value(x + y, 32) == Value(a + b, 256)
  {
    ValueConcat(x, y, 32);
    ValueConcat(a, b, 256);
  }

  lemma ProgramValue()
    ensures Value(GROUPS, 32) == Value(PROGRAM, 256)
  {
    Powers();
    SameNumber(GROUPS0, BYTES0);
    SameNumber(GROUPS1, BYTES1);
    SameNumber(GROUPS2, BYTES2);
    SameNumber(GROUPS3, BYTES3);
    JoinedNumber(GROUPS0, GROUPS1, BYTES0, BYTES1);
    JoinedNumber(GROUPS2, GROUPS3, BYTES2, BYTES3);
    JoinedNumber(GROUPS0 + GROUPS1, GROUPS2 + GROUPS3, BYTES0 + BYTES1, BYTES2 + BYTES3);
  }

  /** Groups that are the same number as the bytes, with no bit left over, are the data the encoder cuts. */
  lemma DataIs(version: int, bytes: Bytes, groups: seq<int>, n: nat)
    requires 0 <= version <= 16 && Groups(groups) && |groups| == n && 8 * |bytes| == 5 * n && Value(groups, 32) == Value(bytes, 256)
    ensures DataOf(version, bytes) == [version] + groups
  {
    ByteDigits(bytes);
    ValueBound(bytes, 256);
    var v: nat := Value(bytes, 256);
    RegroupIs(bytes, 8, 5, true, v, n, 0);
    RegroupingUnique(v, n, 0, 8, 5, true, Regroup(bytes, 8, 5, true), Some(groups));
  }

  // ---- the register, eight words at a time ----

  function Eight(chk: bv32, s: seq<bv32>): bv32
    requires |s| == 8
  {
    Flat(Flat(Flat(Flat(Flat(Flat(Flat(Flat(chk, s[0]), s[1]), s[2]), s[3]), s[4]), s[5]), s[6]), s[7])
  }

  function Six(chk: bv32, s: seq<bv32>): bv32
    requires |s| == 6
  {
    Flat(Flat(Flat(Flat(Flat(Flat(chk, s[0]), s[1]), s[2]), s[3]), s[4]), s[5])
  }

  lemma RunOne(chk: bv32, s: seq<bv32>)
    requires s != []
    ensures Run(POLYMOD, chk, s) == Run(POLYMOD, Flat(chk, s[0]), s[1..])
  {
    StepIsFlat(chk, s[0]);
  }

  lemma RunTwo(chk: bv32, s: seq<bv32>)
    requires |s| >= 2
    ensures Run(POLYMOD, chk, s) == Run(POLYMOD, Flat(Flat(chk, s[0]), s[1]), s[2..])
  {
    RunOne(chk, s);
    RunOne(Flat(chk, s[0]), s[1..]);
    assert s[1..][1..] == s[2..];
  }

  lemma RunsSix(chk: bv32, s: seq<bv32>, rest: seq<bv32>)
    requires |s| == 6
    ensures Run(POLYMOD, chk, s + rest) == Run(POLYMOD, Six(chk, s), rest)
  {
    var all := s + rest;
    RunTwo(chk, all);
    var c2 := Flat(Flat(chk, s[0]), s[1]);
    RunTwo(c2, all[2..]);
    var c4 := Flat(Flat(c2, s[2]), s[3]);
    assert all[2..][2..] == all[4..];
    RunTwo(c4, all[4..]);
    assert all[4..][2..] == rest;
  }

  lemma RunsEight(chk: bv32, s: seq<bv32>, rest: seq<bv32>)
    requires |s| == 8
    ensures Run(POLYMOD, chk, s + rest) == Run(POLYMOD, Eight(chk, s), rest)
  {
    assert s + rest == s[..6] + (s[6..] + rest);
    RunsSix(chk, s[..6], s[6..] + rest);
    RunTwo(Six(chk, s[..6]), s[6..] + rest);
    assert (s[6..] + rest)[2..] == rest;
  }

  const WORDS0: seq<bv32> := [14, 20, 15, 7, 13, 26, 0, 25]
  const WORDS1: seq<bv32> := [18, 6, 11, 13, 8, 21, 4, 20]
  const WORDS2: seq<bv32> := [3, 17, 2, 29, 3, 12, 29, 3]
  const WORDS3: seq<bv32> := [4, 15, 24, 20, 6, 14, 30, 22]

  lemma WordsAre(d: seq<int>, words: seq<bv32>)
    requires Groups(d) && |d| == |words| && forall i :: 0 <= i < |d| ==> words[i] < 32 && words[i] as int == d[i]
    ensures Words(d) == words
  {
    forall i | 0 <= i < |d| ensures Words(d)[i] == words[i] {
      IntBack(words[i]);
    }
  }

  const SUM_ZERO: seq<int> := [12, 7, 9, 17, 11, 21]
  const SUM_WORDS_ZERO: seq<bv32> := [12, 7, 9, 17, 11, 21]
  const START_ZERO: seq<bv32> := [3, 3, 0, 2, 3, 0]
  const SUM_ONE: seq<int> := [11, 20, 19, 13, 26, 4]
  const SUM_WORDS_ONE: seq<bv32> := [11, 20, 19, 13, 26, 4]
  const START_ONE: seq<bv32> := [3, 3, 0, 2, 3, 1]

  lemma Starts()
    ensures HrpExpand("bc") + Words([0]) == START_ZERO && HrpExpand("bc") + Words([1]) == START_ONE
  {
    assert ('b' as bv32) >> 5 == 3 && ('b' as bv32) & 31 == 2 && ('c' as bv32) >> 5 == 3 && ('c' as bv32) & 31 == 3;
    assert HrpExpand("bc") == [3, 3, 0, 2, 3];
    WordsAre([0], [0]);
    WordsAre([1], [1]);
  }

  lemma WordsJoin(a: seq<int>, b: seq<int>, x: seq<bv32>, y: seq<bv32>)
    requires Groups(a) && Groups(b) && Words(a) == x && Words(b) == y
    ensures Groups(a + b) && Words(a + b) == x + y
  {
  }

  lemma GroupWords()
    ensures Groups(GROUPS) && Words(GROUPS) == GROUP_WORDS
  {
    FirstHalf();
    SecondHalf();
    WordsJoin(GROUPS0 + GROUPS1, GROUPS2 + GROUPS3, WORDS0 + WORDS1, WORDS2 + WORDS3);
  }

  lemma FirstHalf()
    ensures Groups(GROUPS0 + GROUPS1) && Words(GROUPS0 + GROUPS1) == WORDS0 + WORDS1
  {
    WordsAre(GROUPS0, WORDS0);
    WordsAre(GROUPS1, WORDS1);
    WordsJoin(GROUPS0, GROUPS1, WORDS0, WORDS1);
  }

  lemma SecondHalf()
    ensures Groups(GROUPS2 + GROUPS3) && Words(GROUPS2 + GROUPS3) == WORDS2 + WORDS3
  {
    WordsAre(GROUPS2, WORDS2);
    WordsAre(GROUPS3, WORDS3);
    WordsJoin(GROUPS2, GROUPS3, WORDS2, WORDS3);
  }

  const GROUP_WORDS: seq<bv32> := (WORDS0 + WORDS1) + (WORDS2 + WORDS3)

  /** 32 words take the register from one value to another. */
  lemma Passes(w0: seq<bv32>, w1: seq<bv32>, w2: seq<bv32>, w3: seq<bv32>, c0: bv32, c1: bv32, c2: bv32, c3: bv32, c4: bv32,
               rest: seq<bv32>)
    requires |w0| == |w1| == |w2| == |w3| == 8
    requires Eight(c0, w0) == c1 && Eight(c1, w1) == c2 && Eight(c2, w2) == c3 && Eight(c3, w3) == c4
    ensures Run(POLYMOD, c0, ((w0 + w1) + (w2 + w3)) + rest) == Run(POLYMOD, c4, rest)
  {
    FourPieces(w0, w1, w2, w3, rest);
    RunsEight(c0, w0, w1 + (w2 + (w3 + rest)));
    RunsEight(c1, w1, w2 + (w3 + rest));
    RunsEight(c2, w2, w3 + rest);
    RunsEight(c3, w3, rest);
  }

  lemma FourPieces<T>(a: seq<T>, b: seq<T>, c: seq<T>, d: seq<T>, rest: seq<T>)
    ensures ((a + b) + (c + d)) + rest == a + (b + (c + (d + rest)))
  {
  }

  lemma PassZero(rest: seq<bv32>)
    ensures Run(POLYMOD, 0x3d5a5fd2, GROUP_WORDS + rest) == Run(POLYMOD, 0x979c4ed, rest)
  {
    Passes(WORDS0, WORDS1, WORDS2, WORDS3, 0x3d5a5fd2, 0x2b1bcbce, 0x23a1ff4b, 0x2a387174, 0x979c4ed, rest);
  }

  lemma PassOne(rest: seq<bv32>)
    ensures Run(POLYMOD, 0x3d5a5fd3, GROUP_WORDS + rest) == Run(POLYMOD, 0x132c4c52, rest)
  {
    Passes(WORDS0, WORDS1, WORDS2, WORDS3, 0x3d5a5fd3, 0x2f3f14f6, 0x24b5b950, 0x1627b2dc, 0x132c4c52, rest);
  }

  lemma PassTwo(rest: seq<bv32>)
    ensures Run(POLYMOD, 0x132c4c52, GROUP_WORDS + rest) == Run(POLYMOD, 0x2f76a47c, rest)
  {
    Passes(WORDS0, WORDS1, WORDS2, WORDS3, 0x132c4c52, 0x236abdb3, 0x1afd2f06, 0x30c8b165, 0x2f76a47c, rest);
  }

  lemma Laid(hrp: string, head: seq<int>, groups: seq<int>, sum: seq<int>, start: seq<bv32>, words: seq<bv32>, last: seq<bv32>)
    requires Groups(head) && Groups(groups) && Groups(sum)
    requires HrpExpand(hrp) + Words(head) == start && Words(groups) == words && Words(sum) == last
    ensures Groups(head + groups + sum) && HrpExpand(hrp) + Words(head + groups + sum) == start + (words + last)
  {
    assert Words(head + groups + sum) == Words(head) + Words(groups) + Words(sum);
  }

  lemma ZeroChecks()
    ensures Groups([0] + GROUPS + SUM_ZERO) && CheckOk("bc", [0] + GROUPS + SUM_ZERO, 0)
  {
    Starts();
    GroupWords();
    WordsAre(SUM_ZERO, SUM_WORDS_ZERO);
    Laid("bc", [0], GROUPS, SUM_ZERO, START_ZERO, GROUP_WORDS, SUM_WORDS_ZERO);
    ZeroRuns(GROUP_WORDS);
  }

  lemma ZeroRuns(words: seq<bv32>)
    requires words == GROUP_WORDS
    ensures Run(POLYMOD, 1, START_ZERO + (words + SUM_WORDS_ZERO)) == 1
  {
    RunsSix(1, START_ZERO, words + SUM_WORDS_ZERO);
    PassZero(SUM_WORDS_ZERO);
    RunsSix(0x979c4ed, SUM_WORDS_ZERO, []);
    assert SUM_WORDS_ZERO + [] == SUM_WORDS_ZERO;
  }

  lemma OneChecks()
    ensures Groups([1] + (GROUPS + GROUPS) + SUM_ONE) && CheckOk("bc", [1] + (GROUPS + GROUPS) + SUM_ONE, 1)
  {
    Starts();
    GroupWords();
    WordsAre(SUM_ONE, SUM_WORDS_ONE);
    WordsJoin(GROUPS, GROUPS, GROUP_WORDS, GROUP_WORDS);
    Laid("bc", [1], GROUPS + GROUPS, SUM_ONE, START_ONE, GROUP_WORDS + GROUP_WORDS, SUM_WORDS_ONE);
    OneRuns(GROUP_WORDS);
  }

  lemma OneRuns(words: seq<bv32>)
    requires words == GROUP_WORDS
    ensures Run(POLYMOD, 1, START_ONE + ((words + words) + SUM_WORDS_ONE)) == BECH32M_CONST
  {
    RunsSix(1, START_ONE, (words + words) + SUM_WORDS_ONE);
    assert (words + words) + SUM_WORDS_ONE == words + (words + SUM_WORDS_ONE);
    PassOne(words + SUM_WORDS_ONE);
    PassTwo(SUM_WORDS_ONE);
    RunsSix(0x2f76a47c, SUM_WORDS_ONE, []);
    assert SUM_WORDS_ONE + [] == SUM_WORDS_ONE;
  }

  // ---- the characters ----

  lemma CharsAre(d: seq<int>, s: string)
    requires Groups(d) && |d| == |s| && forall i :: 0 <= i < |d| ==> CharOf(d[i]) == s[i]
    ensures Chars(d) == s
  {
  }

  const TEXT: string := ("w508d6qe" + "jxtdg4y5") + ("r3zarvar" + "y0c5xw7k")

  lemma GroupChars()
    ensures Groups(GROUPS) && Chars(GROUPS) == TEXT
  {
    CharsAre(GROUPS0, "w508d6qe");
    CharsAre(GROUPS1, "jxtdg4y5");
    CharsAre(GROUPS2, "r3zarvar");
    CharsAre(GROUPS3, "y0c5xw7k");
    CharsJoin(GROUPS0, GROUPS1);
    CharsJoin(GROUPS2, GROUPS3);
    CharsJoin(GROUPS0 + GROUPS1, GROUPS2 + GROUPS3);
  }

  lemma CharsJoin(a: seq<int>, b: seq<int>)
    requires Groups(a) && Groups(b)
    ensures Groups(a + b) && Chars(a + b) == Chars(a) + Chars(b)
  {
  }

  lemma EncodesAs(hrp: string, version: int, bytes: Bytes, groups: seq<int>, sum: seq<int>, full: seq<int>)
    requires 0 <= version <= 16 && 2 <= |bytes| <= 40 && Groups(groups) && Groups(sum) && |sum| == 6
    requires DataOf(version, bytes) == [version] + groups
    requires full == [version] + groups + sum && Groups(full) && CheckOk(hrp, full, version)
    ensures Encode(hrp, version, bytes) == Some(hrp + "1" + Chars(full))
  {
    ChecksumIff(hrp, [version] + groups, sum, version);
  }

  lemma CharsOf(version: int, groups: seq<int>, sum: seq<int>, first: string, text: string, last: string)
    requires Groups([version]) && Groups(groups) && Groups(sum)
    requires Chars([version]) == first && Chars(groups) == text && Chars(sum) == last
    ensures Groups([version] + groups + sum) && Chars([version] + groups + sum) == first + text + last
  {
  }

  /** BIP-173: bc1qw508d6qejxtdg4y5r3zarvary0c5xw7kv8f3t4, the P2WPKH address of its example key. */
  lemma KnownVersionZero(addr: string)
    requires addr == "bc" + "1" + ("q" + TEXT + "v8f3t4")
    ensures Encode("bc", 0, PROGRAM) == Some(addr) && Decode(addr) == Some(Decoded("bc", 0, PROGRAM))
  {
    ZeroData();
    ZeroChecks();
    EncodesAs("bc", 0, PROGRAM, GROUPS, SUM_ZERO, [0] + GROUPS + SUM_ZERO);
    ZeroChars();
    assert ToLower("bc") == "bc";
    DecodeInvertsEncode("bc", 0, PROGRAM);
  }

  lemma ZeroData()
    ensures Groups(GROUPS) && DataOf(0, PROGRAM) == [0] + GROUPS
  {
    ProgramValue();
    GroupWords();
    DataIs(0, PROGRAM, GROUPS, 32);
  }

  lemma ZeroChars()
    ensures Groups([0] + GROUPS + SUM_ZERO) && Chars([0] + GROUPS + SUM_ZERO) == "q" + TEXT + "v8f3t4"
  {
    GroupChars();
    CharsAre([0], "q");
    CharsAre(SUM_ZERO, "v8f3t4");
    CharsOf(0, GROUPS, SUM_ZERO, "q", TEXT, "v8f3t4");
  }

  /** BIP-350: bc1pw508d6qejxtdg4y5r3zarvary0c5xw7kw508d6qejxtdg4y5r3zarvary0c5xw7kt5nd6y, which has 40 bytes. */
  lemma KnownVersionOne(addr: string)
    requires addr == "bc" + "1" + ("p" + (TEXT + TEXT) + "t5nd6y")
    ensures Encode("bc", 1, PROGRAM + PROGRAM) == Some(addr) && Decode(addr) == Some(Decoded("bc", 1, PROGRAM + PROGRAM))
  {
    OneData();
    OneChecks();
    EncodesAs("bc", 1, PROGRAM + PROGRAM, GROUPS + GROUPS, SUM_ONE, [1] + (GROUPS + GROUPS) + SUM_ONE);
    OneChars();
    assert ToLower("bc") == "bc";
    DecodeInvertsEncode("bc", 1, PROGRAM + PROGRAM);
  }

  lemma OneData()
    ensures Groups(GROUPS + GROUPS) && DataOf(1, PROGRAM + PROGRAM) == [1] + (GROUPS + GROUPS)
  {
    ProgramValue();
    GroupWords();
    Powers();
    JoinedNumber(GROUPS, GROUPS, PROGRAM, PROGRAM);
    DataIs(1, PROGRAM + PROGRAM, GROUPS + GROUPS, 64);
  }

  lemma OneChars()
    ensures Groups([1] + (GROUPS + GROUPS) + SUM_ONE)
    ensures Chars([1] + (GROUPS + GROUPS) + SUM_ONE) == "p" + (TEXT + TEXT) + "t5nd6y"
  {
    GroupChars();
    CharsJoin(GROUPS, GROUPS);
    CharsAre([1], "p");
    CharsAre(SUM_ONE, "t5nd6y");
    CharsOf(1, GROUPS + GROUPS, SUM_ONE, "p", TEXT + TEXT, "t5nd6y");
  }
}
