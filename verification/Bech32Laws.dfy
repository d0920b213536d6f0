/** What encodeWitnessAddress and decodeWitnessAddress are to each other, and what the checksum catches. */
module Bech32Laws {
  import opened Common
  import opened BitGroups
  import opened Lfsr
  import opened Bech32

  // ---- strings ----

  lemma LowerJoin(a: string, b: string)
    ensures ToLower(a + b) == ToLower(a) + ToLower(b)
  {
  }

  lemma LowerTwice(s: string)
    ensures ToLower(ToLower(s)) == ToLower(s)
  {
  }

  lemma CharsArePlain(data: seq<int>)
    requires Groups(data)
    ensures ToLower(Chars(data)) == Chars(data) && forall i :: 0 <= i < |data| ==> Chars(data)[i] != '1'
  {
    forall i | 0 <= i < |data| ensures LowerChar(CharOf(data[i])) == CharOf(data[i]) && CharOf(data[i]) != '1' {
      CharsetIsPlain(data[i]);
    }
  }

  lemma CharsReadBack(data: seq<int>)
    requires Groups(data)
    ensures Symbols(Chars(data)) == data
  {
    forall i | 0 <= i < |data| ensures SymbolOf(CharOf(data[i])) == data[i] {
      SymbolBack(data[i]);
    }
  }

  lemma SymbolsReadBack(s: string)
    requires -1 !in Symbols(s)
    ensures Groups(Symbols(s)) && Chars(Symbols(s)) == s
  {
    forall i | 0 <= i < |s| ensures 0 <= Symbols(s)[i] < 32 && CharOf(SymbolOf(s[i])) == s[i] {
      assert Symbols(s)[i] in Symbols(s);
      CharBack(s[i]);
    }
  }

  /** The separator is found where the encoder put it. */
  lemma SplitsAtSeparator(hrp: string, data: seq<int>)
    requires Groups(data)
    ensures var s := hrp + "1" + Chars(data);
            LastOne(s) == |hrp| && s[..|hrp|] == hrp && s[|hrp| + 1..] == Chars(data)
  {
    var s := hrp + "1" + Chars(data);
    CharsArePlain(data);
    assert s[|hrp|] == '1';
    forall i | |hrp| < i < |s| ensures s[i] != '1' {
      assert s[i] == Chars(data)[i - |hrp| - 1];
    }
  }

  // ---- decode after encode ----

  lemma DataReadsBack(version: int, program: Bytes)
    requires 0 <= version <= 16 && |program| >= 2
    ensures var data := DataOf(version, program);
            |data| >= 2 && Groups(data[1..]) && ProgramOf(data[1..]) == Some(program)
  {
    ByteDigits(program);
    BytesSurvive(program);
    var groups := Regroup(program, 8, 5, true).value;
    assert DataOf(version, program)[1..] == groups;
    if groups == [] {
      EmptyGroups();
    }
  }

  lemma EmptyGroups()
    ensures Regroup([], 5, 8, false) == Some([])
  {
    UnitWord();
    var none: seq<int> := [];
    RegroupIs(none, 5, 8, false, 0, 0, 0);
  }

  lemma PartsDecode(hrp: string, version: int, program: Bytes)
    requires 0 <= version <= 16 && 2 <= |program| <= 40
    ensures var data := DataOf(version, program);
            var r := DecodeParts(hrp, Chars(data + Checksum(hrp, data, version)));
            r == if version == 0 && |program| != 20 && |program| != 32 then None else Some(Decoded(hrp, version, program))
  {
    var data := DataOf(version, program);
    var sum := Checksum(hrp, data, version);
    CharsReadBack(data + sum);
    ChecksumIff(hrp, data, sum, version);
    DataReadsBack(version, program);
    assert Middle(data + sum) == data[1..];
    assert (data + sum)[0] == version;
  }

  /** A lower-case address is taken apart at the separator the encoder wrote. */
  lemma LowerDecodes(hrp: string, data: seq<int>)
    requires Groups(data) && |data| >= 6
    ensures var s := hrp + "1" + Chars(data);
            DecodeLower(s) == if |s| > 90 || hrp == "" then None else DecodeParts(hrp, Chars(data))
  {
    SplitsAtSeparator(hrp, data);
  }

  /** Decoding what was encoded gives it back exactly when the prefix is non-empty and lower-case, the
      address is at most 90 characters and a version 0 program has one of its two lengths. */
  lemma DecodeInvertsEncode(hrp: string, version: int, program: Bytes)
    requires Encode(hrp, version, program).Some?
    ensures var addr := Encode(hrp, version, program).value;
            Decode(addr) == Some(Decoded(hrp, version, program)) <==>
              && hrp != "" && ToLower(hrp) == hrp && |addr| <= 90
              && (version == 0 ==> |program| == 20 || |program| == 32)
  {
    var addr := Encode(hrp, version, program).value;
    var data := DataOf(version, program);
    var full := data + Checksum(hrp, data, version);
    LowerAddress(hrp, full);
    if ToLower(hrp) == hrp {
      LowerDecodes(hrp, full);
      PartsDecode(hrp, version, program);
    } else if Decode(addr).Some? {
      DecodesToLower(addr);
    }
  }

  lemma LowerAddress(hrp: string, data: seq<int>)
    requires Groups(data)
    ensures ToLower(hrp + "1" + Chars(data)) == ToLower(hrp) + "1" + Chars(data)
  {
    LowerJoin(hrp + "1", Chars(data));
    LowerJoin(hrp, "1");
    CharsArePlain(data);
    assert ToLower("1") == "1";
  }

  /** Only lower-case prefixes come out of the decoder. */
  lemma DecodesToLower(addr: string)
    requires Decode(addr).Some?
    ensures ToLower(Decode(addr).value.hrp) == Decode(addr).value.hrp
  {
    var lower := ToLower(addr);
    var sep := LastOne(lower);
    LowerTwice(addr);
    assert ToLower(lower[..sep]) == ToLower(lower)[..sep];
  }

  // ---- encode after decode ----

  /** What a successful decode has checked. */
  lemma PartsChecked(hrp: string, tail: string)
    requires DecodeParts(hrp, tail).Some?
    ensures var d := DecodeParts(hrp, tail).value;
            var data := Symbols(tail);
            && Groups(data) && Chars(data) == tail && |data| > 7 && data[0] == d.version && d.hrp == hrp
            && CheckOk(hrp, data, d.version) && ProgramOf(Middle(data)) == Some(d.program)
            && 0 <= d.version <= 16 && 2 <= |d.program| <= 40
  {
    var data := Symbols(tail);
    SymbolsReadBack(tail);
    if |data| <= 7 {
      EmptyGroups();
    }
  }

  lemma DataEncodes(hrp: string, data: seq<int>, version: int, program: Bytes)
    requires Groups(data) && |data| > 7 && data[0] == version && 0 <= version <= 16 && |program| >= 2
    requires CheckOk(hrp, data, version) && ProgramOf(Middle(data)) == Some(program)
    ensures var front := DataOf(version, program); data == front + Checksum(hrp, front, version)
  {
    var middle, sum := Middle(data), data[|data| - 6..];
    var front := DataOf(version, program);
    MiddleIsData(middle, version, program);
    assert data == front + sum by {
      ThreeParts(data, |data| - 6);
    }
    ChecksumIff(hrp, front, sum, version);
  }

  lemma ThreeParts(data: seq<int>, k: nat)
    requires 0 < k <= |data|
    ensures data == ([data[0]] + data[1..k]) + data[k..]
  {
  }

  lemma MiddleIsData(middle: seq<int>, version: int, program: Bytes)
    requires Groups(middle) && ProgramOf(middle) == Some(program) && 0 <= version <= 16 && |program| >= 2
    ensures middle != [] && DataOf(version, program) == [version] + middle
  {
    UnitWord();
    GroupsSurvive(middle);
    if middle == [] {
      EmptyGroups();
      assert false;
    }
  }

  lemma LowerParts(lower: string) returns (hrp: string, tail: string)
    requires DecodeLower(lower).Some?
    ensures lower == hrp + "1" + tail && DecodeLower(lower) == DecodeParts(hrp, tail)
    ensures hrp == lower[..LastOne(lower)] && tail == lower[LastOne(lower) + 1..]
  {
    var sep := LastOne(lower);
    CutAtOne(lower, sep);
    hrp, tail := lower[..sep], lower[sep + 1..];
  }

  lemma CutAtOne(s: string, sep: nat)
    requires sep < |s| && s[sep] == '1'
    ensures s == s[..sep] + "1" + s[sep + 1..]
  {
  }

  /** A decoded address encodes to its lower-case form. */
  lemma EncodeInvertsDecode(addr: string)
    requires Decode(addr).Some?
    ensures var d := Decode(addr).value; Encode(d.hrp, d.version, d.program) == Some(ToLower(addr))
  {
    var hrp, tail := LowerParts(ToLower(addr));
    var d := Decode(addr).value;
    PartsChecked(hrp, tail);
    DataEncodes(hrp, Symbols(tail), d.version, d.program);
  }

  /** The small Latin letters become capitals, and nothing else changes. */
  lemma CaseRises(c: char)
    ensures var small, capitals := "abcdefghijklmnopqrstuvwxyz", "ABCDEFGHIJKLMNOPQRSTUVWXYZ";
            && (forall i :: 0 <= i < 26 ==> UpperChar(small[i]) == capitals[i])
            && (c !in small ==> UpperChar(c) == c)
  {
    var small := "abcdefghijklmnopqrstuvwxyz";
    assert forall i :: 0 <= i < 26 ==> small[i] as int == 'a' as int + i;
    if 'a' <= c <= 'z' {
      assert small[c as int - 'a' as int] == c;
    }
  }

  /** The decoder accepts exactly what the encoder writes, in small letters or in capitals: for a prefix that is not
      empty, at most 90 characters, and a version 0 program of one of its two lengths. */
  lemma AcceptsExactly(addr: string, hrp: string, version: int, program: Bytes)
    ensures Decode(addr) == Some(Decoded(hrp, version, program)) <==>
            && (addr == ToLower(addr) || addr == ToUpper(addr)) && 0 <= version <= 16 && 2 <= |program| <= 40
            && Encode(hrp, version, program) == Some(ToLower(addr))
            && hrp != "" && ToLower(hrp) == hrp && |addr| <= 90
            && (version == 0 ==> |program| == 20 || |program| == 32)
  {
    LowerTwice(addr);
    if Decode(addr) == Some(Decoded(hrp, version, program)) {
      EncodeInvertsDecode(addr);
      assert Decode(ToLower(addr)) == Decode(addr);
    }
    if Encode(hrp, version, program) == Some(ToLower(addr)) {
      DecodeInvertsEncode(hrp, version, program);
    }
  }

  // ---- bursts ----

  /** Two data parts that differ, and only inside six consecutive places. */
  predicate Burst(x: seq<int>, y: seq<int>, at: nat) {
    |x| == |y| && at + 6 <= |x| && x[..at] == y[..at] && x[at + 6..] == y[at + 6..] && x != y
  }

  lemma WordsInjective(x: seq<int>, y: seq<int>)
    requires Groups(x) && Groups(y) && Words(x) == Words(y)
    ensures x == y
  {
    WordsBack(x);
    WordsBack(y);
  }

  lemma WordsAround(hrp: string, x: seq<int>, at: nat)
    requires Groups(x) && at + 6 <= |x|
    ensures HrpExpand(hrp) + Words(x) == (HrpExpand(hrp) + Words(x[..at])) + Words(x[at..at + 6]) + Words(x[at + 6..])
  {
  }

  /** The checksum never accepts both. */
  lemma BurstFailsCheck(hrp: string, x: seq<int>, y: seq<int>, at: nat, version: int)
    requires Groups(x) && Groups(y) && Burst(x, y, at) && CheckOk(hrp, x, version)
    ensures !CheckOk(hrp, y, version)
  {
    var u, w := x[at..at + 6], y[at..at + 6];
    WordsAround(hrp, x, at);
    WordsAround(hrp, y, at);
    assert x == x[..at] + u + x[at + 6..] && y == y[..at] + w + y[at + 6..];
    if Words(u) == Words(w) {
      WordsInjective(u, w);
    }
    WordsBack(u);
    WordsBack(w);
    PolyBurst(HrpExpand(hrp) + Words(x[..at]), Words(u), Words(w), Words(x[at + 6..]));
  }

  lemma BurstPartsFail(hrp: string, tail: string, other: string, at: nat)
    requires DecodeParts(hrp, tail).Some? && Burst(Symbols(tail), Symbols(other), at)
    requires Symbols(tail)[0] == 0 <==> Symbols(other)[0] == 0
    ensures DecodeParts(hrp, other) == None
  {
    PartsChecked(hrp, tail);
    var x, y := Symbols(tail), Symbols(other);
    if -1 !in y {
      SymbolsReadBack(other);
      BurstFailsCheck(hrp, x, y, at, x[0]);
      assert Spec(x[0]) == Spec(y[0]);
    }
  }

  /** The same character positions, and a different character somewhere among the six from `from` on. */
  predicate Replaced(a: string, b: string, from: nat) {
    |a| == |b| && from + 6 <= |a| && a != b
    && (forall i :: 0 <= i < |a| && !(from <= i < from + 6) ==> a[i] == b[i])
    && (forall i :: from <= i < from + 6 ==> SymbolOf(b[i]) >= 0)
  }

  lemma SeparatorStays(a: string, b: string, from: nat)
    requires Replaced(a, b, from) && 0 <= LastOne(a) < from
    ensures LastOne(b) == LastOne(a)
  {
    forall i | from <= i < from + 6 ensures b[i] != '1' {
      CharBack(b[i]);
      CharsetIsPlain(SymbolOf(b[i]));
    }
  }

  lemma ReplacedIsBurst(a: string, b: string, from: nat, start: nat)
    requires Replaced(a, b, from) && start <= from && -1 !in Symbols(a[start..])
    ensures a[..start] == b[..start] && Burst(Symbols(a[start..]), Symbols(b[start..]), from - start)
  {
    var x, y := a[start..], b[start..];
    var at := from - start;
    assert Symbols(x)[..at] == Symbols(y)[..at];
    assert Symbols(x)[at + 6..] == Symbols(y)[at + 6..];
    var k :| 0 <= k < |a| && a[k] != b[k];
    assert x[k - start] == a[k] && y[k - start] == b[k];
    assert Symbols(x)[k - start] in Symbols(x);
    CharBack(a[k]);
    SymbolInjective(a[k], b[k]);
  }

  lemma SymbolInjective(c: char, d: char)
    requires SymbolOf(c) >= 0
    ensures SymbolOf(c) == SymbolOf(d) <==> c == d
  {
  }

  /** Cut at the separator, the other string has the same prefix and a burst in its data part. */
  lemma BurstSplit(a: string, b: string, from: nat, sep: nat)
    requires Replaced(a, b, from) && LastOne(a) == sep < from && -1 !in Symbols(a[sep + 1..])
    ensures LastOne(b) == sep && b[..sep] == a[..sep]
    ensures Burst(Symbols(a[sep + 1..]), Symbols(b[sep + 1..]), from - sep - 1)
    ensures Symbols(a[sep + 1..])[0] == SymbolOf(a[sep + 1]) && Symbols(b[sep + 1..])[0] == SymbolOf(b[sep + 1])
  {
    SeparatorStays(a, b, from);
    ReplacedIsBurst(a, b, from, sep + 1);
    assert b[..sep] == a[..sep + 1][..sep];
  }

  lemma DecodedSymbols(hrp: string, tail: string)
    requires DecodeParts(hrp, tail).Some?
    ensures -1 !in Symbols(tail)
  {
  }

  lemma LowerBurst(a: string, b: string, from: nat)
    requires DecodeLower(a).Some? && Replaced(a, b, from) && LastOne(a) < from
    requires SymbolOf(a[LastOne(a) + 1]) == 0 <==> SymbolOf(b[LastOne(a) + 1]) == 0
    ensures DecodeLower(b) == None
  {
    var sep := LastOne(a);
    DecodedSymbols(a[..sep], a[sep + 1..]);
    BurstSplit(a, b, from, sep);
    BurstPartsFail(a[..sep], a[sep + 1..], b[sep + 1..], from - sep - 1);
  }

  /** Replacing any characters inside six consecutive data-part positions of a valid address by other
      charset characters, in either case, makes it invalid, unless that switches the version between
      zero and non-zero. */
  lemma BurstIsRejected(addr: string, other: string, from: nat)
    requires Decode(addr).Some? && Replaced(ToLower(addr), ToLower(other), from)
    requires LastOne(ToLower(addr)) < from
    requires var v := LastOne(ToLower(addr)) + 1; SymbolOf(ToLower(addr)[v]) == 0 <==> SymbolOf(ToLower(other)[v]) == 0
    ensures Decode(other) == None
  {
    LowerBurst(ToLower(addr), ToLower(other), from);
  }
}
