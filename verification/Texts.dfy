/** When the vault takes two names or two mnemonics for the same: the same words up to case, whatever white space
    stands around and between them. */
module Texts {
  import opened Common
  import opened VaultState

  /** The Latin capitals become small letters, and nothing else changes. */
  lemma CaseFolds(c: char)
    ensures var capitals, small := "ABCDEFGHIJKLMNOPQRSTUVWXYZ", "abcdefghijklmnopqrstuvwxyz";
            && (forall i :: 0 <= i < 26 ==> LowerChar(capitals[i]) == small[i])
            && (c !in capitals ==> LowerChar(c) == c)
  {
    var capitals := "ABCDEFGHIJKLMNOPQRSTUVWXYZ";
    if 'A' <= c <= 'Z' {
      assert capitals[c as int - 65] == c;
    }
  }

  predicate Blank(s: string) {
    forall i :: 0 <= i < |s| ==> IsSpace(s[i])
  }

  predicate Bare(s: string) {
    s != "" ==> !IsSpace(s[0]) && !IsSpace(s[|s| - 1])
  }

  /** Trim cuts off white space at both ends, and all of it. */
  lemma TrimIsExact(s: string) returns (before: string, after: string)
    ensures s == before + Trim(s) + after && Blank(before) && Blank(after) && Bare(Trim(s))
  {
    before := TrimStartIs(s);
    after := TrimEndIs(TrimStart(s));
  }

  lemma {:induction false} TrimStartIs(s: string) returns (before: string)
    ensures s == before + TrimStart(s) && Blank(before) && (TrimStart(s) != "" ==> !IsSpace(TrimStart(s)[0]))
  {
    before := "";
    if s != "" && IsSpace(s[0]) {
      var more := TrimStartIs(s[1..]);
      before := [s[0]] + more;
    }
  }

  lemma {:induction false} TrimEndIs(s: string) returns (after: string)
    ensures s == TrimEnd(s) + after && Blank(after) && (TrimEnd(s) != "" ==> !IsSpace(TrimEnd(s)[|TrimEnd(s)| - 1]))
    ensures TrimEnd(s) != "" ==> TrimEnd(s)[0] == s[0]
  {
    after := "";
    if s != "" && IsSpace(s[|s| - 1]) {
      var more := TrimEndIs(s[..|s| - 1]);
      after := more + [s[|s| - 1]];
    }
  }

  // ---- words ----

  /** How far the word at the front goes. */
  function WordLength(s: string): (k: nat)
    ensures k <= |s| && (s != "" && !IsSpace(s[0]) ==> k > 0)
    ensures (forall i :: 0 <= i < k ==> !IsSpace(s[i])) && (k < |s| ==> IsSpace(s[k]))
  {
    if s == "" || IsSpace(s[0]) then 0 else 1 + WordLength(s[1..])
  }

  /** The runs of non-blank characters. */
  function Words(s: string): seq<string> {
    if s == "" then []
    else if IsSpace(s[0]) then Words(s[1..])
    else [s[..WordLength(s)]] + Words(s[WordLength(s)..])
  }

  predicate IsWord(w: string) {
    w != "" && forall i :: 0 <= i < |w| ==> !IsSpace(w[i])
  }

  /** One blank between every two. */
  function Joined(ws: seq<string>): string {
    if ws == [] then "" else if |ws| == 1 then ws[0] else ws[0] + " " + Joined(ws[1..])
  }

  lemma {:induction false} WordsAreWords(s: string)
    ensures forall i :: 0 <= i < |Words(s)| ==> IsWord(Words(s)[i])
    ensures s != "" && !IsSpace(s[|s| - 1]) ==> Words(s) != []
    decreases |s|
  {
    if s != "" {
      if IsSpace(s[0]) {
        WordsAreWords(s[1..]);
      } else {
        WordsAreWords(s[WordLength(s)..]);
      }
    }
  }

  lemma JoinFirst(w: string, more: seq<string>)
    ensures Joined([w] + more) == if more == [] then w else w + " " + Joined(more)
  {
    assert ([w] + more)[1..] == more;
  }

  /** What Collapse(s) should be, for a text that does not end in a blank. */
  function Spaced(s: string): string {
    if s != "" && IsSpace(s[0]) then " " + Joined(Words(s)) else Joined(Words(s))
  }

  lemma {:induction false} CollapseJoins(s: string)
    requires s != "" ==> !IsSpace(s[|s| - 1])
    ensures Collapse(s) == Spaced(s)
    decreases |s|
  {
    if s != "" {
      var rest := s[1..];
      assert rest != "" ==> rest[|rest| - 1] == s[|s| - 1];
      CollapseJoins(rest);
      if IsSpace(s[0]) {
        SpaceFirst(s, rest);
      } else if rest == "" {
        LastLetter(s);
      } else if IsSpace(rest[0]) {
        WordsAreWords(rest);
        SpaceAfterFirst(s, rest);
      } else {
        LetterAfterFirst(s, rest);
      }
    }
  }

  lemma SpaceFirst(s: string, rest: string)
    requires |s| > 1 && IsSpace(s[0]) && rest == s[1..] && Collapse(rest) == Spaced(rest)
    ensures Collapse(s) == Spaced(s)
  {
  }

  lemma LastLetter(s: string)
    requires |s| == 1 && !IsSpace(s[0])
    ensures Collapse(s) == Spaced(s)
  {
    assert s[1..] == "" && s[..1] == s && [s[0]] + "" == s;
    assert WordLength(s) == 1;
    JoinFirst(s, []);
    assert Words(s) == [s] + [];
  }

  lemma SpaceAfterFirst(s: string, rest: string)
    requires |s| > 1 && !IsSpace(s[0]) && rest == s[1..] && IsSpace(rest[0])
    requires Words(rest) != [] && Collapse(rest) == Spaced(rest)
    ensures Collapse(s) == Spaced(s)
  {
    assert Words(s) == [[s[0]]] + Words(rest) by {
      assert WordLength(s) == 1 && s[..1] == [s[0]];
    }
    JoinFirst([s[0]], Words(rest));
    LetterThenBlank(s[0], Joined(Words(rest)));
    assert Collapse(s) == [s[0]] + Collapse(rest);
  }

  lemma LetterThenBlank(c: char, rest: string)
    ensures [c] + " " + rest == [c] + (" " + rest)
  {
  }

  lemma LetterAfterFirst(s: string, rest: string)
    requires |s| > 1 && !IsSpace(s[0]) && rest == s[1..] && !IsSpace(rest[0]) && Collapse(rest) == Spaced(rest)
    ensures Collapse(s) == Spaced(s)
  {
    var k := WordLength(rest);
    var more := Words(rest[k..]);
    assert WordLength(s) == k + 1 && s[k + 1..] == rest[k..] && s[..k + 1] == [s[0]] + rest[..k];
    assert Words(s) == [[s[0]] + rest[..k]] + more && Words(rest) == [rest[..k]] + more;
    JoinFirst([s[0]] + rest[..k], more);
    JoinFirst(rest[..k], more);
    OneMoreLetter(s[0], rest[..k], Joined(more));
  }

  lemma OneMoreLetter(c: char, w: string, rest: string)
    ensures [c] + w + " " + rest == [c] + (w + " " + rest)
  {
  }

  lemma {:induction false} WordsBeforeBlank(s: string, after: string)
    requires Blank(after)
    ensures Words(s + after) == Words(s)
    decreases |s|, |after|
  {
    if s == "" {
      if after != "" {
        assert s + after == after;
        WordsBeforeBlank("", after[1..]);
        assert "" + after[1..] == after[1..];
      } else {
        assert s + after == s;
      }
    } else {
      var k := WordLength(s);
      assert (s + after)[0] == s[0];
      if IsSpace(s[0]) {
        assert (s + after)[1..] == s[1..] + after;
        WordsBeforeBlank(s[1..], after);
      } else {
        SameFirstWord(s, after);
        assert (s + after)[k..] == s[k..] + after && (s + after)[..k] == s[..k];
        WordsBeforeBlank(s[k..], after);
      }
    }
  }

  lemma {:induction false} SameFirstWord(s: string, after: string)
    requires Blank(after)
    ensures WordLength(s + after) == WordLength(s)
  {
    if s == "" {
      assert s + after == after;
    } else if !IsSpace(s[0]) {
      assert (s + after)[1..] == s[1..] + after;
      SameFirstWord(s[1..], after);
    }
  }

  lemma {:induction false} WordsAfterBlank(before: string, s: string)
    requires Blank(before)
    ensures Words(before + s) == Words(s)
  {
    if before == "" {
      assert before + s == s;
    } else {
      assert (before + s)[1..] == before[1..] + s;
      WordsAfterBlank(before[1..], s);
    }
  }

  lemma TrimKeepsWords(s: string)
    ensures Words(Trim(s)) == Words(s)
  {
    var before, after := TrimIsExact(s);
    assert s == before + (Trim(s) + after);
    WordsAfterBlank(before, Trim(s) + after);
    WordsBeforeBlank(Trim(s), after);
  }

  // ---- case and white space do not meet ----

  lemma {:induction false} LowerTrimStart(s: string)
    ensures ToLower(TrimStart(s)) == TrimStart(ToLower(s))
  {
    if s != "" && IsSpace(s[0]) {
      assert ToLower(s)[1..] == ToLower(s[1..]);
      LowerTrimStart(s[1..]);
    }
  }

  lemma {:induction false} LowerTrimEnd(s: string)
    ensures ToLower(TrimEnd(s)) == TrimEnd(ToLower(s))
  {
    if s != "" && IsSpace(s[|s| - 1]) {
      assert ToLower(s)[..|s| - 1] == ToLower(s[..|s| - 1]);
      LowerTrimEnd(s[..|s| - 1]);
    }
  }

  /** A normalised mnemonic is its words in small letters, one blank between every two. */
  lemma NormIsWords(m: string)
    ensures NormMnemonic(m) == Joined(Words(ToLower(m)))
  {
    var lower := ToLower(m);
    LowerTrimStart(m);
    LowerTrimEnd(TrimStart(m));
    assert ToLower(Trim(m)) == Trim(lower);
    var before, after := TrimIsExact(lower);
    CollapseJoins(Trim(lower));
    TrimKeepsWords(lower);
  }

  // ---- the same words, the same text ----

  lemma {:induction false} WordsOfJoined(ws: seq<string>)
    requires forall i :: 0 <= i < |ws| ==> IsWord(ws[i])
    ensures Words(Joined(ws)) == ws
    decreases |ws|
  {
    if |ws| == 1 {
      assert ws[0] + "" == ws[0];
      WordThenRest(ws[0], "");
      assert ws == [ws[0]];
    } else if |ws| > 1 {
      var rest := " " + Joined(ws[1..]);
      assert Joined(ws) == ws[0] + rest;
      WordThenRest(ws[0], rest);
      WordsOfJoined(ws[1..]);
      assert rest[1..] == Joined(ws[1..]);
      assert ws == [ws[0]] + ws[1..];
    }
  }

  lemma WordThenRest(w: string, rest: string)
    requires IsWord(w) && (rest != "" ==> IsSpace(rest[0]))
    ensures Words(w + rest) == [w] + Words(rest)
  {
    var s := w + rest;
    var k := WordLength(s);
    assert s[0] == w[0];
    assert forall i :: 0 <= i < |w| ==> s[i] == w[i];
    assert rest != "" ==> s[|w|] == rest[0];
    assert k == |w|;
    assert s[..k] == w && s[k..] == rest;
  }

  /** Two mnemonics are the same seed to the vault exactly when they have the same words up to case. */
  lemma SameSeedIff(a: string, b: string)
    ensures NormMnemonic(a) == NormMnemonic(b) <==> Words(ToLower(a)) == Words(ToLower(b))
  {
    NormIsWords(a);
    NormIsWords(b);
    WordsAreWords(ToLower(a));
    WordsAreWords(ToLower(b));
    WordsOfJoined(Words(ToLower(a)));
    WordsOfJoined(Words(ToLower(b)));
  }
}
