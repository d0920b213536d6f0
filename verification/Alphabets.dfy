/** Looking symbols up in an alphabet string, and the two alphabets of the address codecs. */
module Alphabets {

  const CHARSET := "qpzry9x8gf2tvdw0s3jn54khce6mua7l"

  const B58_LOW := "123456789ABCDEFGHJKLMNPQRST"
  const B58_HIGH := "UVWXYZabcdefghijkmnopqrstuvwxyz"
  const B58_ALPHABET: string := B58_LOW + B58_HIGH

  /** indexOf: the first position of c, or -1. */
  function IndexOf(s: string, c: char): (i: int)
    ensures -1 <= i < |s|
    ensures i == -1 <==> c !in s
    ensures i >= 0 ==> s[i] == c
  {
    if s == [] then -1
    else if s[0] == c then 0
    else
      var i := IndexOf(s[1..], c);
      if i < 0 then -1 else i + 1
  }

  predicate Distinct(s: string) {
    forall i, j :: 0 <= i < j < |s| ==> s[i] != s[j]
  }

  lemma IndexOfNth(s: string, k: nat)
    requires Distinct(s) && k < |s|
    ensures IndexOf(s, s[k]) == k
  {
  }

  lemma CharsetDistinct()
    ensures Distinct(CHARSET) && |CHARSET| == 32
  {
  }

  predicate Rising(s: string) {
    forall i, j :: 0 <= i < j < |s| ==> s[i] < s[j]
  }

  lemma LowRises()
    ensures Rising(B58_LOW) && |B58_LOW| == 27
  {
  }

  lemma HighRises()
    ensures Rising(B58_HIGH) && |B58_HIGH| == 31
  {
  }

  lemma JoinRising(a: string, b: string)
    requires Rising(a) && Rising(b) && a != [] && b != [] && a[|a| - 1] < b[0]
    ensures Rising(a + b)
  {
    forall i, j | 0 <= i < |a| && 0 <= j < |b| ensures a[i] < b[j] {
      assert a[i] <= a[|a| - 1] && b[0] <= b[j];
    }
  }

  /** The base58 alphabet runs upwards, so it repeats nothing. */
  lemma B58Rises()
    ensures Rising(B58_ALPHABET) && Distinct(B58_ALPHABET) && |B58_ALPHABET| == 58
  {
    LowRises();
    HighRises();
    JoinRising(B58_LOW, B58_HIGH);
  }

  /** A digit or letter that is not 0, I, O or l; there are 58. */
  predicate Base58Char(c: char) {
    ('1' <= c <= '9' || 'A' <= c <= 'Z' || 'a' <= c <= 'z') && c != 'I' && c != 'O' && c != 'l'
  }

  /** The base58 alphabet is 58 of them in ASCII order, so it is all of them. */
  lemma B58Alphabet()
    ensures |B58_ALPHABET| == 58 && Rising(B58_ALPHABET) && forall i :: 0 <= i < 58 ==> Base58Char(B58_ALPHABET[i])
  {
    B58Rises();
    assert forall i :: 0 <= i < 27 ==> Base58Char(B58_LOW[i]);
    assert forall i :: 0 <= i < 31 ==> Base58Char(B58_HIGH[i]);
  }

  /** The table of BIP-173: the symbols 0 to 31, eight to a row. */
  lemma CharsetTable()
    ensures CHARSET == "qpzry9x8" + "gf2tvdw0" + "s3jn54kh" + "ce6mua7l"
  {
  }
}
