/** Which scripts are DigiDollar metadata, whoever wrote them: what the three parsers accept, and as what. */
module EnvelopeRules {
  import opened Common
  import opened Envelope

  /** Direct pushes, each its length and its bytes. */
  function Written(ps: seq<Bytes>): Bytes
    decreases |ps|, 0
  {
    if ps == [] then [] else [|ps[0]| % 256] + ps[0] + Written(ps[1..])
  }

  ghost predicate Short(ps: seq<Bytes>) {
    forall p :: p in ps ==> |p| <= 75
  }

  /** Pushes, the last of which may say more bytes than are left. */
  ghost predicate SplitsInto(s: Bytes, front: seq<Bytes>, len: byte, last: Bytes) {
    Short(front) && |last| <= len <= 75 && s == Written(front) + [len] + last
  }

  ghost predicate IsPushes(s: Bytes, ps: seq<Bytes>) {
    if ps == [] then s == [] else exists len :: EndsCut(s, ps, len)
  }

  ghost predicate EndsCut(s: Bytes, ps: seq<Bytes>, len: byte)
    requires ps != []
  {
    SplitsInto(s, ps[..|ps| - 1], len, ps[|ps| - 1])
  }

  lemma {:induction false} PushesSplit(s: Bytes, ps: seq<Bytes>) returns (len: byte)
    requires Pushes(s) == Some(ps) && s != []
    ensures ps != [] && EndsCut(s, ps, len)
    decreases |s|
  {
    var p, rest := Sub(s, 1, 1 + s[0]), From(s, 1 + s[0]);
    if rest == [] {
      len := s[0];
      OnlyPush(s, p, len);
      assert Pushes(rest) == Some([]) && [p] + [] == [p];
    } else {
      var more := Pushes(rest).value;
      len := PushesSplit(rest, more);
      FirstPush(s, p, rest);
      LongerSplit(s, p, rest, more, len);
    }
  }

  lemma OnlyPush(s: Bytes, p: Bytes, len: byte)
    requires s != [] && len == s[0] <= 75 && p == Sub(s, 1, 1 + len) && From(s, 1 + len) == []
    ensures EndsCut(s, [p], len)
  {
    assert s == [len] + p && [p][..0] == [];
    assert Written([]) + [len] + p == s;
  }

  lemma FirstPush(s: Bytes, p: Bytes, rest: Bytes)
    requires s != [] && s[0] <= 75 && p == Sub(s, 1, 1 + s[0]) && rest == From(s, 1 + s[0]) && rest != []
    ensures |p| == s[0] && s == [|p|] + p + rest
  {
  }

  lemma LongerSplit(s: Bytes, p: Bytes, rest: Bytes, ps: seq<Bytes>, len: byte)
    requires |p| <= 75 && s == [|p|] + p + rest && ps != [] && EndsCut(rest, ps, len)
    ensures EndsCut(s, [p] + ps, len)
  {
    var front := ps[..|ps| - 1];
    assert ([p] + ps)[..|ps|] == [p] + front;
    assert ([p] + front)[1..] == front;
    assert Written([p] + front) == [|p|] + p + Written(front);
    assert ([p] + ps)[|ps|] == ps[|ps| - 1];
  }

  lemma {:induction false} SplitPushes(s: Bytes, front: seq<Bytes>, len: byte, last: Bytes)
    requires SplitsInto(s, front, len, last)
    ensures Pushes(s) == Some(front + [last])
    decreases |front|
  {
    if front == [] {
      LastPush(s, len, last);
      assert front + [last] == [last];
    } else {
      var p, rest := FirstWritten(s, front, len, last);
      SplitPushes(rest, front[1..], len, last);
      MorePushes(s, p, rest, front[1..] + [last]);
      assert [p] + (front[1..] + [last]) == front + [last];
    }
  }

  lemma FirstWritten(s: Bytes, front: seq<Bytes>, len: byte, last: Bytes) returns (p: Bytes, rest: Bytes)
    requires front != [] && SplitsInto(s, front, len, last)
    ensures p == front[0] && |p| <= 75 && SplitsInto(rest, front[1..], len, last)
    ensures s == [|p| % 256] + p + rest
  {
    p, rest := front[0], Written(front[1..]) + [len] + last;
    assert p in front && forall q :: q in front[1..] ==> q in front;
    Regrouped([|p| % 256] + p, Written(front[1..]), [len], last);
  }

  lemma Regrouped(a: Bytes, b: Bytes, c: Bytes, d: Bytes)
    ensures a + b + c + d == a + (b + c + d)
  {
  }

  lemma LastPush(s: Bytes, len: byte, last: Bytes)
    requires |last| <= len <= 75 && s == [] + [len] + last
    ensures Pushes(s) == Some([last])
  {
    assert s == [len] + last;
    assert Sub(s, 1, 1 + len) == last && From(s, 1 + len) == [];
    assert Pushes([]) == Some([]);
    assert [last] + [] == [last];
  }

  lemma MorePushes(s: Bytes, p: Bytes, rest: Bytes, ps: seq<Bytes>)
    requires |p| <= 75 && s == [|p| % 256] + p + rest && Pushes(rest) == Some(ps)
    ensures Pushes(s) == Some([p] + ps)
  {
    assert s == Push(p) + rest;
    PushesOfOne(p, rest);
  }

  /** A script is read as exactly the pushes it consists of. */
  lemma PushesIff(s: Bytes, ps: seq<Bytes>)
    ensures Pushes(s) == Some(ps) <==> IsPushes(s, ps)
  {
    if s == [] {
      NoPushes(ps);
    } else if Pushes(s) == Some(ps) {
      var len := PushesSplit(s, ps);
    } else if ps != [] && IsPushes(s, ps) {
      var len :| EndsCut(s, ps, len);
      CutIsRead(s, ps, len);
    }
  }

  lemma NoPushes(ps: seq<Bytes>)
    ensures IsPushes([], ps) <==> ps == []
  {
  }

  lemma CutIsRead(s: Bytes, ps: seq<Bytes>, len: byte)
    requires ps != [] && EndsCut(s, ps, len)
    ensures Pushes(s) == Some(ps)
  {
    assert ps == ps[..|ps| - 1] + [ps[|ps| - 1]];
    SplitPushes(s, ps[..|ps| - 1], len, ps[|ps| - 1]);
  }

  // ---- the three kinds ----

  /** OP_RETURN, then pushes of "DD", the code and the fields. */
  ghost predicate Carries(script: Bytes, code: byte, fields: seq<Bytes>) {
    script != [] && script[0] == 0x6a && IsPushes(script[1..], [[0x44, 0x44], [code]] + fields)
  }

  lemma CarriesIff(script: Bytes, code: byte, fields: seq<Bytes>)
    ensures Carries(script, code, fields) <==>
            ScriptPushes(script).Some? && var ps := ScriptPushes(script).value;
            |ps| >= 2 && ps[0] == [0x44, 0x44] && ps[1] == [code] && ps[2..] == fields
  {
    if script != [] && script[0] == 0x6a {
      PushesIff(script[1..], [[0x44, 0x44], [code]] + fields);
      if ScriptPushes(script).Some? && |ScriptPushes(script).value| >= 2 {
        var ps := ScriptPushes(script).value;
        assert ps == [ps[0], ps[1]] + ps[2..];
      }
    }
  }

  /** parseMintMetadata accepts exactly code 1 with three numbers and a key of 32 bytes. */
  lemma MintAccepts(script: Bytes, m: MintMeta)
    ensures ParseMintMetadata(script) == Some(m) <==>
            exists dd, unlock, tier ::
              && Carries(script, 1, [dd, unlock, tier, m.ownerKey]) && |m.ownerKey| == 32
              && LeValue(dd) == m.ddCents && LeValue(unlock) == m.unlockHeight && LeValue(tier) == m.lockTier
  {
    if ParseMintMetadata(script) == Some(m) {
      var ps := ScriptPushes(script).value;
      CarriesIff(script, 1, [ps[2], ps[3], ps[4], m.ownerKey]);
      assert ps[2..] == [ps[2], ps[3], ps[4], m.ownerKey];
    }
    forall dd, unlock, tier | Carries(script, 1, [dd, unlock, tier, m.ownerKey]) && |m.ownerKey| == 32
      ensures ParseMintMetadata(script) == Some(MintMeta(LeValue(dd), LeValue(unlock), LeValue(tier), m.ownerKey))
    {
      var fields := [dd, unlock, tier, m.ownerKey];
      CarriesIff(script, 1, fields);
      var ps := ScriptPushes(script).value;
      assert ps[2] == fields[0] && ps[3] == fields[1] && ps[4] == fields[2] && ps[5] == fields[3];
    }
  }

  /** parseTransferMetadata accepts exactly code 2 with one number or more. */
  lemma TransferAccepts(script: Bytes, amounts: seq<nat>)
    ensures ParseTransferMetadata(script) == Some(amounts) <==>
            exists fields :: Carries(script, 2, fields) && fields != [] && Decoded(fields) == amounts
  {
    if ParseTransferMetadata(script) == Some(amounts) {
      CarriesIff(script, 2, ScriptPushes(script).value[2..]);
    }
    forall fields | Carries(script, 2, fields) && fields != []
      ensures ParseTransferMetadata(script) == Some(Decoded(fields))
    {
      CarriesIff(script, 2, fields);
    }
  }

  /** parseRedeemMetadata accepts exactly code 3 with one number. */
  lemma RedeemAccepts(script: Bytes, change: nat)
    ensures ParseRedeemMetadata(script) == Some(change) <==>
            exists field :: Carries(script, 3, [field]) && LeValue(field) == change
  {
    if ParseRedeemMetadata(script) == Some(change) {
      var ps := ScriptPushes(script).value;
      CarriesIff(script, 3, [ps[2]]);
      assert ps[2..] == [ps[2]];
    }
    forall field | Carries(script, 3, [field]) ensures ParseRedeemMetadata(script) == Some(LeValue(field)) {
      CarriesIff(script, 3, [field]);
      var ps := ScriptPushes(script).value;
      assert ps[2] == ps[2..][0];
    }
  }
}
