/** The txid reader on transactions of any wallet: inputs with scripts, with and without witnesses. */
module TxForms {
  import opened Common
  import opened TxWire
  import opened TxReader

  /** An input and the script it is unlocked by, which only a coin that is not segwit has. */
  datatype ScriptIn = ScriptIn(coin: TxIn, script: Bytes)

  datatype Form = Form(version: nat, ins: seq<ScriptIn>, outs: seq<TxOut>, locktime: nat)

  predicate ScriptsFit(ins: seq<ScriptIn>) {
    forall i :: 0 <= i < |ins| ==> |ins[i].script| <= MAX_VARINT
  }

  predicate FormFits(f: Form) {
    0 < |f.ins| <= MAX_VARINT && |f.outs| <= MAX_VARINT && ScriptsFit(f.ins) && OutsFit(f.outs)
  }

  function ScriptInBytes(i: ScriptIn): Bytes
    requires |i.script| <= MAX_VARINT
  {
    Reverse(i.coin.txid) + U32(i.coin.vout) + (VarBytes(i.script) + U32(i.coin.sequence))
  }

  function ScriptInsBytes(ins: seq<ScriptIn>): Bytes
    requires ScriptsFit(ins)
  {
    if ins == [] then [] else ScriptInBytes(ins[0]) + ScriptInsBytes(ins[1..])
  }

  function Content(f: Form): Bytes
    requires FormFits(f)
  {
    Varint(|f.ins|) + ScriptInsBytes(f.ins) + (Varint(|f.outs|) + OutsBytes(f.outs))
  }

  /** The form without witnesses, whose hash is the txid. */
  function Legacy(f: Form): Bytes
    requires FormFits(f)
  {
    U32(f.version) + Content(f) + U32(f.locktime)
  }

  /** The BIP-144 form. */
  function Segwit(f: Form, ws: seq<Stack>): Bytes
    requires FormFits(f) && StacksFit(ws)
  {
    U32(f.version) + [0x00, 0x01] + Content(f) + StacksBytes(ws) + U32(f.locktime)
  }

  // ---- reading them ----

  lemma ReadsScriptIn(b: Bytes, p: nat, i: ScriptIn)
    requires |i.script| <= MAX_VARINT && Holds(b, p, ScriptInBytes(i))
    ensures var len := ReadVarint(b, p + 36);
            len.Some? && len.value.1 + len.value.0 + 4 == p + |ScriptInBytes(i)|
  {
    HoldsSplit(b, p, Reverse(i.coin.txid) + U32(i.coin.vout), VarBytes(i.script) + U32(i.coin.sequence));
    HoldsSplit(b, p + 36, VarBytes(i.script), U32(i.coin.sequence));
    ReadsVarBytes(b, p + 36, i.script);
  }

  lemma {:induction false} ReadsScriptIns(b: Bytes, p: nat, ins: seq<ScriptIn>)
    requires ScriptsFit(ins) && Holds(b, p, ScriptInsBytes(ins))
    ensures SkipInputs(b, p, |ins|) == Some(p + |ScriptInsBytes(ins)|)
    decreases |ins|
  {
    if ins != [] {
      var one, rest := ScriptInBytes(ins[0]), ScriptInsBytes(ins[1..]);
      HoldsParts(b, p, ScriptInsBytes(ins), one, rest);
      ReadsScriptIn(b, p, ins[0]);
      ReadsScriptIns(b, p + |one|, ins[1..]);
    }
  }

  lemma ReadsContent(b: Bytes, p: nat, f: Form) returns (p1: nat, p2: nat, p3: nat)
    requires FormFits(f) && Holds(b, p, Content(f))
    ensures ReadVarint(b, p) == Some((|f.ins|, p1)) && SkipInputs(b, p1, |f.ins|) == Some(p2)
    ensures ReadVarint(b, p2) == Some((|f.outs|, p3)) && SkipOutputs(b, p3, |f.outs|) == Some(p + |Content(f)|)
  {
    var nIn, ins, nOut, outs := Varint(|f.ins|), ScriptInsBytes(f.ins), Varint(|f.outs|), OutsBytes(f.outs);
    HoldsFour(b, p, nIn, ins, nOut, outs);
    p1, p2, p3 := p + |nIn|, p + |nIn| + |ins|, p + |nIn| + |ins| + |nOut|;
    ReadsVarint(b, p, |f.ins|);
    ReadsScriptIns(b, p1, f.ins);
    ReadsVarint(b, p2, |f.outs|);
    ReadsOutputs(b, p3, f.outs);
  }

  /** Every transaction with an input is read to its end, and what is hashed is its own legacy form. */
  lemma LegacyIsHashed(f: Form)
    requires FormFits(f)
    ensures Strip(Legacy(f)) == Some(Legacy(f))
  {
    var b, v, body, lock := Legacy(f), U32(f.version), Content(f), U32(f.locktime);
    ThreeParts(v, body, lock);
    LegacyIsScanned(b, f);
    LegacyIsCut(b, v, body, lock);
  }

  lemma ThreeParts(v: Bytes, body: Bytes, lock: Bytes)
    ensures Holds(v + body + lock, |v|, body)
  {
    var b := v + body + lock;
    HoldsSplit(b, 0, v + body, lock);
    HoldsSplit(b, 0, v, body);
  }

  lemma LegacyIsScanned(b: Bytes, f: Form)
    requires FormFits(f) && Holds(b, 4, Content(f))
    ensures Scan(b) == Some(Layout(4, 4 + |Content(f)|, 4 + |Content(f)|))
  {
    NotSegwit(b, f);
    var p1, p2, p3 := ReadsContent(b, 4, f);
    LegacyScan(b, p1, p2, p3, 4 + |Content(f)|, |f.ins|, |f.outs|);
  }

  lemma LegacyIsCut(b: Bytes, v: Bytes, body: Bytes, lock: Bytes)
    requires b == v + body + lock && |v| == 4 && |lock| == 4
    requires Scan(b) == Some(Layout(4, 4 + |body|, 4 + |body|))
    ensures Strip(b) == Some(b)
  {
    assert b[..4] + b[4..4 + |body|] + b[|b| - 4..] == b;
  }

  lemma NotSegwit(b: Bytes, f: Form)
    requires FormFits(f) && Holds(b, 4, Content(f))
    ensures !IsSegwit(b)
  {
    assert Content(f)[0] == Varint(|f.ins|)[0] != 0;
    assert b[4 + 0] == Content(f)[0];
  }

  lemma LegacyScan(b: Bytes, p1: nat, p2: nat, p3: nat, end: nat, nIn: nat, nOut: nat)
    requires !IsSegwit(b) && nIn > 0
    requires ReadVarint(b, 4) == Some((nIn, p1)) && SkipInputs(b, p1, nIn) == Some(p2)
    requires ReadVarint(b, p2) == Some((nOut, p3)) && SkipOutputs(b, p3, nOut) == Some(end)
    ensures Scan(b) == Some(Layout(4, end, end))
  {
  }

  /** With witnesses it hashes the same bytes, so both forms of a transaction have one txid. */
  lemma SegwitIsStripped(f: Form, ws: seq<Stack>)
    requires FormFits(f) && StacksFit(ws) && |ws| == |f.ins|
    ensures Strip(Segwit(f, ws)) == Some(Legacy(f))
  {
    SegwitLayout(f, ws);
    StripAtLayout(Segwit(f, ws), U32(f.version), MARKER_FLAG, Content(f), StacksBytes(ws), U32(f.locktime));
  }

  lemma SegwitLayout(f: Form, ws: seq<Stack>)
    requires FormFits(f) && StacksFit(ws) && |ws| == |f.ins|
    ensures Scan(Segwit(f, ws)) == Some(Layout(6, 6 + |Content(f)|, 6 + |Content(f)| + |StacksBytes(ws)|))
  {
    SegwitHolds(f, ws);
    SegwitIsScanned(Segwit(f, ws), f, ws);
  }

  lemma SegwitHolds(f: Form, ws: seq<Stack>)
    requires FormFits(f) && StacksFit(ws)
    ensures var b := Segwit(f, ws);
            Holds(b, 4, MARKER_FLAG) && Holds(b, 6, Content(f)) && Holds(b, 6 + |Content(f)|, StacksBytes(ws))
  {
    FiveParts(U32(f.version), MARKER_FLAG, Content(f), StacksBytes(ws), U32(f.locktime));
  }

  lemma SegwitIsScanned(b: Bytes, f: Form, ws: seq<Stack>)
    requires FormFits(f) && StacksFit(ws) && |ws| == |f.ins|
    requires Holds(b, 4, MARKER_FLAG) && Holds(b, 6, Content(f)) && Holds(b, 6 + |Content(f)|, StacksBytes(ws))
    ensures Scan(b) == Some(Layout(6, 6 + |Content(f)|, 6 + |Content(f)| + |StacksBytes(ws)|))
  {
    var bodyEnd := 6 + |Content(f)|;
    var end := bodyEnd + |StacksBytes(ws)|;
    assert SkipStacks(b, bodyEnd, |f.ins|) == Some(end) by {
      ReadsStacks(b, bodyEnd, ws);
    }
    WitnessesFollow(b, f, bodyEnd, end);
  }

  lemma WitnessesFollow(b: Bytes, f: Form, bodyEnd: nat, end: nat)
    requires FormFits(f) && bodyEnd == 6 + |Content(f)| && Holds(b, 4, MARKER_FLAG) && Holds(b, 6, Content(f))
    requires SkipStacks(b, bodyEnd, |f.ins|) == Some(end)
    ensures Scan(b) == Some(Layout(6, bodyEnd, end))
  {
    MarkerIsSegwit(b);
    var p1, p2, p3 := ReadsContent(b, 6, f);
    SegwitScan(b, p1, p2, p3, bodyEnd, end, |f.ins|, |f.outs|);
  }
}
