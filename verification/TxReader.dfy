/** txidFromSignedHex as it runs, and why its answer can be trusted: it reads back exactly what
    serializeTx wrote, ignores the signatures, and accepts no prefix and no extension. */
module TxReader {
  import opened Common
  import opened TxWire

  // ---- the imperative reader ----

  method ReadVarintAt(b: Bytes, pos: nat) returns (r: Option<(nat, nat)>)
    ensures r == ReadVarint(b, pos)
  {
    if pos >= |b| {
      return None;
    }
    var first := b[pos];
    if first < 0xfd {
      return Some((first, pos + 1));
    }
    if first == 0xfd {
      assert LeAt(b, pos + 2, 1) == At(b, pos + 2) + 256 * LeAt(b, pos + 3, 0);
      return Some((At(b, pos + 1) + 0x100 * At(b, pos + 2), pos + 3));
    }
    if first == 0xfe {
      var v := LeLoop(b, pos + 1, 4);
      return Some((v, pos + 5));
    }
    var v := LeLoop(b, pos + 1, 8);
    if v > 0xffff_ffff {
      return None;
    }
    return Some((v, pos + 9));
  }

  /** v |= byte << 8i, byte by byte. */
  method LeLoop(b: Bytes, pos: nat, n: nat) returns (v: nat)
    ensures v == LeAt(b, pos, n)
  {
    v := 0;
    var unit := 1;
    var i := 0;
    while i < n
      invariant 0 <= i <= n && unit >= 1
      invariant v + unit * LeAt(b, pos + i, n - i) == LeAt(b, pos, n)
    {
      LeShift(unit, At(b, pos + i), LeAt(b, pos + i + 1, n - i - 1));
      v := v + At(b, pos + i) * unit;
      unit := unit * 256;
      i := i + 1;
    }
  }

  lemma LeShift(unit: int, x: int, rest: int)
    ensures unit * (x + 256 * rest) == x * unit + (unit * 256) * rest
  {
  }

  /** The input loop: each pass steps over outpoint, script and sequence. */
  method PassInputs(b: Bytes, start: nat, nIn: nat) returns (end: Option<nat>)
    ensures end == SkipInputs(b, start, nIn)
  {
    var p: nat := start;
    for i := 0 to nIn
      invariant SkipInputs(b, p, nIn - i) == SkipInputs(b, start, nIn)
    {
      p := p + 36;
      var len := ReadVarintAt(b, p);
      if len == None {
        return None;
      }
      p := len.value.1 + (len.value.0 + 4);
    }
    end := Some(p);
  }

  method PassOutputs(b: Bytes, start: nat, nOut: nat) returns (end: Option<nat>)
    ensures end == SkipOutputs(b, start, nOut)
  {
    var p: nat := start;
    for i := 0 to nOut
      invariant SkipOutputs(b, p, nOut - i) == SkipOutputs(b, start, nOut)
    {
      p := p + 8;
      var len := ReadVarintAt(b, p);
      if len == None {
        return None;
      }
      p := len.value.1 + len.value.0;
    }
    end := Some(p);
  }

  method PassItems(b: Bytes, start: nat, items: nat) returns (end: Option<nat>)
    ensures end == SkipItems(b, start, items)
  {
    var p: nat := start;
    for k := 0 to items
      invariant SkipItems(b, p, items - k) == SkipItems(b, start, items)
    {
      var len := ReadVarintAt(b, p);
      if len == None {
        return None;
      }
      p := len.value.1 + len.value.0;
    }
    end := Some(p);
  }

  method PassStacks(b: Bytes, start: nat, nIn: nat) returns (end: Option<nat>)
    ensures end == SkipStacks(b, start, nIn)
  {
    var p: nat := start;
    for i := 0 to nIn
      invariant SkipStacks(b, p, nIn - i) == SkipStacks(b, start, nIn)
    {
      var items := ReadVarintAt(b, p);
      if items == None {
        return None;
      }
      var q := PassItems(b, items.value.1, items.value.0);
      if q == None {
        return None;
      }
      p := q.value;
    }
    end := Some(p);
  }

  /** The reader with its cursor p; None is a thrown error. */
  method TxidFromSigned(b: Bytes, hash256: Bytes -> Hash32) returns (txid: Option<Bytes>)
    ensures txid == Txid(b, hash256)
  {
    var segwit := |b| > 5 && b[4] == 0x00 && b[5] == 0x01;
    var inStart := if segwit then 6 else 4;
    var nIn := ReadVarintAt(b, inStart);
    if nIn == None || nIn.value.0 == 0 {
      return None;
    }
    var afterIns := PassInputs(b, nIn.value.1, nIn.value.0);
    if afterIns == None {
      return None;
    }
    var nOut := ReadVarintAt(b, afterIns.value);
    if nOut == None {
      return None;
    }
    var bodyEnd := PassOutputs(b, nOut.value.1, nOut.value.0);
    if bodyEnd == None {
      return None;
    }
    var p := bodyEnd;
    if segwit {
      p := PassStacks(b, bodyEnd.value, nIn.value.0);
      if p == None {
        return None;
      }
    }
    assert Scan(b) == Some(Layout(inStart, bodyEnd.value, p.value));
    if p.value + 4 != |b| {
      return None;
    }
    var stripped := CopyParts(b, inStart, bodyEnd.value);
    txid := Some(Reverse(hash256(stripped)));
  }

  /** The three `set` calls that fill the stripped buffer. */
  method CopyParts(b: Bytes, inStart: nat, bodyEnd: nat) returns (r: Bytes)
    requires 4 <= inStart <= bodyEnd <= |b| - 4
    ensures r == b[..4] + b[inStart..bodyEnd] + b[|b| - 4..]
  {
    var n := bodyEnd - inStart;
    var stripped := new byte[4 + n + 4](_ => 0);
    forall i | 0 <= i < 4 {
      stripped[i] := b[i];
    }
    forall i | 0 <= i < n {
      stripped[4 + i] := b[inStart + i];
    }
    forall i | 0 <= i < 4 {
      stripped[4 + n + i] := b[|b| - 4 + i];
    }
    r := stripped[..];
  }

  // ---- reading back what was written ----

  /** The bytes x stand at position p. */
  predicate Holds(b: Bytes, p: nat, x: Bytes) {
    p + |x| <= |b| && forall k :: 0 <= k < |x| ==> b[p + k] == x[k]
  }

  lemma HoldsSplit(b: Bytes, p: nat, x: Bytes, y: Bytes)
    requires Holds(b, p, x + y)
    ensures Holds(b, p, x) && Holds(b, p + |x|, y)
  {
    assert forall k :: 0 <= k < |x| ==> (x + y)[k] == x[k];
    assert forall k :: 0 <= k < |y| ==> y[k] == (x + y)[|x| + k];
  }

  lemma ReadsVarint(b: Bytes, p: nat, n: nat)
    requires n <= MAX_VARINT && Holds(b, p, Varint(n))
    ensures ReadVarint(b, p) == Some((n, p + |Varint(n)|))
  {
    var v := Varint(n);
    assert b[p + 0] == v[0];
    if n >= 0xfd {
      assert At(b, p + 1) == v[1] && At(b, p + 2) == v[2];
      assert LeAt(b, p + 1, 2) == At(b, p + 1) + 256 * LeAt(b, p + 2, 1);
    }
  }

  lemma ReadsOneInput(b: Bytes, p: nat, i: TxIn)
    requires Holds(b, p, InBytes(i))
    ensures ReadVarint(b, p + 36) == Some((0, p + 37))
  {
    var prevout := Reverse(i.txid) + U32(i.vout);
    assert InBytes(i) == prevout + (Varint(0) + U32(i.sequence));
    HoldsSplit(b, p, prevout, Varint(0) + U32(i.sequence));
    HoldsSplit(b, p + 36, Varint(0), U32(i.sequence));
    ReadsVarint(b, p + 36, 0);
  }

  lemma {:induction false} ReadsInputs(b: Bytes, p: nat, ins: seq<TxIn>)
    requires Holds(b, p, InsBytes(ins))
    ensures SkipInputs(b, p, |ins|) == Some(p + |InsBytes(ins)|)
    decreases |ins|
  {
    if ins != [] {
      HoldsSplit(b, p, InBytes(ins[0]), InsBytes(ins[1..]));
      ReadsOneInput(b, p, ins[0]);
      ReadsInputs(b, p + 41, ins[1..]);
    }
  }

  lemma ReadsOneOutput(b: Bytes, p: nat, o: TxOut)
    requires |o.script| <= MAX_VARINT && Holds(b, p, OutBytes(o))
    ensures var len := ReadVarint(b, p + 8);
            len.Some? && len.value.1 + len.value.0 == p + |OutBytes(o)|
  {
    HoldsSplit(b, p, U64(o.valueSats), VarBytes(o.script));
    ReadsVarBytes(b, p + 8, o.script);
  }

  lemma {:induction false} ReadsOutputs(b: Bytes, p: nat, outs: seq<TxOut>)
    requires OutsFit(outs) && Holds(b, p, OutsBytes(outs))
    ensures SkipOutputs(b, p, |outs|) == Some(p + |OutsBytes(outs)|)
    decreases |outs|
  {
    if outs != [] {
      OutsFitCons(outs);
      var one, rest := OutBytes(outs[0]), OutsBytes(outs[1..]);
      assert OutsBytes(outs) == one + rest;
      HoldsSplit(b, p, one, rest);
      ReadsOneOutput(b, p, outs[0]);
      var len := ReadVarint(b, p + 8).value;
      ReadsOutputs(b, len.1 + len.0, outs[1..]);
    }
  }

  lemma ReadsVarBytes(b: Bytes, p: nat, x: Bytes)
    requires |x| <= MAX_VARINT && Holds(b, p, VarBytes(x))
    ensures var len := ReadVarint(b, p);
            len.Some? && len.value.1 + len.value.0 == p + |VarBytes(x)|
  {
    HoldsSplit(b, p, Varint(|x|), x);
    ReadsVarint(b, p, |x|);
  }

  lemma {:induction false} ReadsItems(b: Bytes, p: nat, w: Stack)
    requires ItemsFit(w) && Holds(b, p, ItemsBytes(w))
    ensures SkipItems(b, p, |w|) == Some(p + |ItemsBytes(w)|)
    decreases |w|
  {
    if w != [] {
      ItemsFitCons(w);
      var one, rest := VarBytes(w[0]), ItemsBytes(w[1..]);
      assert ItemsBytes(w) == one + rest;
      HoldsSplit(b, p, one, rest);
      ReadsVarBytes(b, p, w[0]);
      ReadsItems(b, p + |one|, w[1..]);
    }
  }

  lemma ReadsOneStack(b: Bytes, p: nat, w: Stack)
    requires StackFits(w) && Holds(b, p, StackBytes(w))
    ensures var items := ReadVarint(b, p);
            items.Some? && SkipItems(b, items.value.1, items.value.0) == Some(p + |StackBytes(w)|)
  {
    var count, items := Varint(|w|), ItemsBytes(w);
    assert StackBytes(w) == count + items;
    HoldsSplit(b, p, count, items);
    ReadsVarint(b, p, |w|);
    ReadsItems(b, p + |count|, w);
  }

  lemma StacksStep(b: Bytes, p: nat, n: nat, next: nat)
    requires n > 0 && ReadVarint(b, p).Some?
    requires SkipItems(b, ReadVarint(b, p).value.1, ReadVarint(b, p).value.0) == Some(next)
    ensures SkipStacks(b, p, n) == SkipStacks(b, next, n - 1)
  {
  }

  lemma {:induction false} ReadsStacks(b: Bytes, p: nat, ws: seq<Stack>)
    requires StacksFit(ws) && Holds(b, p, StacksBytes(ws))
    ensures SkipStacks(b, p, |ws|) == Some(p + |StacksBytes(ws)|)
    decreases |ws|
  {
    if ws != [] {
      FirstStack(b, p, ws);
      var q := p + |StackBytes(ws[0])|;
      ReadsOneStack(b, p, ws[0]);
      StacksStep(b, p, |ws|, q);
      ReadsStacks(b, q, ws[1..]);
    }
  }

  lemma FirstStack(b: Bytes, p: nat, ws: seq<Stack>)
    requires ws != [] && StacksFit(ws) && Holds(b, p, StacksBytes(ws))
    ensures Holds(b, p, StackBytes(ws[0])) && Holds(b, p + |StackBytes(ws[0])|, StacksBytes(ws[1..]))
    ensures |StacksBytes(ws)| == |StackBytes(ws[0])| + |StacksBytes(ws[1..])|
  {
    StacksFront(ws);
    HoldsParts(b, p, StacksBytes(ws), StackBytes(ws[0]), StacksBytes(ws[1..]));
  }

  lemma StacksFront(ws: seq<Stack>)
    requires ws != [] && StacksFit(ws)
    ensures StacksBytes(ws) == StackBytes(ws[0]) + StacksBytes(ws[1..])
  {
  }

  lemma HoldsParts(b: Bytes, p: nat, xy: Bytes, x: Bytes, y: Bytes)
    requires xy == x + y && Holds(b, p, xy)
    ensures Holds(b, p, x) && Holds(b, p + |x|, y)
  {
    HoldsSplit(b, p, x, y);
  }

  lemma HoldsFour(b: Bytes, p: nat, w: Bytes, x: Bytes, y: Bytes, z: Bytes)
    requires Holds(b, p, w + x + (y + z))
    ensures Holds(b, p, w) && Holds(b, p + |w|, x) && Holds(b, p + |w| + |x|, y) && Holds(b, p + |w| + |x| + |y|, z)
    ensures |w + x + (y + z)| == |w| + |x| + |y| + |z|
  {
    HoldsSplit(b, p, w + x, y + z);
    HoldsSplit(b, p, w, x);
    HoldsSplit(b, p + |w + x|, y, z);
  }

  lemma BodyParts(b: Bytes, p: nat, tx: Tx) returns (p1: nat, p2: nat, p3: nat)
    requires |tx.inputs| <= MAX_VARINT && |tx.outputs| <= MAX_VARINT && OutsFit(tx.outputs)
    requires Holds(b, p, Body(tx))
    ensures Holds(b, p, Varint(|tx.inputs|)) && p1 == p + |Varint(|tx.inputs|)|
    ensures Holds(b, p1, InsBytes(tx.inputs)) && p2 == p1 + |InsBytes(tx.inputs)|
    ensures Holds(b, p2, Varint(|tx.outputs|)) && p3 == p2 + |Varint(|tx.outputs|)|
    ensures Holds(b, p3, OutsBytes(tx.outputs)) && p + |Body(tx)| == p3 + |OutsBytes(tx.outputs)|
  {
    var nIn, ins := Varint(|tx.inputs|), InsBytes(tx.inputs);
    var nOut, outs := Varint(|tx.outputs|), OutsBytes(tx.outputs);
    assert Body(tx) == nIn + ins + (nOut + outs);
    HoldsFour(b, p, nIn, ins, nOut, outs);
    p1, p2, p3 := p + |nIn|, p + |nIn| + |ins|, p + |nIn| + |ins| + |nOut|;
  }

  /** The parts of the body, read in order from p. */
  lemma ReadsBody(b: Bytes, p: nat, tx: Tx) returns (p1: nat, p2: nat, p3: nat)
    requires |tx.inputs| <= MAX_VARINT && |tx.outputs| <= MAX_VARINT && OutsFit(tx.outputs)
    requires Holds(b, p, Body(tx))
    ensures ReadVarint(b, p) == Some((|tx.inputs|, p1))
    ensures SkipInputs(b, p1, |tx.inputs|) == Some(p2)
    ensures ReadVarint(b, p2) == Some((|tx.outputs|, p3))
    ensures SkipOutputs(b, p3, |tx.outputs|) == Some(p + |Body(tx)|)
  {
    p1, p2, p3 := BodyParts(b, p, tx);
    ReadsVarint(b, p, |tx.inputs|);
    ReadsInputs(b, p1, tx.inputs);
    ReadsVarint(b, p2, |tx.outputs|);
    ReadsOutputs(b, p3, tx.outputs);
  }

  lemma WireParts(tx: Tx, ws: seq<Stack>)
    requires Fits(tx, ws)
    ensures var b := Wire(tx, ws);
            && Holds(b, 0, U32(tx.version)) && Holds(b, 4, MARKER_FLAG) && Holds(b, 6, Body(tx))
            && Holds(b, 6 + |Body(tx)|, StacksBytes(ws))
            && Holds(b, 6 + |Body(tx)| + |StacksBytes(ws)|, U32(tx.locktime))
            && |b| == 6 + |Body(tx)| + |StacksBytes(ws)| + 4
  {
    FiveParts(U32(tx.version), MARKER_FLAG, Body(tx), StacksBytes(ws), U32(tx.locktime));
  }

  lemma FiveParts(v: Bytes, mark: Bytes, body: Bytes, stacks: Bytes, lock: Bytes)
    ensures var b := v + mark + body + stacks + lock;
            && Holds(b, 0, v) && Holds(b, |v|, mark) && Holds(b, |v| + |mark|, body)
            && Holds(b, |v| + |mark| + |body|, stacks) && Holds(b, |v| + |mark| + |body| + |stacks|, lock)
  {
    var b := v + mark + body + stacks + lock;
    HoldsSplit(b, 0, v + mark + body + stacks, lock);
    HoldsSplit(b, 0, v + mark + body, stacks);
    HoldsSplit(b, 0, v + mark, body);
    HoldsSplit(b, 0, v, mark);
  }

  lemma MarkerIsSegwit(b: Bytes)
    requires Holds(b, 4, MARKER_FLAG)
    ensures IsSegwit(b)
  {
    assert b[4 + 0] == MARKER_FLAG[0] && b[4 + 1] == MARKER_FLAG[1];
  }

  /** The reader finds every boundary of a serialized transaction. */
  lemma ScanFindsLayout(tx: Tx, ws: seq<Stack>)
    requires Fits(tx, ws) && tx.inputs != [] && |ws| == |tx.inputs|
    ensures Scan(Wire(tx, ws)) == Some(Layout(6, 6 + |Body(tx)|, 6 + |Body(tx)| + |StacksBytes(ws)|))
  {
    var b := Wire(tx, ws);
    WireParts(tx, ws);
    ScanOf(b, tx, ws);
  }

  lemma ScanOf(b: Bytes, tx: Tx, ws: seq<Stack>)
    requires Fits(tx, ws) && tx.inputs != [] && |ws| == |tx.inputs|
    requires Holds(b, 4, MARKER_FLAG) && Holds(b, 6, Body(tx)) && Holds(b, 6 + |Body(tx)|, StacksBytes(ws))
    ensures Scan(b) == Some(Layout(6, 6 + |Body(tx)|, 6 + |Body(tx)| + |StacksBytes(ws)|))
  {
    MarkerIsSegwit(b);
    var p1, p2, p3 := ReadsBody(b, 6, tx);
    var bodyEnd := 6 + |Body(tx)|;
    var end := bodyEnd + |StacksBytes(ws)|;
    assert SkipStacks(b, bodyEnd, |tx.inputs|) == Some(end) by {
      ReadsStacks(b, bodyEnd, ws);
    }
    assert Scan(b) == Some(Layout(6, bodyEnd, end)) by {
      SegwitScan(b, p1, p2, p3, bodyEnd, end, |tx.inputs|, |tx.outputs|);
    }
  }

  lemma SegwitScan(b: Bytes, p1: nat, p2: nat, p3: nat, bodyEnd: nat, end: nat, nIn: nat, nOut: nat)
    requires IsSegwit(b) && nIn > 0
    requires ReadVarint(b, 6) == Some((nIn, p1)) && SkipInputs(b, p1, nIn) == Some(p2)
    requires ReadVarint(b, p2) == Some((nOut, p3)) && SkipOutputs(b, p3, nOut) == Some(bodyEnd)
    requires SkipStacks(b, bodyEnd, nIn) == Some(end)
    ensures Scan(b) == Some(Layout(6, bodyEnd, end))
  {
  }

  lemma CutParts(b: Bytes, v: Bytes, body: Bytes, lock: Bytes)
    requires |v| == 4 && |lock| == 4 && |b| >= 10 + |body|
    requires Holds(b, 0, v) && Holds(b, 6, body) && Holds(b, |b| - 4, lock)
    ensures b[..4] + b[6..6 + |body|] + b[|b| - 4..] == v + body + lock
  {
  }

  /** What the reader hashes is exactly the witness-free serialization. */
  lemma StripInvertsWire(tx: Tx, ws: seq<Stack>)
    requires Fits(tx, ws) && tx.inputs != [] && |ws| == |tx.inputs|
    ensures Strip(Wire(tx, ws)) == Some(Stripped(tx))
  {
    ScanFindsLayout(tx, ws);
    StripAtLayout(Wire(tx, ws), U32(tx.version), MARKER_FLAG, Body(tx), StacksBytes(ws), U32(tx.locktime));
  }

  lemma StripAtLayout(b: Bytes, v: Bytes, mark: Bytes, body: Bytes, stacks: Bytes, lock: Bytes)
    requires b == v + mark + body + stacks + lock && |v| == 4 && |mark| == 2 && |lock| == 4
    requires Scan(b) == Some(Layout(6, 6 + |body|, 6 + |body| + |stacks|))
    ensures Strip(b) == Some(v + body + lock)
  {
    FiveParts(v, mark, body, stacks, lock);
    CutParts(b, v, body, lock);
  }

  /** Signatures do not move the txid. */
  lemma TxidIgnoresWitness(tx: Tx, ws1: seq<Stack>, ws2: seq<Stack>, hash256: Bytes -> Hash32)
    requires Fits(tx, ws1) && Fits(tx, ws2) && tx.inputs != []
    requires |ws1| == |tx.inputs| == |ws2|
    ensures Txid(Wire(tx, ws1), hash256) == Txid(Wire(tx, ws2), hash256) == Some(Reverse(hash256(Stripped(tx))))
  {
    StripInvertsWire(tx, ws1);
    StripInvertsWire(tx, ws2);
  }

  // ---- no prefix, no extension ----

  lemma {:induction false} LeAtPrefix(q: Bytes, b: Bytes, pos: nat, n: nat)
    requires q <= b && pos + n <= |q|
    ensures LeAt(q, pos, n) == LeAt(b, pos, n)
    decreases n
  {
    if n > 0 {
      LeAtPrefix(q, b, pos + 1, n - 1);
    }
  }

  lemma VarintPrefix(q: Bytes, b: Bytes, pos: nat)
    requires q <= b && ReadVarint(q, pos).Some? && ReadVarint(q, pos).value.1 <= |q|
    ensures ReadVarint(b, pos) == ReadVarint(q, pos)
  {
    assert b[pos] == q[pos];
    if q[pos] == 0xfd {
      LeAtPrefix(q, b, pos + 1, 2);
    } else if q[pos] == 0xfe {
      LeAtPrefix(q, b, pos + 1, 4);
    } else if q[pos] == 0xff {
      LeAtPrefix(q, b, pos + 1, 8);
    }
  }

  lemma {:induction false} InputsPrefix(q: Bytes, b: Bytes, p: nat, n: nat)
    requires q <= b && SkipInputs(q, p, n).Some? && SkipInputs(q, p, n).value <= |q|
    ensures SkipInputs(b, p, n) == SkipInputs(q, p, n)
    decreases n
  {
    if n > 0 {
      VarintPrefix(q, b, p + 36);
      var len := ReadVarint(q, p + 36).value;
      InputsPrefix(q, b, len.1 + len.0 + 4, n - 1);
    }
  }

  lemma {:induction false} OutputsPrefix(q: Bytes, b: Bytes, p: nat, n: nat)
    requires q <= b && SkipOutputs(q, p, n).Some? && SkipOutputs(q, p, n).value <= |q|
    ensures SkipOutputs(b, p, n) == SkipOutputs(q, p, n)
    decreases n
  {
    if n > 0 {
      VarintPrefix(q, b, p + 8);
      var len := ReadVarint(q, p + 8).value;
      OutputsPrefix(q, b, len.1 + len.0, n - 1);
    }
  }

  lemma {:induction false} ItemsPrefix(q: Bytes, b: Bytes, p: nat, n: nat)
    requires q <= b && SkipItems(q, p, n).Some? && SkipItems(q, p, n).value <= |q|
    ensures SkipItems(b, p, n) == SkipItems(q, p, n)
    decreases n
  {
    if n > 0 {
      VarintPrefix(q, b, p);
      var len := ReadVarint(q, p).value;
      ItemsPrefix(q, b, len.1 + len.0, n - 1);
    }
  }

  lemma {:induction false} StacksPrefix(q: Bytes, b: Bytes, p: nat, n: nat)
    requires q <= b && SkipStacks(q, p, n).Some? && SkipStacks(q, p, n).value <= |q|
    ensures SkipStacks(b, p, n) == SkipStacks(q, p, n)
    decreases n
  {
    if n > 0 {
      var items := ReadVarint(q, p).value;
      var r := SkipItems(q, items.1, items.0).value;
      VarintPrefix(q, b, p);
      ItemsPrefix(q, b, items.1, items.0);
      StacksPrefix(q, b, r, n - 1);
    }
  }

  /** A scan that stays inside q reads only q, so it goes the same way in every extension of q. */
  lemma ScanPrefix(q: Bytes, b: Bytes)
    requires q <= b && Scan(q).Some? && Scan(q).value.end + 4 <= |q|
    ensures Scan(b) == Scan(q)
  {
    var inStart := Scan(q).value.inStart;
    var nIn := ReadVarint(q, inStart).value;
    assert IsSegwit(b) <==> IsSegwit(q);
    VarintPrefix(q, b, inStart);
    InputsPrefix(q, b, nIn.1, nIn.0);
    var afterIns := SkipInputs(q, nIn.1, nIn.0).value;
    VarintPrefix(q, b, afterIns);
    var nOut := ReadVarint(q, afterIns).value;
    OutputsPrefix(q, b, nOut.1, nOut.0);
    if IsSegwit(q) {
      StacksPrefix(q, b, SkipOutputs(q, nOut.1, nOut.0).value, nIn.0);
    }
  }

  /** The accepted byte strings are prefix-free: of two, neither begins with the other. */
  lemma AcceptedIsPrefixFree(q: Bytes, b: Bytes)
    requires q < b
    ensures Strip(q) == None || Strip(b) == None
  {
    if Strip(q).Some? {
      ScanPrefix(q, b);
    }
  }

  /** No proper prefix and no extension of a serialized transaction is accepted. */
  lemma OnlyTheWholeTransaction(tx: Tx, ws: seq<Stack>, other: Bytes)
    requires Fits(tx, ws) && tx.inputs != [] && |ws| == |tx.inputs|
    requires other < Wire(tx, ws) || Wire(tx, ws) < other
    ensures Strip(other) == None
  {
    StripInvertsWire(tx, ws);
    if other < Wire(tx, ws) {
      AcceptedIsPrefixFree(other, Wire(tx, ws));
    } else {
      AcceptedIsPrefixFree(Wire(tx, ws), other);
    }
  }
}
