/** The wire form of a signed transaction (serializeTx) and the reader that strips it back to
    what a txid hashes (txidFromSignedHex). */
module TxWire {
  import opened Common

  /** A txid in display order; the wire carries it reversed. */
  type Hash32 = s: Bytes | |s| == 32 witness seq(32, i => 0)

  datatype TxIn = TxIn(txid: Hash32, vout: int, sequence: int)

  datatype TxOut = TxOut(valueSats: int, script: Bytes)

  type Stack = seq<Bytes>

  datatype Tx = Tx(version: int, locktime: int, inputs: seq<TxIn>, outputs: seq<TxOut>)

  const MAX_VARINT := 0xffff

  // ---- numbers on the wire ----

  /** n little-endian bytes of v, two's complement. */
  function LeBytes(v: int, n: nat): (r: Bytes)
    ensures |r| == n
    decreases n, v
  {
    if n == 0 then [] else [v % 256] + LeBytes(v / 256, n - 1)
  }

  function U32(v: int): (r: Bytes)
    ensures |r| == 4
  {
    LeBytes(v, 4)
  }

  function U64(v: int): (r: Bytes)
    ensures |r| == 8
  {
    LeBytes(v, 8)
  }

  function Varint(n: nat): Bytes
    requires n <= MAX_VARINT
  {
    if n < 0xfd then [n] else [0xfd, n % 256, n / 256]
  }

  function VarBytes(s: Bytes): Bytes
    requires |s| <= MAX_VARINT
  {
    Varint(|s|) + s
  }

  // ---- serializeTx ----

  function InBytes(i: TxIn): (r: Bytes)
    ensures |r| == 41
  {
    Reverse(i.txid) + U32(i.vout) + [0] + U32(i.sequence)
  }

  function InsBytes(ins: seq<TxIn>): Bytes {
    if ins == [] then [] else InBytes(ins[0]) + InsBytes(ins[1..])
  }

  function OutBytes(o: TxOut): Bytes
    requires |o.script| <= MAX_VARINT
  {
    U64(o.valueSats) + VarBytes(o.script)
  }

  predicate OutsFit(outs: seq<TxOut>) {
    forall i :: 0 <= i < |outs| ==> |outs[i].script| <= MAX_VARINT
  }

  function OutsBytes(outs: seq<TxOut>): Bytes
    requires OutsFit(outs)
  {
    if outs == [] then [] else OutBytes(outs[0]) + OutsBytes(outs[1..])
  }

  predicate ItemsFit(w: Stack) {
    forall i :: 0 <= i < |w| ==> |w[i]| <= MAX_VARINT
  }

  function ItemsBytes(w: Stack): Bytes
    requires ItemsFit(w)
  {
    if w == [] then [] else VarBytes(w[0]) + ItemsBytes(w[1..])
  }

  predicate StackFits(w: Stack) {
    |w| <= MAX_VARINT && ItemsFit(w)
  }

  predicate StacksFit(ws: seq<Stack>) {
    forall i :: 0 <= i < |ws| ==> StackFits(ws[i])
  }

  function StackBytes(w: Stack): Bytes
    requires StackFits(w)
  {
    Varint(|w|) + ItemsBytes(w)
  }

  function StacksBytes(ws: seq<Stack>): Bytes
    requires StacksFit(ws)
  {
    if ws == [] then [] else StackBytes(ws[0]) + StacksBytes(ws[1..])
  }

  /** Every length is in the range varint() accepts. */
  predicate Fits(tx: Tx, ws: seq<Stack>) {
    && |tx.inputs| <= MAX_VARINT && |tx.outputs| <= MAX_VARINT
    && OutsFit(tx.outputs) && StacksFit(ws)
  }

  function Body(tx: Tx): Bytes
    requires |tx.inputs| <= MAX_VARINT && |tx.outputs| <= MAX_VARINT && OutsFit(tx.outputs)
  {
    Varint(|tx.inputs|) + InsBytes(tx.inputs) + (Varint(|tx.outputs|) + OutsBytes(tx.outputs))
  }

  const MARKER_FLAG: Bytes := [0x00, 0x01]

  /** The segwit serialization. */
  function Wire(tx: Tx, ws: seq<Stack>): Bytes
    requires Fits(tx, ws)
  {
    U32(tx.version) + MARKER_FLAG + Body(tx) + StacksBytes(ws) + U32(tx.locktime)
  }

  /** The serialization a txid is the hash of. */
  function Stripped(tx: Tx): Bytes
    requires |tx.inputs| <= MAX_VARINT && |tx.outputs| <= MAX_VARINT && OutsFit(tx.outputs)
  {
    U32(tx.version) + Body(tx) + U32(tx.locktime)
  }

  /** varint(): None is its RangeError. */
  method WriteVarint(n: nat) returns (r: Option<Bytes>)
    ensures r == if n <= MAX_VARINT then Some(Varint(n)) else None
  {
    if n < 0xfd {
      r := Some([n]);
    } else if n <= 0xffff {
      r := Some([0xfd, n % 256, n / 256]);
    } else {
      r := None;
    }
  }

  method WriteOutputs(outs: seq<TxOut>) returns (r: Option<Bytes>)
    ensures r == if OutsFit(outs) then Some(OutsBytes(outs)) else None
  {
    var parts: Bytes := [];
    var rest := outs;
    while rest != []
      invariant OutsFit(outs) <==> OutsFit(rest)
      invariant OutsFit(outs) ==> parts + OutsBytes(rest) == OutsBytes(outs)
      decreases |rest|
    {
      var o := rest[0];
      OutsFitCons(rest);
      var len := WriteVarint(|o.script|);
      if len == None {
        return None;
      }
      parts := parts + (U64(o.valueSats) + (len.value + o.script));
      rest := rest[1..];
    }
    assert parts + OutsBytes(rest) == parts;
    r := Some(parts);
  }

  lemma OutsFitCons(outs: seq<TxOut>)
    requires outs != []
    ensures OutsFit(outs) <==> |outs[0].script| <= MAX_VARINT && OutsFit(outs[1..])
  {
    if |outs[0].script| <= MAX_VARINT && OutsFit(outs[1..]) {
      assert forall i :: 1 <= i < |outs| ==> outs[i] == outs[1..][i - 1];
    }
  }

  lemma ItemsFitCons(w: Stack)
    requires w != []
    ensures ItemsFit(w) <==> |w[0]| <= MAX_VARINT && ItemsFit(w[1..])
  {
    if |w[0]| <= MAX_VARINT && ItemsFit(w[1..]) {
      assert forall i :: 1 <= i < |w| ==> w[i] == w[1..][i - 1];
    }
  }

  lemma StacksFitCons(ws: seq<Stack>)
    requires ws != []
    ensures StacksFit(ws) <==> StackFits(ws[0]) && StacksFit(ws[1..])
  {
    if StackFits(ws[0]) && StacksFit(ws[1..]) {
      assert forall i :: 1 <= i < |ws| ==> ws[i] == ws[1..][i - 1];
    }
  }

  method WriteStack(w: Stack) returns (r: Option<Bytes>)
    ensures r == if StackFits(w) then Some(StackBytes(w)) else None
  {
    var count := WriteVarint(|w|);
    if count == None {
      return None;
    }
    var parts: Bytes := [];
    var rest := w;
    while rest != []
      invariant ItemsFit(w) <==> ItemsFit(rest)
      invariant ItemsFit(w) ==> parts + ItemsBytes(rest) == ItemsBytes(w)
      decreases |rest|
    {
      ItemsFitCons(rest);
      var len := WriteVarint(|rest[0]|);
      if len == None {
        return None;
      }
      parts := parts + (len.value + rest[0]);
      rest := rest[1..];
    }
    assert parts + ItemsBytes(rest) == parts;
    r := Some(count.value + parts);
  }

  method WriteStacks(ws: seq<Stack>) returns (r: Option<Bytes>)
    ensures r == if StacksFit(ws) then Some(StacksBytes(ws)) else None
  {
    var parts: Bytes := [];
    var rest := ws;
    while rest != []
      invariant StacksFit(ws) <==> StacksFit(rest)
      invariant StacksFit(ws) ==> parts + StacksBytes(rest) == StacksBytes(ws)
      decreases |rest|
    {
      StacksFitCons(rest);
      var one := WriteStack(rest[0]);
      if one == None {
        return None;
      }
      parts := parts + one.value;
      rest := rest[1..];
    }
    assert parts + StacksBytes(rest) == parts;
    r := Some(parts);
  }

  method WriteInputs(ins: seq<TxIn>) returns (r: Bytes)
    ensures r == InsBytes(ins)
  {
    r := [];
    var rest := ins;
    while rest != []
      invariant r + InsBytes(rest) == InsBytes(ins)
      decreases |rest|
    {
      r := r + InBytes(rest[0]);
      rest := rest[1..];
    }
  }

  /** serializeTx: the wire bytes, or None where a count or a length is out of varint range. */
  method SerializeTx(tx: Tx, ws: seq<Stack>) returns (r: Option<Bytes>)
    ensures r == if Fits(tx, ws) then Some(Wire(tx, ws)) else None
  {
    var nIn := WriteVarint(|tx.inputs|);
    if nIn == None {
      return None;
    }
    var ins := WriteInputs(tx.inputs);
    var nOut := WriteVarint(|tx.outputs|);
    if nOut == None {
      return None;
    }
    var outs := WriteOutputs(tx.outputs);
    if outs == None {
      return None;
    }
    var stacks := WriteStacks(ws);
    if stacks == None {
      return None;
    }
    r := Some(U32(tx.version) + MARKER_FLAG + (nIn.value + ins + (nOut.value + outs.value)) + stacks.value + U32(tx.locktime));
  }

  // ---- the reader ----

  /** A byte past the end reads as `undefined`, which the bit operators take for 0. */
  function At(b: Bytes, i: nat): byte {
    if i < |b| then b[i] else 0
  }

  function LeAt(b: Bytes, pos: nat, n: nat): nat
    decreases n, pos
  {
    if n == 0 then 0 else At(b, pos) + 256 * LeAt(b, pos + 1, n - 1)
  }

  /** readVarint: (value, next position); None is a thrown error. */
  function ReadVarint(b: Bytes, pos: nat): (r: Option<(nat, nat)>)
    ensures r.Some? ==> pos < r.value.1 && pos < |b|
  {
    if pos >= |b| then None
    else if b[pos] < 0xfd then Some((b[pos], pos + 1))
    else if b[pos] == 0xfd then Some((LeAt(b, pos + 1, 2), pos + 3))
    else if b[pos] == 0xfe then Some((LeAt(b, pos + 1, 4), pos + 5))
    else
      var v := LeAt(b, pos + 1, 8);
      if v > 0xffff_ffff then None else Some((v, pos + 9))
  }

  function SkipInputs(b: Bytes, p: nat, n: nat): (r: Option<nat>)
    ensures r.Some? ==> p <= r.value
    decreases n
  {
    if n == 0 then Some(p)
    else
      var len := ReadVarint(b, p + 36);
      if len == None then None else SkipInputs(b, len.value.1 + len.value.0 + 4, n - 1)
  }

  function SkipOutputs(b: Bytes, p: nat, n: nat): (r: Option<nat>)
    ensures r.Some? ==> p <= r.value
    decreases n
  {
    if n == 0 then Some(p)
    else
      var len := ReadVarint(b, p + 8);
      if len == None then None else SkipOutputs(b, len.value.1 + len.value.0, n - 1)
  }

  function SkipItems(b: Bytes, p: nat, n: nat): (r: Option<nat>)
    ensures r.Some? ==> p <= r.value
    decreases n
  {
    if n == 0 then Some(p)
    else
      var len := ReadVarint(b, p);
      if len == None then None else SkipItems(b, len.value.1 + len.value.0, n - 1)
  }

  function SkipStacks(b: Bytes, p: nat, n: nat): (r: Option<nat>)
    ensures r.Some? ==> p <= r.value
    decreases n
  {
    if n == 0 then Some(p)
    else
      var items := ReadVarint(b, p);
      if items == None then None
      else
        var q := SkipItems(b, items.value.1, items.value.0);
        if q == None then None else SkipStacks(b, q.value, n - 1)
  }

  predicate IsSegwit(b: Bytes) {
    |b| > 5 && b[4] == 0x00 && b[5] == 0x01
  }

  /** Where the inputs start, where the outputs end, and where the locktime starts. */
  datatype Layout = Layout(inStart: nat, bodyEnd: nat, end: nat)

  function Scan(b: Bytes): (r: Option<Layout>)
    ensures r.Some? ==> 4 <= r.value.inStart <= r.value.bodyEnd <= r.value.end
  {
    var inStart := if IsSegwit(b) then 6 else 4;
    var nIn := ReadVarint(b, inStart);
    if nIn == None || nIn.value.0 == 0 then None
    else
      var afterIns := SkipInputs(b, nIn.value.1, nIn.value.0);
      if afterIns == None then None
      else
        var nOut := ReadVarint(b, afterIns.value);
        if nOut == None then None
        else
          var bodyEnd := SkipOutputs(b, nOut.value.1, nOut.value.0);
          if bodyEnd == None then None
          else
            var end := if IsSegwit(b) then SkipStacks(b, bodyEnd.value, nIn.value.0) else bodyEnd;
            if end == None then None else Some(Layout(inStart, bodyEnd.value, end.value))
  }

  /** The bytes txidFromSignedHex hashes, or None where it throws. */
  function Strip(b: Bytes): Option<Bytes> {
    var l := Scan(b);
    if l == None || l.value.end + 4 != |b| then None
    else Some(b[..4] + b[l.value.inStart..l.value.bodyEnd] + b[|b| - 4..])
  }

  /** Hash it, then reverse it into display order. */
  function Txid(b: Bytes, hash256: Bytes -> Hash32): Option<Bytes> {
    var s := Strip(b);
    if s == None then None else Some(Reverse(hash256(s.value)))
  }
}
