/** The segwit wire form read back by position, as a node reads it (BIP-144, section "Serialization"): each number
    from the bytes it stands on, each txid turned into display order. Nothing here is built from the writer. */
module WireDecode {
  import opened Common
  import opened Positional
  import opened TxWire
  import opened TxReader

  // ---- numbers ----

  function Low(b: byte): nat {
    b
  }

  function U16At(b: Bytes, p: nat): nat
    requires p + 2 <= |b|
  {
    Low(b[p]) + 0x100 * Low(b[p + 1])
  }

  function U32At(b: Bytes, p: nat): nat
    requires p + 4 <= |b|
  {
    U16At(b, p) + 0x1_0000 * U16At(b, p + 2)
  }

  function U64At(b: Bytes, p: nat): nat
    requires p + 8 <= |b|
  {
    U32At(b, p) + 0x1_0000_0000 * U32At(b, p + 4)
  }

  /** A count of up to 65535 and where it ends. */
  function CountAt(b: Bytes, p: nat): (r: Option<(nat, nat)>)
    ensures r.Some? ==> p < r.value.1 <= |b|
  {
    if p + 1 <= |b| && b[p] < 253 then Some((b[p], p + 1))
    else if p + 3 <= |b| && b[p] == 253 then Some((U16At(b, p + 1), p + 3))
    else None
  }

  // ---- fields ----

  /** The 32 bytes from p on, last first. */
  function DisplayAt(b: Bytes, p: nat): Hash32
    requires p + 32 <= |b|
  {
    seq(32, k requires 0 <= k < 32 => b[p + 31 - k])
  }

  /** 32 bytes of txid, 4 of output number, an empty script, 4 of sequence. */
  function InputsAt(b: Bytes, p: nat, n: nat): Option<(seq<TxIn>, nat)>
    decreases n, p
  {
    if n == 0 then Some(([], p))
    else if p + 41 > |b| || b[p + 36] != 0 then None
    else
      var rest := InputsAt(b, p + 41, n - 1);
      if rest == None then None
      else Some(([TxIn(DisplayAt(b, p), U32At(b, p + 32), U32At(b, p + 37))] + rest.value.0, rest.value.1))
  }

  /** 8 bytes of value, then the counted script. */
  function OutputsAt(b: Bytes, p: nat, n: nat): Option<(seq<TxOut>, nat)>
    decreases n, p
  {
    if n == 0 then Some(([], p))
    else if p + 8 > |b| then None
    else
      var script := ChunkAt(b, p + 8);
      if script == None then None
      else
        var rest := OutputsAt(b, script.value.1, n - 1);
        if rest == None then None else Some(([TxOut(U64At(b, p), script.value.0)] + rest.value.0, rest.value.1))
  }

  /** A counted run of bytes. */
  function ChunkAt(b: Bytes, p: nat): (r: Option<(Bytes, nat)>)
    ensures r.Some? ==> p < r.value.1 <= |b|
  {
    var count := CountAt(b, p);
    if count == None || count.value.1 + count.value.0 > |b| then None
    else Some((b[count.value.1..count.value.1 + count.value.0], count.value.1 + count.value.0))
  }

  function ChunksAt(b: Bytes, p: nat, n: nat): Option<(Stack, nat)>
    decreases n, p
  {
    if n == 0 then Some(([], p))
    else
      var chunk := ChunkAt(b, p);
      if chunk == None then None
      else
        var rest := ChunksAt(b, chunk.value.1, n - 1);
        if rest == None then None else Some(([chunk.value.0] + rest.value.0, rest.value.1))
  }

  function StacksAt(b: Bytes, p: nat, n: nat): Option<(seq<Stack>, nat)>
    decreases n, p
  {
    if n == 0 then Some(([], p))
    else
      var count := CountAt(b, p);
      if count == None then None
      else
        var items := ChunksAt(b, count.value.1, count.value.0);
        if items == None then None
        else
          var rest := StacksAt(b, items.value.1, n - 1);
          if rest == None then None else Some(([items.value.0] + rest.value.0, rest.value.1))
  }

  /** Version, marker and flag, inputs, outputs, one stack for each input, locktime, and nothing after that. */
  function DecodeTx(b: Bytes): Option<(Tx, seq<Stack>)> {
    if |b| < 6 || b[4] != 0 || b[5] != 1 || CountAt(b, 6) == None then None
    else
      var nIn := CountAt(b, 6).value;
      var ins := InputsAt(b, nIn.1, nIn.0);
      if ins == None || CountAt(b, ins.value.1) == None then None
      else
        var nOut := CountAt(b, ins.value.1).value;
        var outs := OutputsAt(b, nOut.1, nOut.0);
        if outs == None then None
        else
          var stacks := StacksAt(b, outs.value.1, nIn.0);
          if stacks == None || stacks.value.1 + 4 != |b| then None
          else Some((Tx(U32At(b, 0), U32At(b, |b| - 4), ins.value.0, outs.value.0), stacks.value.0))
  }

  // ---- what was written is read ----

  /** The values that 4 or 8 bytes can carry. */
  function Word(v: int): nat {
    v % 0x1_0000_0000
  }

  function LongWord(v: int): nat {
    v % 0x1_0000_0000_0000_0000
  }

  function WrappedIn(i: TxIn): TxIn {
    TxIn(i.txid, Word(i.vout), Word(i.sequence))
  }

  function WrappedOut(o: TxOut): TxOut {
    TxOut(LongWord(o.valueSats), o.script)
  }

  function WrappedIns(ins: seq<TxIn>): (r: seq<TxIn>)
    ensures |r| == |ins|
  {
    seq(|ins|, i requires 0 <= i < |ins| => WrappedIn(ins[i]))
  }

  function WrappedOuts(outs: seq<TxOut>): (r: seq<TxOut>)
    ensures |r| == |outs|
  {
    seq(|outs|, i requires 0 <= i < |outs| => WrappedOut(outs[i]))
  }

  /** Every number of the transaction fits its bytes. */
  predicate InRange(tx: Tx) {
    && Word(tx.version) == tx.version && Word(tx.locktime) == tx.locktime
    && (forall i :: 0 <= i < |tx.inputs| ==> WrappedIn(tx.inputs[i]) == tx.inputs[i])
    && (forall i :: 0 <= i < |tx.outputs| ==> WrappedOut(tx.outputs[i]) == tx.outputs[i])
  }

  lemma ShortBytes(v: int)
    ensures var d := LeBytes(v, 2); Low(d[0]) + 0x100 * Low(d[1]) == v % 0x1_0000
  {
    assert LeBytes(v, 2) == [v % 256] + LeBytes(v / 256, 1);
    assert LeBytes(v / 256, 1) == [v / 256 % 256] + LeBytes(v / 256 / 256, 0);
  }

  lemma HalfBytes(v: int)
    ensures LeBytes(v, 4) == LeBytes(v, 2) + LeBytes(v / 0x1_0000, 2)
  {
    OffTwo(v, 4);
  }

  lemma LongBytes(v: int)
    ensures LeBytes(v, 8) == LeBytes(v, 4) + LeBytes(v / 0x1_0000_0000, 4)
  {
    var w := v / 0x1_0000;
    assert LeBytes(v, 8) == LeBytes(v, 2) + LeBytes(w, 6) by {
      OffTwo(v, 8);
    }
    assert LeBytes(w, 6) == LeBytes(w, 2) + LeBytes(w / 0x1_0000, 4) by {
      OffTwo(w, 6);
    }
    assert w / 0x1_0000 == v / 0x1_0000_0000;
    HalfBytes(v);
  }

  lemma OffTwo(v: int, n: nat)
    requires n >= 2
    ensures LeBytes(v, n) == LeBytes(v, 2) + LeBytes(v / 0x1_0000, n - 2)
  {
    var w := v / 256;
    assert LeBytes(v, n) == [v % 256] + LeBytes(w, n - 1) && LeBytes(w, n - 1) == [w % 256] + LeBytes(w / 256, n - 2);
    assert LeBytes(v, 2) == [v % 256] + LeBytes(w, 1) && LeBytes(w, 1) == [w % 256] + LeBytes(w / 256, 0);
    assert w / 256 == v / 0x1_0000;
  }

  lemma ReadsU32(b: Bytes, p: nat, v: int)
    requires Holds(b, p, U32(v))
    ensures U32At(b, p) == Word(v)
  {
    HalfBytes(v);
    HoldsSplit(b, p, LeBytes(v, 2), LeBytes(v / 0x1_0000, 2));
    ReadsU16(b, p, v);
    ReadsU16(b, p + 2, v / 0x1_0000);
    TwoHalves(v);
  }

  lemma ReadsU16(b: Bytes, p: nat, v: int)
    requires Holds(b, p, LeBytes(v, 2))
    ensures U16At(b, p) == v % 0x1_0000
  {
    ShortBytes(v);
    assert b[p + 0] == LeBytes(v, 2)[0] && b[p + 1] == LeBytes(v, 2)[1];
  }

  lemma TwoHalves(v: int)
    ensures v % 0x1_0000 + 0x1_0000 * (v / 0x1_0000 % 0x1_0000) == Word(v)
  {
  }

  lemma TwoWords(v: int)
    ensures Word(v) + 0x1_0000_0000 * Word(v / 0x1_0000_0000) == LongWord(v)
  {
  }

  lemma ReadsU64(b: Bytes, p: nat, v: int)
    requires Holds(b, p, U64(v))
    ensures U64At(b, p) == LongWord(v)
  {
    LongBytes(v);
    HoldsSplit(b, p, U32(v), U32(v / 0x1_0000_0000));
    ReadsU32(b, p, v);
    ReadsU32(b, p + 4, v / 0x1_0000_0000);
    TwoWords(v);
  }

  lemma ReadsCount(b: Bytes, p: nat, n: nat)
    requires n <= MAX_VARINT && Holds(b, p, Varint(n))
    ensures CountAt(b, p) == Some((n, p + |Varint(n)|))
  {
    assert b[p + 0] == Varint(n)[0];
    if n >= 253 {
      assert b[p + 1] == Varint(n)[1] && b[p + 2] == Varint(n)[2];
    }
  }

  lemma HeldIs(b: Bytes, p: nat, x: Bytes)
    requires Holds(b, p, x)
    ensures b[p..p + |x|] == x
  {
  }

  lemma ReadsChunk(b: Bytes, p: nat, x: Bytes)
    requires |x| <= MAX_VARINT && Holds(b, p, VarBytes(x))
    ensures ChunkAt(b, p) == Some((x, p + |VarBytes(x)|))
  {
    HoldsSplit(b, p, Varint(|x|), x);
    ReadsCount(b, p, |x|);
    HeldIs(b, p + |Varint(|x|)|, x);
  }

  lemma ReadsDisplay(b: Bytes, p: nat, txid: Hash32)
    requires Holds(b, p, Reverse(txid))
    ensures DisplayAt(b, p) == txid
  {
    forall k | 0 <= k < 32 ensures DisplayAt(b, p)[k] == txid[k] {
      ReverseAt(txid, 31 - k);
      assert b[p + (31 - k)] == Reverse(txid)[31 - k];
    }
  }

  lemma ReadsInput(b: Bytes, p: nat, i: TxIn)
    requires Holds(b, p, InBytes(i))
    ensures p + 41 <= |b| && b[p + 36] == 0
    ensures TxIn(DisplayAt(b, p), U32At(b, p + 32), U32At(b, p + 37)) == WrappedIn(i)
  {
    var id, vout, empty, sequence := Reverse(i.txid), U32(i.vout), [0], U32(i.sequence);
    assert InBytes(i) == id + vout + (empty + sequence);
    HoldsFour(b, p, id, vout, empty, sequence);
    assert b[p + 36 + 0] == empty[0];
    ReadsDisplay(b, p, i.txid);
    ReadsU32(b, p + 32, i.vout);
    ReadsU32(b, p + 37, i.sequence);
  }

  lemma {:induction false} ReadsIns(b: Bytes, p: nat, ins: seq<TxIn>, end: nat)
    requires Holds(b, p, InsBytes(ins)) && end == p + |InsBytes(ins)|
    ensures InputsAt(b, p, |ins|) == Some((WrappedIns(ins), end))
    decreases |ins|
  {
    if ins == [] {
      assert WrappedIns(ins) == [];
    } else {
      HoldsSplit(b, p, InBytes(ins[0]), InsBytes(ins[1..]));
      ReadsInput(b, p, ins[0]);
      ReadsIns(b, p + 41, ins[1..], end);
      assert WrappedIns(ins) == [WrappedIn(ins[0])] + WrappedIns(ins[1..]);
    }
  }

  lemma ReadsOutput(b: Bytes, p: nat, o: TxOut)
    requires |o.script| <= MAX_VARINT && Holds(b, p, OutBytes(o))
    ensures p + 8 <= |b| && ChunkAt(b, p + 8) == Some((o.script, p + |OutBytes(o)|))
    ensures TxOut(U64At(b, p), o.script) == WrappedOut(o)
  {
    HoldsSplit(b, p, U64(o.valueSats), VarBytes(o.script));
    ReadsU64(b, p, o.valueSats);
    ReadsChunk(b, p + 8, o.script);
  }

  lemma {:induction false} ReadsOuts(b: Bytes, p: nat, outs: seq<TxOut>, end: nat)
    requires OutsFit(outs) && Holds(b, p, OutsBytes(outs)) && end == p + |OutsBytes(outs)|
    ensures OutputsAt(b, p, |outs|) == Some((WrappedOuts(outs), end))
    decreases |outs|
  {
    if outs == [] {
      assert WrappedOuts(outs) == [];
    } else {
      OutsFitCons(outs);
      HoldsSplit(b, p, OutBytes(outs[0]), OutsBytes(outs[1..]));
      ReadsOutput(b, p, outs[0]);
      ReadsOuts(b, p + |OutBytes(outs[0])|, outs[1..], end);
      assert WrappedOuts(outs) == [WrappedOut(outs[0])] + WrappedOuts(outs[1..]);
    }
  }

  lemma {:induction false} ReadsChunks(b: Bytes, p: nat, w: Stack, end: nat)
    requires ItemsFit(w) && Holds(b, p, ItemsBytes(w)) && end == p + |ItemsBytes(w)|
    ensures ChunksAt(b, p, |w|) == Some((w, end))
    decreases |w|
  {
    if w != [] {
      ItemsFitCons(w);
      HoldsSplit(b, p, VarBytes(w[0]), ItemsBytes(w[1..]));
      ReadsChunk(b, p, w[0]);
      ReadsChunks(b, p + |VarBytes(w[0])|, w[1..], end);
      assert w == [w[0]] + w[1..];
    }
  }

  lemma StackParts(b: Bytes, p: nat, w: Stack)
    requires StackFits(w) && Holds(b, p, StackBytes(w))
    ensures Holds(b, p, Varint(|w|)) && Holds(b, p + |Varint(|w|)|, ItemsBytes(w))
    ensures |StackBytes(w)| == |Varint(|w|)| + |ItemsBytes(w)|
  {
    HoldsSplit(b, p, Varint(|w|), ItemsBytes(w));
  }

  lemma ReadsStack(b: Bytes, p: nat, w: Stack, p1: nat, end: nat)
    requires StackFits(w) && Holds(b, p, StackBytes(w)) && p1 == p + |Varint(|w|)| && end == p + |StackBytes(w)|
    ensures CountAt(b, p) == Some((|w|, p1)) && ChunksAt(b, p1, |w|) == Some((w, end))
  {
    StackParts(b, p, w);
    ReadsCount(b, p, |w|);
    ReadsChunks(b, p1, w, end);
  }

  lemma NextStack(b: Bytes, p: nat, ws: seq<Stack>, end: nat) returns (p1: nat, q: nat)
    requires ws != [] && StacksFit(ws) && Holds(b, p, StacksBytes(ws)) && end == p + |StacksBytes(ws)|
    ensures CountAt(b, p) == Some((|ws[0]|, p1)) && ChunksAt(b, p1, |ws[0]|) == Some((ws[0], q))
    ensures StacksFit(ws[1..]) && Holds(b, q, StacksBytes(ws[1..])) && end == q + |StacksBytes(ws[1..])|
  {
    FirstStack(b, p, ws);
    StacksFitCons(ws);
    p1, q := p + |Varint(|ws[0]|)|, p + |StackBytes(ws[0])|;
    ReadsStack(b, p, ws[0], p1, q);
  }

  lemma {:induction false} ReadsAllStacks(b: Bytes, p: nat, ws: seq<Stack>, end: nat)
    requires StacksFit(ws) && Holds(b, p, StacksBytes(ws)) && end == p + |StacksBytes(ws)|
    ensures StacksAt(b, p, |ws|) == Some((ws, end))
    decreases |ws|
  {
    if ws != [] {
      var p1, q := NextStack(b, p, ws, end);
      ReadsAllStacks(b, q, ws[1..], end);
      OneMoreStack(b, p, p1, q, end, ws[0], ws[1..], ws);
    }
  }

  lemma OneMoreStack(b: Bytes, p: nat, p1: nat, q: nat, end: nat, w: Stack, rest: seq<Stack>, ws: seq<Stack>)
    requires CountAt(b, p) == Some((|w|, p1)) && ChunksAt(b, p1, |w|) == Some((w, q)) && StacksAt(b, q, |rest|) == Some((rest, end))
    requires ws == [w] + rest
    ensures StacksAt(b, p, |ws|) == Some((ws, end))
  {
  }

  /** A node that reads what serializeTx wrote finds every field again: each input's txid in display order with its
      output number and sequence, each output's value and script, every witness item, version and locktime, the
      numbers as far as their bytes carry them. */
  lemma DecodeInvertsWire(tx: Tx, ws: seq<Stack>)
    requires Fits(tx, ws) && |ws| == |tx.inputs|
    ensures DecodeTx(Wire(tx, ws))
         == Some((Tx(Word(tx.version), Word(tx.locktime), WrappedIns(tx.inputs), WrappedOuts(tx.outputs)), ws))
  {
    var b := Wire(tx, ws);
    WireParts(tx, ws);
    ReadsFields(b, tx, ws, 6 + |Body(tx)|, |b| - 4);
  }

  lemma ReadsFields(b: Bytes, tx: Tx, ws: seq<Stack>, bodyEnd: nat, end: nat)
    requires Fits(tx, ws) && |ws| == |tx.inputs|
    requires bodyEnd == 6 + |Body(tx)| && end == bodyEnd + |StacksBytes(ws)| && |b| == end + 4
    requires Holds(b, 0, U32(tx.version)) && Holds(b, 4, MARKER_FLAG) && Holds(b, 6, Body(tx))
    requires Holds(b, bodyEnd, StacksBytes(ws)) && Holds(b, end, U32(tx.locktime))
    ensures DecodeTx(b) == Some((Tx(Word(tx.version), Word(tx.locktime), WrappedIns(tx.inputs), WrappedOuts(tx.outputs)), ws))
  {
    var p1, p2, p3 := ReadsBodyFields(b, 6, tx, bodyEnd);
    ReadsAllStacks(b, bodyEnd, ws, end);
    ReadsEnds(b, tx.version, tx.locktime, end);
    Assembled(b, p1, p2, p3, bodyEnd, end, tx.version, tx.locktime, WrappedIns(tx.inputs), WrappedOuts(tx.outputs), ws);
  }

  lemma ReadsEnds(b: Bytes, version: int, locktime: int, end: nat)
    requires Holds(b, 0, U32(version)) && Holds(b, 4, MARKER_FLAG) && Holds(b, end, U32(locktime)) && |b| == end + 4 >= 10
    ensures b[4] == 0 && b[5] == 1 && U32At(b, 0) == Word(version) && U32At(b, end) == Word(locktime)
  {
    assert b[4 + 0] == MARKER_FLAG[0] && b[4 + 1] == MARKER_FLAG[1];
    ReadsU32(b, 0, version);
    ReadsU32(b, end, locktime);
  }

  lemma ReadsBodyFields(b: Bytes, p: nat, tx: Tx, end: nat) returns (p1: nat, p2: nat, p3: nat)
    requires |tx.inputs| <= MAX_VARINT && |tx.outputs| <= MAX_VARINT && OutsFit(tx.outputs)
    requires Holds(b, p, Body(tx)) && end == p + |Body(tx)|
    ensures CountAt(b, p) == Some((|tx.inputs|, p1)) && InputsAt(b, p1, |tx.inputs|) == Some((WrappedIns(tx.inputs), p2))
    ensures CountAt(b, p2) == Some((|tx.outputs|, p3))
    ensures OutputsAt(b, p3, |tx.outputs|) == Some((WrappedOuts(tx.outputs), end))
  {
    p1, p2, p3 := BodyParts(b, p, tx);
    ReadsCount(b, p, |tx.inputs|);
    ReadsIns(b, p1, tx.inputs, p2);
    ReadsCount(b, p2, |tx.outputs|);
    ReadsOuts(b, p3, tx.outputs, end);
  }

  lemma Assembled(b: Bytes, p1: nat, p2: nat, p3: nat, bodyEnd: nat, end: nat, version: int, locktime: int,
                  ins: seq<TxIn>, outs: seq<TxOut>, ws: seq<Stack>)
    requires |b| == end + 4 >= 10 && b[4] == 0 && b[5] == 1 && |ws| == |ins|
    requires U32At(b, 0) == Word(version) && U32At(b, end) == Word(locktime)
    requires CountAt(b, 6) == Some((|ins|, p1)) && InputsAt(b, p1, |ins|) == Some((ins, p2))
    requires CountAt(b, p2) == Some((|outs|, p3)) && OutputsAt(b, p3, |outs|) == Some((outs, bodyEnd))
    requires StacksAt(b, bodyEnd, |ws|) == Some((ws, end))
    ensures DecodeTx(b) == Some((Tx(Word(version), Word(locktime), ins, outs), ws))
  {
  }

  /** So numbers in range come back as they were, and no two transactions in range are written alike. */
  lemma WireIsExact(tx: Tx, ws: seq<Stack>, other: Tx, others: seq<Stack>)
    requires Fits(tx, ws) && |ws| == |tx.inputs| && InRange(tx)
    requires Fits(other, others) && |others| == |other.inputs| && InRange(other)
    ensures DecodeTx(Wire(tx, ws)) == Some((tx, ws))
    ensures Wire(tx, ws) == Wire(other, others) ==> tx == other && ws == others
  {
    DecodeInvertsWire(tx, ws);
    DecodeInvertsWire(other, others);
    RangesStay(tx);
    RangesStay(other);
  }

  lemma RangesStay(tx: Tx)
    requires InRange(tx)
    ensures Tx(Word(tx.version), Word(tx.locktime), WrappedIns(tx.inputs), WrappedOuts(tx.outputs)) == tx
  {
    assert WrappedIns(tx.inputs) == tx.inputs;
    assert WrappedOuts(tx.outputs) == tx.outputs;
  }

  // ---- the txid reader's wide counts ----

  lemma LeAtTwo(b: Bytes, p: nat, n: nat)
    requires n >= 2 && p + 2 <= |b|
    ensures LeAt(b, p, n) == U16At(b, p) + 0x1_0000 * LeAt(b, p + 2, n - 2)
  {
    assert LeAt(b, p, n) == At(b, p) + 256 * LeAt(b, p + 1, n - 1);
    assert LeAt(b, p + 1, n - 1) == At(b, p + 1) + 256 * LeAt(b, p + 2, n - 2);
  }

  lemma LeAtFour(b: Bytes, p: nat, n: nat)
    requires n >= 4 && p + 4 <= |b|
    ensures LeAt(b, p, n) == U32At(b, p) + 0x1_0000_0000 * LeAt(b, p + 4, n - 4)
  {
    LeAtTwo(b, p, n);
    LeAtTwo(b, p + 2, n - 2);
  }

  /** A count of five bytes is read as well. */
  lemma FiveByteCount(b: Bytes, p: nat, n: nat)
    requires n < 0x1_0000_0000 && Holds(b, p, [0xfe] + U32(n))
    ensures ReadVarint(b, p) == Some((n, p + 5))
  {
    var tag: Bytes := [0xfe];
    HoldsSplit(b, p, tag, U32(n));
    assert b[p + 0] == tag[0];
    ReadsU32(b, p + 1, n);
    LeAtFour(b, p + 1, 4);
    LeAtNone(b, p + 5);
  }

  /** One of nine bytes is refused exactly when it does not fit 32 bits. */
  lemma NineByteCount(b: Bytes, p: nat, n: nat)
    requires n < 0x1_0000_0000_0000_0000 && Holds(b, p, [0xff] + U64(n))
    ensures ReadVarint(b, p) == if n < 0x1_0000_0000 then Some((n, p + 9)) else None
  {
    var tag: Bytes := [0xff];
    HoldsSplit(b, p, tag, U64(n));
    assert b[p + 0] == tag[0];
    EightBytes(b, p + 1, n);
  }

  lemma EightBytes(b: Bytes, p: nat, n: nat)
    requires n < 0x1_0000_0000_0000_0000 && Holds(b, p, U64(n))
    ensures LeAt(b, p, 8) == n
  {
    ReadsU64(b, p, n);
    LeAtFour(b, p, 8);
    LeAtFour(b, p + 4, 4);
    LeAtNone(b, p + 8);
  }

  lemma LeAtNone(b: Bytes, p: nat)
    ensures LeAt(b, p, 0) == 0
  {
  }

  /** What serializeTx refuses, written out: a count or a length above 65535, anywhere. */
  lemma FitsIff(tx: Tx, ws: seq<Stack>)
    ensures Fits(tx, ws) <==>
            && |tx.inputs| <= 65_535 && |tx.outputs| <= 65_535
            && (forall o :: o in tx.outputs ==> |o.script| <= 65_535)
            && forall w :: w in ws ==> |w| <= 65_535 && forall x :: x in w ==> |x| <= 65_535
  {
    forall w | w in ws ensures StackFits(w) <==> |w| <= 65_535 && forall x :: x in w ==> |x| <= 65_535 {
    }
  }
}
