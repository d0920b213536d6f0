/** syncReceiveIndex (app.js): how far down its receive chain a seed has been used, asked in batches. */
module ReceiveScan {
  import opened Common

  const RECEIVE_GAP := 20
  const BATCH := 5

  /** The widest gap a batch can step over: RECEIVE_GAP + BATCH - 1. */
  const WIDE_GAP := 24

  /** Indices from, from + 1, ... of length n without a use. */
  predicate UnusedRun(used: nat -> bool, from: nat, n: nat) {
    forall i: nat :: from <= i < from + n ==> !used(i)
  }

  /** The chain's history is finite. */
  ghost predicate UsedBelow(used: nat -> bool, bound: nat) {
    forall i: nat :: i >= bound ==> !used(i)
  }

  /** What one batch does to the pair (highest, gap): a use resets the gap, anything else widens it. */
  method ScanBatch(used: nat -> bool, from: nat, highest: int, gap: nat) returns (newHighest: int, newGap: nat)
    requires -1 <= highest < from && from == highest + 1 + gap
    requires highest >= 0 ==> used(highest)
    requires UnusedRun(used, highest + 1, gap)
    ensures highest <= newHighest < from + BATCH && from + BATCH == newHighest + 1 + newGap
    ensures newHighest >= 0 ==> used(newHighest)
    ensures newHighest == highest || newHighest >= from
    ensures UnusedRun(used, newHighest + 1, newGap)
  {
    newHighest, newGap := highest, gap;
    for k := 0 to BATCH
      invariant highest <= newHighest < from + k && from + k == newHighest + 1 + newGap
      invariant newHighest >= 0 ==> used(newHighest)
      invariant newHighest == highest || newHighest >= from
      invariant UnusedRun(used, newHighest + 1, newGap)
    {
      if used(from + k) {
        newHighest, newGap := from + k, 0;
      } else {
        newGap := newGap + 1;
      }
    }
  }

  /** What a finished scan may answer: a used index, or -1; the twenty indices after it are unused, so every
      used index not past a gap of twenty has been found; and no index that lies past a gap of twenty-four,
      the most that batching can overlook. */
  ghost predicate Answer(used: nat -> bool, highest: int) {
    && highest >= -1 && (highest >= 0 ==> used(highest))
    && UnusedRun(used, highest + 1, RECEIVE_GAP)
    && (forall i: nat :: used(i) && i > highest ==> PastGap(used, i))
    && (forall g: nat :: UnusedRun(used, g, WIDE_GAP) ==> highest < g)
  }

  /** i lies past a run of twenty unused indices. */
  ghost predicate PastGap(used: nat -> bool, i: nat) {
    exists g: nat :: g + RECEIVE_GAP <= i && UnusedRun(used, g, RECEIVE_GAP)
  }

  /** Where a scan stands between two batches: it has asked for everything below `from`. */
  datatype Progress = Progress(from: nat, gap: nat, highest: int)

  const AT_START := Progress(0, 0, -1)

  ghost predicate ScanOk(used: nat -> bool, p: Progress) {
    && -1 <= p.highest < p.from && p.from == p.highest + 1 + p.gap
    && (p.highest >= 0 ==> used(p.highest))
    && UnusedRun(used, p.highest + 1, p.gap)
    && (forall g: nat :: UnusedRun(used, g, WIDE_GAP) ==> p.highest < g)
  }

  /** The answers of one batch. */
  method NextBatch(used: nat -> bool, p: Progress) returns (q: Progress)
    requires ScanOk(used, p) && p.gap < RECEIVE_GAP
    ensures ScanOk(used, q) && q.from == p.from + BATCH && q.highest >= p.highest
  {
    var highest, gap := ScanBatch(used, p.from, p.highest, p.gap);
    GapStops(used, p.from, p.highest, highest);
    q := Progress(p.from + BATCH, gap, highest);
  }

  /** With a gap of twenty the scan is over. */
  lemma Finished(used: nat -> bool, p: Progress)
    requires ScanOk(used, p) && p.gap >= RECEIVE_GAP
    ensures Answer(used, p.highest)
  {
    assert UnusedRun(used, p.highest + 1, RECEIVE_GAP);
    forall i: nat | used(i) && i > p.highest ensures PastGap(used, i) {
      assert p.highest + 1 + RECEIVE_GAP <= i;
    }
  }

  /** A scan under way has not asked far past the last use, so there are finitely many batches. */
  lemma UnderWayIsBounded(used: nat -> bool, p: Progress, bound: nat)
    requires ScanOk(used, p) && p.gap < RECEIVE_GAP && UsedBelow(used, bound)
    ensures p.from < bound + RECEIVE_GAP
  {
  }

  /** The scan with nothing in between, given that the seed's history is finite. */
  method Scan(used: nat -> bool, ghost bound: nat) returns (highest: int)
    requires UsedBelow(used, bound)
    ensures Answer(used, highest)
  {
    var p := AT_START;
    while p.gap < RECEIVE_GAP
      invariant ScanOk(used, p)
      decreases bound + RECEIVE_GAP + BATCH - p.from
    {
      UnderWayIsBounded(used, p, bound);
      p := NextBatch(used, p);
    }
    Finished(used, p);
    highest := p.highest;
  }

  /** A use found in a batch lies past no gap that wide: the scan would have stopped before asking. */
  lemma GapStops(used: nat -> bool, from: nat, before: int, highest: int)
    requires -1 <= before < from < before + 1 + RECEIVE_GAP
    requires highest == before || (from <= highest < from + BATCH && used(highest))
    requires forall g: nat :: UnusedRun(used, g, WIDE_GAP) ==> before < g
    ensures forall g: nat :: UnusedRun(used, g, WIDE_GAP) ==> highest < g
  {
  }

  // ---- which scans may run: the two flags and the generation of every suspended scan ----

  /** open: a wallet is on screen; scanned, busy: receiveScanGen and receiveScanBusy; running: suspended scans. */
  datatype Flags = Flags(gen: nat, open: bool, scanned: int, busy: int, running: map<nat, nat>)

  datatype Event =
    | Open
    | Lock
    | Sync(id: nat, ready: bool)
    | Batch(id: nat, over: bool)
    | Failure(id: nat)

  const FRESH := Flags(0, false, -1, -1, map[])

  function Next(f: Flags, e: Event): Flags {
    match e
    case Open => f.(gen := f.gen + 1, open := true)
    case Lock => f.(open := false)
    case Sync(id, ready) =>
      if id in f.running || !ready || !f.open || f.scanned == f.gen || f.busy == f.gen then f
      else f.(busy := f.gen, running := f.running[id := f.gen])
    case Batch(id, over) =>
      if id !in f.running then f
      else if !f.open || f.gen != f.running[id] then f.(running := f.running - {id})
      else if over then f.(running := f.running - {id}, scanned := f.gen)
      else f
    case Failure(id) =>
      if id !in f.running then f else f.(busy := -1, running := f.running - {id})
  }

  function Run(f: Flags, es: seq<Event>): Flags {
    if es == [] then f else Next(Run(f, es[..|es| - 1]), es[|es| - 1])
  }

  /** No wallet has two scans suspended. */
  ghost predicate Single(f: Flags) {
    forall a, b :: a in f.running && b in f.running && f.running[a] == f.running[b] ==> a == b
  }

  ghost predicate Scanning(f: Flags) {
    exists a :: a in f.running && f.running[a] == f.gen
  }

  /** A scan of a wallet no longer on screen fails while the wallet on screen is being scanned: the catch
      clears the busy flag of that wallet. */
  ghost predicate Disturbs(f: Flags, e: Event) {
    e.Failure? && e.id in f.running && f.running[e.id] != f.gen && f.open && Scanning(f)
  }

  ghost predicate Undisturbed(es: seq<Event>) {
    es == [] || (Undisturbed(es[..|es| - 1]) && !Disturbs(Run(FRESH, es[..|es| - 1]), es[|es| - 1]))
  }

  /** At no moment of the run can a call of syncReceiveIndex leave some wallet with two scans. */
  ghost predicate AlwaysSingle(es: seq<Event>) {
    forall n, id :: 0 <= n <= |es| ==> Single(Next(Run(FRESH, es[..n]), Sync(id, true)))
  }

  ghost predicate Bounded(f: Flags) {
    f.scanned <= f.gen && f.busy <= f.gen && forall a :: a in f.running ==> f.running[a] <= f.gen
  }

  /** What undisturbed runs keep: the wallet being scanned is the one the busy flag names. */
  ghost predicate Orderly(f: Flags) {
    Bounded(f) && Single(f) && (f.open && Scanning(f) ==> f.busy == f.gen && f.scanned != f.gen)
  }

  lemma OrderlyStays(f: Flags, e: Event)
    requires Orderly(f) && !Disturbs(f, e)
    ensures Orderly(Next(f, e))
  {
    if Scanning(Next(f, e)) && !(e.Sync? && Next(f, e) != f) {
      var a :| a in Next(f, e).running && Next(f, e).running[a] == Next(f, e).gen;
      assert a in f.running && f.running[a] <= f.gen;
    }
  }

  lemma {:induction false} UndisturbedIsOrderly(es: seq<Event>)
    requires Undisturbed(es)
    ensures Orderly(Run(FRESH, es))
  {
    if es != [] {
      UndisturbedIsOrderly(es[..|es| - 1]);
      OrderlyStays(Run(FRESH, es[..|es| - 1]), es[|es| - 1]);
    }
  }

  /** After a disturbance the next call starts a second scan. */
  lemma DisturbedDoubles(f: Flags, e: Event)
    requires Orderly(f) && Disturbs(f, e)
    ensures !Single(Next(Next(f, e), Sync(e.id, true)))
  {
    var a :| a in f.running && f.running[a] == f.gen;
    var f' := Next(Next(f, e), Sync(e.id, true));
    assert a != e.id && f'.running[a] == f'.running[e.id] == f.gen;
  }

  lemma {:induction false} DisturbedOnce(es: seq<Event>)
    requires !Undisturbed(es)
    ensures !AlwaysSingle(es)
  {
    var before, e := es[..|es| - 1], es[|es| - 1];
    if Undisturbed(before) {
      UndisturbedIsOrderly(before);
      DisturbedDoubles(Run(FRESH, before), e);
      assert es[..|es|] == es;
    } else {
      DisturbedOnce(before);
      var n, id :| 0 <= n <= |before| && !Single(Next(Run(FRESH, before[..n]), Sync(id, true)));
      assert before[..n] == es[..n];
    }
  }

  lemma {:induction false} UndisturbedPrefix(es: seq<Event>, n: nat)
    requires Undisturbed(es) && n <= |es|
    ensures Undisturbed(es[..n])
  {
    if n < |es| {
      UndisturbedPrefix(es[..|es| - 1], n);
      assert es[..|es| - 1][..n] == es[..n];
    } else {
      assert es[..n] == es;
    }
  }

  /** One scan per wallet at a time: that holds throughout a run exactly when no scan of an earlier wallet
      fails while the wallet on screen is being scanned. */
  lemma OneScanIff(es: seq<Event>)
    ensures AlwaysSingle(es) <==> Undisturbed(es)
    ensures Undisturbed(es) ==> Single(Run(FRESH, es))
  {
    if Undisturbed(es) {
      UndisturbedIsOrderly(es);
      forall n, id | 0 <= n <= |es| ensures Single(Next(Run(FRESH, es[..n]), Sync(id, true))) {
        UndisturbedPrefix(es, n);
        UndisturbedIsOrderly(es[..n]);
        OrderlyStays(Run(FRESH, es[..n]), Sync(id, true));
      }
    } else {
      DisturbedOnce(es);
    }
  }

  /** Once a scan of the wallet on screen has completed, whatever comes no further scan of it starts. */
  lemma {:induction false} NoneAfterCompletion(f: Flags, id: nat, es: seq<Event>)
    requires f.open && id in f.running && f.running[id] == f.gen
    ensures var done, later := Next(f, Batch(id, true)), Run(Next(f, Batch(id, true)), es);
            && id !in done.running && done.scanned == f.gen
            && (later.gen == f.gen ==> later.scanned == f.gen) && later.gen >= f.gen
            && forall a :: a in later.running && later.running[a] == f.gen ==> a in f.running && f.running[a] == f.gen
  {
    if es != [] {
      NoneAfterCompletion(f, id, es[..|es| - 1]);
    }
  }

  // ---- scans beside everything else the screen does ----

  /** A suspended scan: the generation and the seed it was started for. */
  datatype InFlight = InFlight(gen: nat, seed: nat, at: Progress)

  ghost function Gens(scans: map<nat, InFlight>): map<nat, nat> {
    map id | id in scans :: scans[id].gen
  }

  lemma GensFollow(scans: map<nat, InFlight>, id: nat, f: InFlight)
    ensures Gens(scans - {id}) == Gens(scans) - {id} && Gens(scans[id := f]) == Gens(scans)[id := f.gen]
    ensures id in scans && scans[id].gen == f.gen ==> Gens(scans[id := f]) == Gens(scans)
  {
  }

  /** The wallet on screen: openWallet, lockWallet, "Next address", and scans that wait for the indexer. */
  class Wallet {
    /** Which indices of which seed the chain has seen. */
    const used: nat -> (nat -> bool)
    var gen: nat
    var seed: Option<nat>
    var index: nat
    /** receiveScanGen and receiveScanBusy */
    var scannedGen: int
    var busyGen: int
    var scans: map<nat, InFlight>

    ghost predicate ScanValid(f: InFlight)
      reads `gen, `seed
    {
      && f.gen <= gen && ScanOk(used(f.seed), f.at) && f.at.gap < RECEIVE_GAP
      && (f.gen == gen && seed.Some? ==> f.seed == seed.value)
    }

    ghost function State(): Flags
      reads this
    {
      Flags(gen, seed.Some?, scannedGen, busyGen, Gens(scans))
    }

    /** Every suspended scan knows exactly what it has asked for. */
    ghost predicate Valid()
      reads this
    {
      (forall id :: id in scans ==> ScanValid(scans[id])) && scannedGen <= gen && (seed.Some? ==> gen > 0)
    }

    constructor (used: nat -> (nat -> bool))
      ensures Valid() && seed == None && scans == map[] && this.used == used
      ensures State() == FRESH
    {
      this.used := used;
      gen, seed, index := 0, None, 0;
      scannedGen, busyGen, scans := -1, -1, map[];
    }

    /** openWallet: a new generation, whatever wallet it shows; the index is what the vault remembers. */
    method OpenWallet(newSeed: nat, remembered: nat)
      requires Valid()
      modifies `gen, `seed, `index
      ensures Valid() && gen == old(gen) + 1 && seed == Some(newSeed) && index == remembered
      ensures State() == Next(old(State()), Open)
    {
      gen := gen + 1;
      seed := Some(newSeed);
      index := remembered;
    }

    method LockWallet()
      requires Valid()
      modifies `seed
      ensures Valid() && seed == None
      ensures State() == Next(old(State()), Lock)
    {
      seed := None;
    }

    /** "Next address" */
    method HandOut()
      modifies `index
      ensures index == old(index) + 1 && State() == old(State())
    {
      index := index + 1;
    }

    /** syncReceiveIndex up to its first await. ready says that the indexer and the network are known. */
    method SyncReceiveIndex(id: nat, ready: bool)
      requires Valid() && id !in scans
      modifies `busyGen, `scans
      ensures Valid()
      ensures var starts := ready && seed.Some? && scannedGen != gen && old(busyGen) != gen;
              && scans == (if starts then old(scans)[id := InFlight(gen, seed.value, AT_START)] else old(scans))
              && busyGen == if starts then gen else old(busyGen)
      ensures State() == Next(old(State()), Sync(id, ready))
    {
      if !ready || seed == None || scannedGen == gen || busyGen == gen {
        return;
      }
      busyGen := gen;
      StartIsOk(seed.value);
      GensFollow(scans, id, InFlight(gen, seed.value, AT_START));
      scans := scans[id := InFlight(gen, seed.value, AT_START)];
    }

    lemma StartIsOk(s: nat)
      ensures ScanOk(used(s), AT_START)
    {
    }

    /** The indexer answered a batch. If the wallet on screen is another one by then, or locked, the scan ends
        and changes nothing else. A scan that is over sets the index one past its answer, unless the index is
        further by now: it never moves back. */
    method OnBatch(id: nat) returns (answer: Option<int>)
      requires Valid() && id in scans
      modifies `index, `scannedGen, `scans
      ensures Valid() && index >= old(index)
      ensures State() == Next(old(State()), Batch(id, answer.Some?))
      ensures var f := old(scans)[id];
              var onScreen := seed.Some? && gen == f.gen;
              && (!onScreen ==> answer == None && scans == old(scans) - {id} && index == old(index) && scannedGen == old(scannedGen))
              && (onScreen && answer == None ==>
                    && index == old(index) && scannedGen == old(scannedGen)
                    && id in scans && scans[id].at.from == f.at.from + BATCH)
              && (answer.Some? ==>
                    && onScreen && Answer(used(seed.value), answer.value) && scannedGen == gen && scans == old(scans) - {id}
                    && index == if answer.value + 1 > old(index) then answer.value + 1 else old(index))
    {
      var f := scans[id];
      answer := None;
      GensFollow(scans, id, f);
      if seed == None || gen != f.gen {
        scans := scans - {id};
        return;
      }
      var at := NextBatch(used(f.seed), f.at);
      if at.gap < RECEIVE_GAP {
        GensFollow(scans, id, f.(at := at));
        scans := scans[id := f.(at := at)];
        return;
      }
      Finished(used(f.seed), at);
      answer := Some(at.highest);
      scans := scans - {id};
      scannedGen := gen;
      var next := at.highest + 1;
      if next <= index {
        return;
      }
      index := next;
    }

    /** An indexer error ends the scan and moves nothing. It clears the busy flag, whichever wallet that names. */
    method OnFailure(id: nat)
      requires Valid() && id in scans
      modifies `busyGen, `scans
      ensures Valid() && busyGen == -1 && scans == old(scans) - {id}
      ensures State() == Next(old(State()), Failure(id))
    {
      GensFollow(scans, id, scans[id]);
      busyGen := -1;
      scans := scans - {id};
    }
  }
  /** A second wallet is opened while the scan of the first is waiting. */
  method TwoWalletsScanned(used: nat -> (nat -> bool)) returns (w: Wallet)
    ensures fresh(w) && w.Valid() && w.used == used && w.gen == 2 && w.seed == Some(1) && w.scannedGen == -1
    ensures w.scans == map[0 := InFlight(1, 0, AT_START), 1 := InFlight(2, 1, AT_START)]
  {
    w := new Wallet(used);
    w.OpenWallet(0, 0);
    w.SyncReceiveIndex(0, true);
    w.OpenWallet(1, 0);
    w.SyncReceiveIndex(1, true);
  }

  /** The first wallet's scan fails after the second wallet's has started; the next status poll then starts
      the second wallet's scan once more, beside the first one. */
  method TwoScansOfOneWallet(used: nat -> (nat -> bool)) returns (w: Wallet)
    ensures fresh(w) && w.Valid() && w.used == used
    ensures 1 in w.scans && 2 in w.scans && w.scans[1] == w.scans[2] == InFlight(w.gen, 1, AT_START)
    ensures !Single(w.State())
  {
    w := TwoWalletsScanned(used);
    w.OnFailure(0);
    w.SyncReceiveIndex(2, true);
    assert 1 in w.State().running && 2 in w.State().running;
  }
}
