/** apps/faucet/server.js: claims that overlap in time, one step per stretch of code between awaits. */
module Faucet {
  import opened Common
  import opened Positional
  import W = Bech32
  import Builders

  /** Keys of ctx.inFlight. */
  datatype Lock = ForAddress(address: string) | ForIp(ip: string)

  /** A claim past the guard: waiting for the oracle, then for sendtoaddress. */
  datatype Stage = AtOracle | AtSend

  datatype Claim = Claim(address: string, ip: string, stage: Stage)

  /** A recorded payout, with the two clock readings the ledger got. */
  datatype Payout = Payout(address: string, ip: string, atAddress: int, atIp: int)

  /** `names` are the properties every plain object of the runtime inherits. */
  datatype State = State(
    names: set<string>,
    now: int,
    inFlight: set<Lock>,
    byAddress: map<string, int>,
    byIp: map<string, int>,
    claims: map<nat, Claim>,
    paid: seq<Payout>)

  datatype Event =
    | Tick(ms: nat)
    /** The request's address parsed, the node named its chain: decode, lock, check the cooldown. */
    | Begin(id: nat, raw: string, ip: string, hrp: string)
    /** The oracle answered; usable is false for an error, no price, or a stale or unpayable one. */
    | Oracle(id: nat, usable: bool)
    /** sendtoaddress answered; between the two clock readings some time may pass. */
    | Sent(id: nat, paid: bool, drift: nat)

  // ---- the ledger: two plain objects ----

  const PROTO := "__proto__"

  /** What Node's plain objects inherit. */
  const OBJECT_NAMES: set<string> :=
    {PROTO, "constructor", "hasOwnProperty", "isPrototypeOf", "propertyIsEnumerable", "toLocaleString", "toString",
     "valueOf", "__defineGetter__", "__defineSetter__", "__lookupGetter__", "__lookupSetter__"}

  /** All that matters about these names: __proto__ is one, and none could be an address, which has a '1'. */
  predicate NamesOk(names: set<string>) {
    PROTO in names && forall n :: n in names ==> '1' !in n
  }

  lemma ObjectNamesOk()
    ensures NamesOk(OBJECT_NAMES)
  {
  }

  /** `m[k] ?? 0` as a number. None is NaN, what Math.max makes of an inherited function or object. */
  function Get(names: set<string>, m: map<string, int>, k: string): Option<int> {
    if k in m then Some(m[k]) else if k in names then None else Some(0)
  }

  /** `m[k] = v`. Assigning a number to an inherited __proto__ stores nothing. */
  function Put(m: map<string, int>, k: string, v: int): map<string, int> {
    if k == PROTO && k !in m then m else m[k := v]
  }

  /** The ledger object has no entry under this name, yet its lookup finds one. */
  predicate Hollow(names: set<string>, m: map<string, int>, k: string) {
    k in names && k !in m
  }

  /** Math.max: NaN if either is. */
  function Max(a: Option<int>, b: Option<int>): Option<int> {
    if a == None || b == None then None else if a.value > b.value then a else b
  }

  /** cooldownLeftMs; comparing with NaN is false. */
  function CooldownLeft(s: State, address: string, ip: string, cooldownMs: nat): int {
    var cutoff := s.now - cooldownMs;
    var last := Max(Get(s.names, s.byAddress, address), Get(s.names, s.byIp, ip));
    if last.Some? && last.value > cutoff then last.value - cutoff else 0
  }

  function Locks(c: Claim): set<Lock> {
    {ForAddress(c.address), ForIp(c.ip)}
  }

  function BeginStep(s: State, id: nat, raw: string, ip: string, hrp: string, cooldownMs: nat): State {
    if AddressOk(raw, hrp) then GuardStep(s, id, ToLower(raw), ip, cooldownMs) else s
  }

  predicate AddressOk(raw: string, hrp: string) {
    var d := W.Decode(raw);
    d.Some? && d.value.hrp == hrp
  }

  /** The synchronous guard: refuse if either lock is held or the cooldown runs, else take both locks. */
  function GuardStep(s: State, id: nat, address: string, ip: string, cooldownMs: nat): State {
    var c := Claim(address, ip, AtOracle);
    if id in s.claims || ForAddress(address) in s.inFlight || ForIp(ip) in s.inFlight then s
    else if CooldownLeft(s, address, ip, cooldownMs) > 0 then s
    else s.(inFlight := s.inFlight + Locks(c), claims := s.claims[id := c])
  }

  /** The finally block. */
  function Leave(s: State, id: nat): State
    requires id in s.claims
  {
    s.(inFlight := s.inFlight - Locks(s.claims[id]), claims := s.claims - {id})
  }

  function Record(s: State, c: Claim, drift: nat): State {
    s.(now := s.now + drift,
       byAddress := Put(s.byAddress, c.address, s.now),
       byIp := Put(s.byIp, c.ip, s.now + drift),
       paid := s.paid + [Payout(c.address, c.ip, s.now, s.now + drift)])
  }

  function Next(s: State, e: Event, cooldownMs: nat): State {
    match e
    case Tick(ms) => s.(now := s.now + ms)
    case Begin(id, raw, ip, hrp) => BeginStep(s, id, raw, ip, hrp, cooldownMs)
    case Oracle(id, usable) =>
      if id !in s.claims || s.claims[id].stage != AtOracle then s
      else if usable then s.(claims := s.claims[id := s.claims[id].(stage := AtSend)])
      else Leave(s, id)
    case Sent(id, paid, drift) =>
      if id !in s.claims || s.claims[id].stage != AtSend then s
      else if paid then Leave(Record(s, s.claims[id], drift), id)
      else Leave(s, id)
  }

  function Run(s: State, events: seq<Event>, cooldownMs: nat): State
    decreases |events|
  {
    if events == [] then s else Run(Next(s, events[0], cooldownMs), events[1..], cooldownMs)
  }

  /** A server just started, on whatever ledger its file holds. */
  predicate Started(s: State) {
    NamesOk(s.names) && s.inFlight == {} && s.claims == map[] && s.paid == []
  }

  // ---- the invariant ----

  predicate Apart(c: Claim, d: Claim) {
    c.address != d.address && c.ip != d.ip
  }

  /** No two claims inside the guarded section share an address or an IP. */
  predicate Exclusive(s: State) {
    forall i, j :: i in s.claims && j in s.claims && i != j ==> Apart(s.claims[i], s.claims[j])
  }

  predicate HasLocks(s: State, c: Claim) {
    ForAddress(c.address) in s.inFlight && ForIp(c.ip) in s.inFlight
  }

  predicate Owns(c: Claim, l: Lock) {
    l == ForAddress(c.address) || l == ForIp(c.ip)
  }

  predicate Owned(s: State, l: Lock) {
    exists i :: i in s.claims && Owns(s.claims[i], l)
  }

  /** A lock is held exactly by a claim inside the guarded section. */
  ghost predicate LocksMatch(s: State) {
    && (forall i :: i in s.claims ==> HasLocks(s, s.claims[i]))
    && (forall l {:trigger Owned(s, l)} :: l in s.inFlight ==> Owned(s, l))
  }

  /** The lookup gives a number no later than the cutoff. */
  predicate Rested(names: set<string>, m: map<string, int>, k: string, cutoff: int) {
    Get(names, m, k).Some? && Get(names, m, k).value <= cutoff
  }

  predicate RestedClaim(s: State, c: Claim, cooldownMs: nat) {
    && Rested(s.names, s.byAddress, c.address, s.now - cooldownMs)
    && Rested(s.names, s.byIp, c.ip, s.now - cooldownMs)
  }

  /** No time left means out of cooldown, provided both lookups give numbers. */
  lemma NothingLeft(s: State, c: Claim, cooldownMs: nat)
    ensures CooldownLeft(s, c.address, c.ip, cooldownMs) <= 0 <==>
            RestedClaim(s, c, cooldownMs) || Hollow(s.names, s.byAddress, c.address) || Hollow(s.names, s.byIp, c.ip)
  {
  }

  /** Every claim inside was out of cooldown when it came in, and still is. */
  predicate AllRested(s: State, cooldownMs: nat) {
    forall i :: i in s.claims ==> RestedClaim(s, s.claims[i], cooldownMs)
  }

  predicate LedgeredIn(m: map<string, int>, k: string, at: int) {
    k in m && at <= m[k]
  }

  /** The ledger holds the latest payout of every address and IP. */
  predicate Ledgered(s: State) {
    forall k :: 0 <= k < |s.paid| ==>
      LedgeredIn(s.byAddress, s.paid[k].address, s.paid[k].atAddress) && LedgeredIn(s.byIp, s.paid[k].ip, s.paid[k].atIp)
  }

  predicate Spaced(p: Payout, q: Payout, cooldownMs: nat) {
    && (p.address == q.address ==> q.atAddress >= p.atAddress + cooldownMs)
    && (p.ip == q.ip ==> q.atIp >= p.atIp + cooldownMs)
  }

  predicate AllSpaced(s: State, cooldownMs: nat) {
    forall i, j :: 0 <= i < j < |s.paid| ==> Spaced(s.paid[i], s.paid[j], cooldownMs)
  }

  /** Who is inside, and which locks are held. */
  ghost predicate Guarded(s: State) {
    Exclusive(s) && LocksMatch(s)
  }

  /** What the ledger and the payouts say. */
  ghost predicate Inv(s: State, cooldownMs: nat) {
    NamesOk(s.names) && Guarded(s) && AllRested(s, cooldownMs) && Ledgered(s) && AllSpaced(s, cooldownMs)
  }

  /** A claim that finds both its locks free shares nothing with the claims inside. */
  lemma FreeLocksMeanApart(s: State, c: Claim)
    requires LocksMatch(s) && ForAddress(c.address) !in s.inFlight && ForIp(c.ip) !in s.inFlight
    ensures forall i :: i in s.claims ==> Apart(s.claims[i], c)
  {
    forall i | i in s.claims ensures Apart(s.claims[i], c) {
      assert HasLocks(s, s.claims[i]);
    }
  }

  lemma EnterLocks(s: State, t: State, id: nat, c: Claim)
    requires LocksMatch(s) && id !in s.claims
    requires t.inFlight == s.inFlight + Locks(c) && t.claims == s.claims[id := c]
    ensures LocksMatch(t)
  {
    forall l {:trigger Owned(t, l)} | l in t.inFlight ensures Owned(t, l) {
      if l in s.inFlight {
        assert Owned(s, l);
        var i :| i in s.claims && Owns(s.claims[i], l);
        assert t.claims[i] == s.claims[i];
      } else {
        assert Owns(t.claims[id], l);
      }
    }
  }

  lemma EnterGuarded(s: State, id: nat, address: string, ip: string, cooldownMs: nat)
    requires Guarded(s)
    ensures Guarded(GuardStep(s, id, address, ip, cooldownMs))
  {
    var t := GuardStep(s, id, address, ip, cooldownMs);
    if t != s {
      var c := Claim(address, ip, AtOracle);
      FreeLocksMeanApart(s, c);
      EnterLocks(s, t, id, c);
    }
  }

  /** An address that decodes has a separator '1' in it; no inherited name has. */
  lemma AddressIsNotInherited(raw: string, hrp: string, names: set<string>)
    requires AddressOk(raw, hrp) && NamesOk(names)
    ensures ToLower(raw) !in names
  {
    var lower := ToLower(raw);
    assert lower[W.LastOne(lower)] == '1';
  }

  /** A claim whose IP is in the ledger or no inherited name comes in only out of cooldown. */
  lemma EnterKeeps(s: State, id: nat, raw: string, ip: string, hrp: string, cooldownMs: nat)
    requires Inv(s, cooldownMs) && !Hollow(s.names, s.byIp, ip)
    ensures Inv(BeginStep(s, id, raw, ip, hrp, cooldownMs), cooldownMs)
  {
    var t := BeginStep(s, id, raw, ip, hrp, cooldownMs);
    if t != s {
      EnterGuarded(s, id, ToLower(raw), ip, cooldownMs);
      AddressIsNotInherited(raw, hrp, s.names);
      NothingLeft(s, Claim(ToLower(raw), ip, AtOracle), cooldownMs);
    }
  }

  lemma LeaveLocks(s: State, id: nat)
    requires id in s.claims && Exclusive(s) && LocksMatch(s)
    ensures LocksMatch(Leave(s, id))
  {
    var t := Leave(s, id);
    forall i | i in t.claims ensures HasLocks(t, t.claims[i]) {
      assert Apart(s.claims[i], s.claims[id]) && HasLocks(s, s.claims[i]);
    }
    forall l {:trigger Owned(t, l)} | l in t.inFlight ensures Owned(t, l) {
      assert Owned(s, l);
      var i :| i in s.claims && Owns(s.claims[i], l);
      assert i != id;
      assert t.claims[i] == s.claims[i];
    }
  }

  lemma LeaveKeeps(s: State, id: nat, cooldownMs: nat)
    requires id in s.claims && NamesOk(s.names) && Guarded(s) && Ledgered(s) && AllSpaced(s, cooldownMs)
    requires forall i :: i in s.claims && i != id ==> RestedClaim(s, s.claims[i], cooldownMs)
    ensures Inv(Leave(s, id), cooldownMs)
  {
    LeaveLocks(s, id);
  }

  /** The payout that is recorded comes a cooldown after every earlier one of its address or IP. */
  lemma RecordSpaces(s: State, c: Claim, drift: nat, cooldownMs: nat)
    requires Ledgered(s) && AllSpaced(s, cooldownMs) && RestedClaim(s, c, cooldownMs)
    ensures AllSpaced(Record(s, c, drift), cooldownMs)
  {
    var t := Record(s, c, drift);
    var n := |s.paid|;
    forall i, j | 0 <= i < j < |t.paid| ensures Spaced(t.paid[i], t.paid[j], cooldownMs) {
      assert t.paid[i] == s.paid[i];
      if j < n {
        assert Spaced(s.paid[i], s.paid[j], cooldownMs);
      } else {
        assert LedgeredIn(s.byAddress, s.paid[i].address, s.paid[i].atAddress);
      }
    }
  }

  /** A number that replaces an earlier one keeps the ledger ahead of the payouts. */
  lemma PutLedgers(names: set<string>, m: map<string, int>, k: string, v: int, other: string, at: int)
    requires Get(names, m, k).Some? && Get(names, m, k).value <= v && LedgeredIn(m, other, at)
    ensures LedgeredIn(Put(m, k, v), other, at)
  {
  }

  lemma RecordLedgers(s: State, c: Claim, drift: nat, cooldownMs: nat)
    requires NamesOk(s.names) && Ledgered(s) && RestedClaim(s, c, cooldownMs)
    ensures Ledgered(Record(s, c, drift))
  {
    var t := Record(s, c, drift);
    forall k | 0 <= k < |t.paid|
      ensures LedgeredIn(t.byAddress, t.paid[k].address, t.paid[k].atAddress) && LedgeredIn(t.byIp, t.paid[k].ip, t.paid[k].atIp)
    {
      if k < |s.paid| {
        PutLedgers(s.names, s.byAddress, c.address, s.now, s.paid[k].address, s.paid[k].atAddress);
        PutLedgers(s.names, s.byIp, c.ip, s.now + drift, s.paid[k].ip, s.paid[k].atIp);
      }
    }
  }

  lemma RecordLeavesOthers(s: State, id: nat, drift: nat, cooldownMs: nat)
    requires Exclusive(s) && AllRested(s, cooldownMs) && id in s.claims
    ensures var t := Record(s, s.claims[id], drift);
            forall i :: i in t.claims && i != id ==> RestedClaim(t, t.claims[i], cooldownMs)
  {
    var t := Record(s, s.claims[id], drift);
    forall i | i in t.claims && i != id ensures RestedClaim(t, t.claims[i], cooldownMs) {
      assert Apart(s.claims[i], s.claims[id]) && RestedClaim(s, s.claims[i], cooldownMs);
    }
  }

  lemma SentKeeps(s: State, id: nat, drift: nat, cooldownMs: nat)
    requires Inv(s, cooldownMs) && id in s.claims
    ensures Inv(Leave(Record(s, s.claims[id], drift), id), cooldownMs)
  {
    var t := Record(s, s.claims[id], drift);
    RecordSpaces(s, s.claims[id], drift, cooldownMs);
    RecordLedgers(s, s.claims[id], drift, cooldownMs);
    RecordLeavesOthers(s, id, drift, cooldownMs);
    SameGuard(s, t);
    LeaveKeeps(t, id, cooldownMs);
  }

  /** Who is inside and which locks are held do not depend on the ledger. */
  lemma SameGuard(s: State, t: State)
    requires Guarded(s) && t.claims == s.claims && t.inFlight == s.inFlight
    ensures Guarded(t)
  {
    assert forall i :: i in t.claims ==> HasLocks(s, s.claims[i]);
    forall l {:trigger Owned(t, l)} | l in t.inFlight ensures Owned(t, l) {
      KeepOwner(s, t, l);
    }
  }

  /** A lock keeps its owner while the owner keeps its address and IP. */
  lemma KeepOwner(s: State, t: State, l: Lock)
    requires LocksMatch(s) && l in s.inFlight
    requires forall i :: i in s.claims ==>
               i in t.claims && t.claims[i].address == s.claims[i].address && t.claims[i].ip == s.claims[i].ip
    ensures Owned(t, l)
  {
    assert Owned(s, l);
    var i :| i in s.claims && Owns(s.claims[i], l);
    assert Owns(t.claims[i], l);
  }

  lemma StageLocks(s: State, id: nat)
    requires Guarded(s) && id in s.claims
    ensures Guarded(s.(claims := s.claims[id := s.claims[id].(stage := AtSend)]))
  {
    var t := s.(claims := s.claims[id := s.claims[id].(stage := AtSend)]);
    forall i | i in t.claims ensures HasLocks(t, t.claims[i]) {
      assert HasLocks(s, s.claims[i]);
    }
    forall l {:trigger Owned(t, l)} | l in t.inFlight ensures Owned(t, l) {
      KeepOwner(s, t, l);
    }
    forall i, j | i in t.claims && j in t.claims && i != j ensures Apart(t.claims[i], t.claims[j]) {
      assert Apart(s.claims[i], s.claims[j]);
    }
  }

  lemma StageKeeps(s: State, id: nat, cooldownMs: nat)
    requires Inv(s, cooldownMs) && id in s.claims
    ensures Inv(s.(claims := s.claims[id := s.claims[id].(stage := AtSend)]), cooldownMs)
  {
    var t := s.(claims := s.claims[id := s.claims[id].(stage := AtSend)]);
    StageLocks(s, id);
    forall i | i in t.claims ensures RestedClaim(t, t.claims[i], cooldownMs) {
      assert RestedClaim(s, s.claims[i], cooldownMs);
    }
  }

  lemma TickKeeps(s: State, ms: nat, cooldownMs: nat)
    requires Inv(s, cooldownMs)
    ensures Inv(s.(now := s.now + ms), cooldownMs)
  {
    SameGuard(s, s.(now := s.now + ms));
  }

  // ---- the guard, over every run ----

  lemma LeaveGuarded(s: State, id: nat)
    requires Guarded(s) && id in s.claims
    ensures Guarded(Leave(s, id))
  {
    LeaveLocks(s, id);
  }

  lemma NextGuarded(s: State, e: Event, cooldownMs: nat)
    requires Guarded(s)
    ensures Guarded(Next(s, e, cooldownMs))
  {
    match e
    case Tick(ms) => SameGuard(s, s.(now := s.now + ms));
    case Begin(id, raw, ip, hrp) => EnterGuarded(s, id, ToLower(raw), ip, cooldownMs);
    case Oracle(id, usable) =>
      if id in s.claims {
        StageLocks(s, id);
        LeaveGuarded(s, id);
      }
    case Sent(id, paid, drift) =>
      if id in s.claims {
        LeaveGuarded(s, id);
        SameGuard(s, Record(s, s.claims[id], drift));
        LeaveGuarded(Record(s, s.claims[id], drift), id);
      }
  }

  lemma {:induction false} RunGuarded(s: State, events: seq<Event>, cooldownMs: nat)
    requires Guarded(s)
    ensures Guarded(Run(s, events, cooldownMs))
    decreases |events|
  {
    if events != [] {
      NextGuarded(s, events[0], cooldownMs);
      RunGuarded(Next(s, events[0], cooldownMs), events[1..], cooldownMs);
    }
  }

  /** Two claims are never inside the guarded section together if they share either. */
  lemma ClaimsExclude(s: State, events: seq<Event>, cooldownMs: nat, i: nat, j: nat)
    requires Started(s) && i != j
    requires i in Run(s, events, cooldownMs).claims && j in Run(s, events, cooldownMs).claims
    ensures Apart(Run(s, events, cooldownMs).claims[i], Run(s, events, cooldownMs).claims[j])
  {
    RunGuarded(s, events, cooldownMs);
  }

  /** Locks are released on every way out: with no claim inside, none is held. */
  lemma LocksReleased(s: State, events: seq<Event>, cooldownMs: nat)
    requires Started(s) && Run(s, events, cooldownMs).claims == map[]
    ensures Run(s, events, cooldownMs).inFlight == {}
  {
    var t := Run(s, events, cooldownMs);
    RunGuarded(s, events, cooldownMs);
    forall l ensures l !in t.inFlight {
      assert !Owned(t, l);
    }
  }

  // ---- the cooldown, over the runs whose IPs the ledger can hold ----

  /** Every claim comes from an IP the ledger holds or that is no inherited name. */
  predicate IpsHeld(events: seq<Event>, names: set<string>, byIp: map<string, int>) {
    forall k :: 0 <= k < |events| && events[k].Begin? ==> !Hollow(names, byIp, events[k].ip)
  }

  lemma NextKeeps(s: State, e: Event, cooldownMs: nat)
    requires Inv(s, cooldownMs) && (e.Begin? ==> !Hollow(s.names, s.byIp, e.ip))
    ensures Inv(Next(s, e, cooldownMs), cooldownMs)
    ensures s.byIp.Keys <= Next(s, e, cooldownMs).byIp.Keys && Next(s, e, cooldownMs).names == s.names
  {
    match e
    case Tick(ms) => TickKeeps(s, ms, cooldownMs);
    case Begin(id, raw, ip, hrp) => EnterKeeps(s, id, raw, ip, hrp, cooldownMs);
    case Oracle(id, usable) =>
      if id in s.claims {
        StageKeeps(s, id, cooldownMs);
        LeaveKeeps(s, id, cooldownMs);
      }
    case Sent(id, paid, drift) =>
      if id in s.claims {
        SentKeeps(s, id, drift, cooldownMs);
        LeaveKeeps(s, id, cooldownMs);
      }
  }

  lemma {:induction false} RunKeeps(s: State, events: seq<Event>, cooldownMs: nat)
    requires Inv(s, cooldownMs) && IpsHeld(events, s.names, s.byIp)
    ensures Inv(Run(s, events, cooldownMs), cooldownMs)
    decreases |events|
  {
    if events != [] {
      var t := Next(s, events[0], cooldownMs);
      NextKeeps(s, events[0], cooldownMs);
      forall k | 0 <= k < |events[1..]| && events[1..][k].Begin? ensures !Hollow(t.names, t.byIp, events[1..][k].ip) {
        assert events[1..][k] == events[k + 1];
      }
      RunKeeps(t, events[1..], cooldownMs);
    }
  }

  /** Over every interleaving two recorded payouts that share an address or an IP are a cooldown apart, as
      long as no claim's IP is an inherited name that the ledger does not hold. */
  lemma PayoutsAreSpaced(s: State, events: seq<Event>, cooldownMs: nat, i: nat, j: nat)
    requires Started(s) && IpsHeld(events, s.names, s.byIp) && i < j < |Run(s, events, cooldownMs).paid|
    ensures var paid := Run(s, events, cooldownMs).paid;
            && (paid[i].address == paid[j].address ==> paid[j].atAddress - paid[i].atAddress >= cooldownMs)
            && (paid[i].ip == paid[j].ip ==> paid[j].atIp - paid[i].atIp >= cooldownMs)
  {
    RunKeeps(s, events, cooldownMs);
    assert Spaced(Run(s, events, cooldownMs).paid[i], Run(s, events, cooldownMs).paid[j], cooldownMs);
  }

  // ---- where the promise stops: inherited names ----

  /** A claim that comes in and is paid with nothing in between. */
  function OneClaim(id: nat, raw: string, ip: string, hrp: string): seq<Event> {
    [Begin(id, raw, ip, hrp), Oracle(id, true), Sent(id, true, 0)]
  }

  lemma {:induction false} RunConcat(s: State, a: seq<Event>, b: seq<Event>, cooldownMs: nat)
    ensures Run(s, a + b, cooldownMs) == Run(Run(s, a, cooldownMs), b, cooldownMs)
    decreases |a|
  {
    if a == [] {
      assert a + b == b;
    } else {
      assert (a + b)[0] == a[0] && (a + b)[1..] == a[1..] + b;
      RunConcat(Next(s, a[0], cooldownMs), a[1..], b, cooldownMs);
    }
  }

  lemma RunThree(s: State, x: Event, y: Event, z: Event, cooldownMs: nat)
    ensures Run(s, [x, y, z], cooldownMs) == Next(Next(Next(s, x, cooldownMs), y, cooldownMs), z, cooldownMs)
  {
    assert [x, y, z][1..] == [y, z] && [y, z][1..] == [z] && [z][1..] == [];
    var s1 := Next(s, x, cooldownMs);
    var s2 := Next(s1, y, cooldownMs);
    assert Run(s, [x, y, z], cooldownMs) == Run(s1, [y, z], cooldownMs) == Run(s2, [z], cooldownMs);
    assert Run(s2, [z], cooldownMs) == Run(Next(s2, z, cooldownMs), [], cooldownMs);
  }

  lemma BeginIsGuard(s: State, id: nat, raw: string, ip: string, hrp: string, cooldownMs: nat)
    requires AddressOk(raw, hrp)
    ensures Next(s, Begin(id, raw, ip, hrp), cooldownMs) == GuardStep(s, id, ToLower(raw), ip, cooldownMs)
  {
  }

  lemma GuardedThrough(s: State, id: nat, c: Claim, cooldownMs: nat)
    requires s.claims == map[] && s.inFlight == {} && c.stage == AtOracle
    requires CooldownLeft(s, c.address, c.ip, cooldownMs) <= 0
    ensures var s1 := GuardStep(s, id, c.address, c.ip, cooldownMs);
            Next(Next(s1, Oracle(id, true), cooldownMs), Sent(id, true, 0), cooldownMs)
            == s.(byAddress := Put(s.byAddress, c.address, s.now), byIp := Put(s.byIp, c.ip, s.now),
                  paid := s.paid + [Payout(c.address, c.ip, s.now, s.now)])
  {
    var s1 := GuardStep(s, id, c.address, c.ip, cooldownMs);
    assert s1 == s.(inFlight := Locks(c), claims := map[id := c]);
    assert s1.claims[id := c.(stage := AtSend)] - {id} == map[];
  }

  /** Alone inside and with no time left, a claim is paid at once. */
  lemma PaidAtOnce(s: State, id: nat, raw: string, ip: string, hrp: string, cooldownMs: nat)
    requires s.claims == map[] && s.inFlight == {} && AddressOk(raw, hrp)
    requires CooldownLeft(s, ToLower(raw), ip, cooldownMs) <= 0
    ensures var address := ToLower(raw);
            Run(s, OneClaim(id, raw, ip, hrp), cooldownMs)
            == s.(byAddress := Put(s.byAddress, address, s.now), byIp := Put(s.byIp, ip, s.now),
                  paid := s.paid + [Payout(address, ip, s.now, s.now)])
  {
    RunThree(s, Begin(id, raw, ip, hrp), Oracle(id, true), Sent(id, true, 0), cooldownMs);
    BeginIsGuard(s, id, raw, ip, hrp, cooldownMs);
    GuardedThrough(s, id, Claim(ToLower(raw), ip, AtOracle), cooldownMs);
  }

  /** A hollow IP has no cooldown, and neither has any address claimed from it. */
  lemma HollowHasNoCooldown(s: State, address: string, ip: string, cooldownMs: nat)
    requires Hollow(s.names, s.byIp, ip)
    ensures CooldownLeft(s, address, ip, cooldownMs) == 0
  {
  }

  /** A claim and, at once, another one of the same address from an IP that is hollow by then. */
  lemma PaidAgain(s: State, raw: string, ip1: string, ip2: string, hrp: string, cooldownMs: nat)
    requires s.claims == map[] && s.inFlight == {} && AddressOk(raw, hrp)
    requires CooldownLeft(s, ToLower(raw), ip1, cooldownMs) <= 0 && Hollow(s.names, Put(s.byIp, ip1, s.now), ip2)
    ensures var address := ToLower(raw);
            Run(s, OneClaim(0, raw, ip1, hrp) + OneClaim(1, raw, ip2, hrp), cooldownMs).paid
            == s.paid + [Payout(address, ip1, s.now, s.now)] + [Payout(address, ip2, s.now, s.now)]
  {
    PaidAtOnce(s, 0, raw, ip1, hrp, cooldownMs);
    var t := Run(s, OneClaim(0, raw, ip1, hrp), cooldownMs);
    HollowHasNoCooldown(t, ToLower(raw), ip2, cooldownMs);
    PaidAtOnce(t, 1, raw, ip2, hrp, cooldownMs);
    RunConcat(s, OneClaim(0, raw, ip1, hrp), OneClaim(1, raw, ip2, hrp), cooldownMs);
  }

  /** Two claims of one address from the IP `__proto__`, one right after the other, are both paid and
      recorded, whatever was paid before. */
  lemma ProtoIsPaidTwice(s: State, raw: string, hrp: string, cooldownMs: nat)
    requires Started(s) && AddressOk(raw, hrp) && PROTO !in s.byIp
    ensures var p := Payout(ToLower(raw), PROTO, s.now, s.now);
            Run(s, OneClaim(0, raw, PROTO, hrp) + OneClaim(1, raw, PROTO, hrp), cooldownMs).paid == [p, p]
  {
    HollowHasNoCooldown(s, ToLower(raw), PROTO, cooldownMs);
    PaidAgain(s, raw, PROTO, PROTO, hrp, cooldownMs);
  }

  /** Long enough a wait puts an address and an IP out of cooldown. */
  function Wait(s: State, address: string, ip: string, cooldownMs: nat): nat {
    var last := Max(Get(s.names, s.byAddress, address), Get(s.names, s.byIp, ip));
    if last.Some? && last.value + cooldownMs > s.now then last.value + cooldownMs - s.now else 0
  }

  /** The loopback address, which has a '1' in it and so is no inherited name. */
  const PLAIN_IP := "127.0.0.1"

  /** An address is claimed from an ordinary IP and at once again from a hollow one. */
  function TwoClaims(s: State, raw: string, ip: string, hrp: string, cooldownMs: nat): seq<Event> {
    [Tick(Wait(s, ToLower(raw), PLAIN_IP, cooldownMs))] + (OneClaim(0, raw, PLAIN_IP, hrp) + OneClaim(1, raw, ip, hrp))
  }

  lemma RunTick(s: State, ms: nat, events: seq<Event>, cooldownMs: nat)
    ensures Run(s, [Tick(ms)] + events, cooldownMs) == Run(s.(now := s.now + ms), events, cooldownMs)
  {
    assert ([Tick(ms)] + events)[1..] == events;
  }

  lemma PlainIpIsPlain(names: set<string>)
    requires NamesOk(names)
    ensures PLAIN_IP !in names && PLAIN_IP != PROTO
  {
    assert PLAIN_IP[0] == '1';
  }

  lemma SameTimePayouts(address: string, ip1: string, ip2: string, at: int, s: State, cooldownMs: nat)
    requires s.paid == [] + [Payout(address, ip1, at, at)] + [Payout(address, ip2, at, at)] && cooldownMs > 0
    ensures !AllSpaced(s, cooldownMs)
  {
    assert !Spaced(s.paid[0], s.paid[1], cooldownMs);
  }

  /** From every start, every hollow IP breaks the spacing of an address. */
  lemma HollowIpBreaksSpacing(s: State, raw: string, ip: string, hrp: string, cooldownMs: nat)
    requires Started(s) && AddressOk(raw, hrp) && Hollow(s.names, s.byIp, ip) && cooldownMs > 0
    ensures !AllSpaced(Run(s, TwoClaims(s, raw, ip, hrp, cooldownMs), cooldownMs), cooldownMs)
  {
    var address := ToLower(raw);
    var ms := Wait(s, address, PLAIN_IP, cooldownMs);
    PlainIpIsPlain(s.names);
    var t := s.(now := s.now + ms);
    RunTick(s, ms, OneClaim(0, raw, PLAIN_IP, hrp) + OneClaim(1, raw, ip, hrp), cooldownMs);
    PaidAgain(t, raw, PLAIN_IP, ip, hrp, cooldownMs);
    SameTimePayouts(address, PLAIN_IP, ip, t.now, Run(s, TwoClaims(s, raw, ip, hrp, cooldownMs), cooldownMs), cooldownMs);
  }

  lemma TwoClaimsFrom(s: State, raw: string, ip: string, hrp: string, cooldownMs: nat, ips: iset<string>)
    requires PLAIN_IP in ips && ip in ips
    ensures ClaimsFrom(TwoClaims(s, raw, ip, hrp, cooldownMs), ips)
  {
  }

  ghost predicate ClaimsFrom(events: seq<Event>, ips: iset<string>) {
    forall k :: 0 <= k < |events| && events[k].Begin? ==> events[k].ip in ips
  }

  /** Every run whose claims come from these IPs keeps payouts apart. */
  ghost predicate AlwaysSpaced(s: State, ips: iset<string>, cooldownMs: nat) {
    forall events :: ClaimsFrom(events, ips) ==> AllSpaced(Run(s, events, cooldownMs), cooldownMs)
  }

  /** Payouts are spaced in every run exactly when no claim can come from a hollow IP. */
  lemma SpacedExactlyWithoutHollowIps(s: State, ips: iset<string>, raw: string, hrp: string, cooldownMs: nat)
    requires Started(s) && AddressOk(raw, hrp) && cooldownMs > 0 && PLAIN_IP in ips
    ensures AlwaysSpaced(s, ips, cooldownMs) <==> forall ip :: ip in ips ==> !Hollow(s.names, s.byIp, ip)
  {
    if forall ip :: ip in ips ==> !Hollow(s.names, s.byIp, ip) {
      forall events | ClaimsFrom(events, ips) ensures AllSpaced(Run(s, events, cooldownMs), cooldownMs) {
        RunKeeps(s, events, cooldownMs);
      }
    } else {
      var ip :| ip in ips && Hollow(s.names, s.byIp, ip);
      HollowIpBreaksSpacing(s, raw, ip, hrp, cooldownMs);
      TwoClaimsFrom(s, raw, ip, hrp, cooldownMs, ips);
    }
  }

  /** When the ledger last paid this key; never is the epoch. */
  function LastPaid(m: map<string, int>, k: string): int {
    if k in m then m[k] else 0
  }

  /** Names the ledger object inherits aside, a claim is let in exactly when its address is one of this chain, no claim
      of the same address or IP is inside, and both were last paid a cooldown ago or more; it then holds both locks.
      A refused one is told the time that is really left. */
  lemma AdmittedIff(s: State, id: nat, raw: string, ip: string, hrp: string, cooldownMs: nat)
    requires id !in s.claims && !Hollow(s.names, s.byAddress, ToLower(raw)) && !Hollow(s.names, s.byIp, ip)
    ensures var address, t := ToLower(raw), BeginStep(s, id, raw, ip, hrp, cooldownMs);
            && (id in t.claims <==>
                  && AddressOk(raw, hrp) && ForAddress(address) !in s.inFlight && ForIp(ip) !in s.inFlight
                  && LastPaid(s.byAddress, address) + cooldownMs <= s.now && LastPaid(s.byIp, ip) + cooldownMs <= s.now)
            && (id in t.claims ==>
                  t == s.(inFlight := s.inFlight + {ForAddress(address), ForIp(ip)},
                          claims := s.claims[id := Claim(address, ip, AtOracle)]))
            && (id !in t.claims ==> t == s)
    ensures var left := CooldownLeft(s, ToLower(raw), ip, cooldownMs);
            && left >= 0 && left >= LastPaid(s.byAddress, ToLower(raw)) + cooldownMs - s.now
            && left >= LastPaid(s.byIp, ip) + cooldownMs - s.now
            && (left == 0 || left == LastPaid(s.byAddress, ToLower(raw)) + cooldownMs - s.now
                || left == LastPaid(s.byIp, ip) + cooldownMs - s.now)
  {
  }

  /** after is before with k recorded at the time t, but for a `__proto__` that is inherited only. */
  predicate Recorded(before: map<string, int>, after: map<string, int>, k: string, t: int) {
    after == if k != "__proto__" || k in before then before[k := t] else before
  }

  /** A claim leaves the guarded section when the oracle has no usable price, and when the node has answered; its locks
      go with it. If the node paid, the payout is recorded for its address at the clock, and for its IP at the clock
      read next; if not, nothing is. */
  lemma LeavesExactly(s: State, id: nat, ok: bool, drift: nat, cooldownMs: nat)
    requires id in s.claims
    ensures var c, t, u := s.claims[id], Next(s, Oracle(id, ok), cooldownMs), Next(s, Sent(id, ok, drift), cooldownMs);
            var left := s.(inFlight := s.inFlight - {ForAddress(c.address), ForIp(c.ip)}, claims := s.claims - {id});
            && (c.stage == AtOracle ==> u == s && t == if ok then s.(claims := s.claims[id := c.(stage := AtSend)]) else left)
            && (c.stage == AtSend ==> t == s && (!ok ==> u == left))
            && (c.stage == AtSend && ok ==>
                  && Recorded(s.byAddress, u.byAddress, c.address, s.now) && Recorded(s.byIp, u.byIp, c.ip, s.now + drift)
                  && u == left.(now := s.now + drift, byAddress := u.byAddress, byIp := u.byIp,
                                paid := s.paid + [Payout(c.address, c.ip, s.now, s.now + drift)]))
  {
  }

  /** Writing an address in capitals does not make it another address. */
  lemma CaseDoesNotHelp(s: State, id: nat, raw: string, other: string, ip: string, hrp: string, cooldownMs: nat)
    requires ToLower(raw) == ToLower(other) && W.Decode(raw).Some? && W.Decode(other).Some?
    ensures BeginStep(s, id, raw, ip, hrp, cooldownMs) == BeginStep(s, id, other, ip, hrp, cooldownMs)
  {
  }

  // ---- the server's state, updated in place ----

  /** ctx, with the handlers that are suspended past the guard. */
  class Context {
    const names: set<string>
    var now: int
    var inFlight: set<Lock>
    var byAddress: map<string, int>
    var byIp: map<string, int>
    var suspended: map<nat, Claim>
    ghost var paid: seq<Payout>

    ghost function View(): State
      reads this
    {
      State(names, now, inFlight, byAddress, byIp, suspended, paid)
    }

    constructor (now: int, byAddress: map<string, int>, byIp: map<string, int>)
      ensures Started(View()) && View().byAddress == byAddress && View().byIp == byIp && View().now == now
    {
      names := OBJECT_NAMES;
      this.now, this.byAddress, this.byIp := now, byAddress, byIp;
      inFlight, suspended, paid := {}, map[], [];
      ObjectNamesOk();
    }

    /** handleClaim from the chain name to its next await: true when it goes on to ask the oracle. */
    method HandleBegin(id: nat, raw: string, ip: string, hrp: string, cooldownMs: nat) returns (goesOn: bool)
      requires id !in suspended
      modifies this
      ensures View() == Next(old(View()), Begin(id, raw, ip, hrp), cooldownMs)
      ensures goesOn <==> id in suspended
    {
      goesOn := false;
      if AddressOk(raw, hrp) {
        goesOn := Guard(id, ToLower(raw), ip, cooldownMs);
      }
    }

    method Guard(id: nat, address: string, ip: string, cooldownMs: nat) returns (goesOn: bool)
      requires id !in suspended
      modifies `inFlight, `suspended
      ensures View() == GuardStep(old(View()), id, address, ip, cooldownMs)
      ensures goesOn <==> id in suspended
    {
      if ForAddress(address) in inFlight || ForIp(ip) in inFlight {
        return false;
      }
      inFlight := inFlight + {ForAddress(address), ForIp(ip)};
      var cutoff := now - cooldownMs;
      var last := Max(Get(names, byAddress, address), Get(names, byIp, ip));
      var left := if last.Some? && last.value > cutoff then last.value - cutoff else 0;
      if left > 0 {
        inFlight := inFlight - {ForAddress(address), ForIp(ip)};
        assert inFlight == old(inFlight);
        return false;
      }
      suspended := suspended[id := Claim(address, ip, AtOracle)];
      goesOn := true;
    }

    /** After getoracleprice. */
    method HandleOracle(id: nat, usable: bool, cooldownMs: nat)
      requires id in suspended && suspended[id].stage == AtOracle
      modifies this
      ensures View() == Next(old(View()), Oracle(id, usable), cooldownMs)
    {
      if usable {
        suspended := suspended[id := suspended[id].(stage := AtSend)];
      } else {
        Finally(id);
      }
    }

    /** After sendtoaddress: record, then the finally block. */
    method HandleSent(id: nat, ok: bool, drift: nat, cooldownMs: nat)
      requires id in suspended && suspended[id].stage == AtSend
      modifies this
      ensures View() == Next(old(View()), Sent(id, ok, drift), cooldownMs)
    {
      if ok {
        var c := suspended[id];
        byAddress := Put(byAddress, c.address, now);
        paid := paid + [Payout(c.address, c.ip, now, now + drift)];
        now := now + drift;
        byIp := Put(byIp, c.ip, now);
      }
      Finally(id);
    }

    method Finally(id: nat)
      requires id in suspended
      modifies `inFlight, `suspended
      ensures View() == Leave(old(View()), id)
    {
      var c := suspended[id];
      inFlight := inFlight - {ForAddress(c.address), ForIp(c.ip)};
      suspended := suspended - {id};
    }
  }

  // ---- the amount ----

  function DispenseSats(targetDdCents: int, price: int): Result<int> {
    var floor := Builders.RequiredCollateralSats(targetDdCents, "6months", price, 10_000);
    if floor.Err? then floor
    else
      var withHeadroom := Builders.TruncDiv(floor.value * 110, 100);
      Ok(Builders.TruncDiv(withHeadroom + Builders.COIN - 1, Builders.COIN) * Builders.COIN)
  }

  lemma FloorIsPositive(targetDdCents: int, price: int)
    requires Builders.RequiredCollateralSats(targetDdCents, "6months", price, 10_000).Ok?
    ensures Builders.RequiredCollateralSats(targetDdCents, "6months", price, 10_000).value >= 0
  {
    var ratio := Builders.LOCK_TIERS[Builders.TierIndex("6months")].ratioPercent;
    var eff := Builders.EffectiveRatioPercent(ratio, 10_000);
    NonNegative(targetDdCents * Builders.COIN, eff);
    Builders.CeilDivLeast(targetDdCents * Builders.COIN * eff * 100, price);
    var base := Builders.BaseSats(targetDdCents, eff, price);
    if base < 0 {
      NegativeProduct(base, price);
    }
    assert base >= 0;
  }

  lemma NonNegative(a: int, b: int)
    requires a >= 0 && b >= 0
    ensures a * b >= 0
  {
  }

  lemma NegativeProduct(q: int, d: int)
    requires q < 0 && d > 0
    ensures q * d < 0
  {
  }

  /** Whole DGB, at least the collateral floor with ten percent on top, and less than one DGB more. */
  lemma DispenseClearsFloor(targetDdCents: int, price: int)
    ensures var quote := Builders.RequiredCollateralSats(targetDdCents, "6months", price, 10_000);
            var amount := DispenseSats(targetDdCents, price);
            && (amount.Ok? <==> quote.Ok?)
            && (amount.Ok? ==>
                  && amount.value % 100_000_000 == 0 && amount.value >= quote.value
                  && quote.value * 110 / 100 <= amount.value < quote.value * 110 / 100 + 100_000_000)
  {
    if Builders.RequiredCollateralSats(targetDdCents, "6months", price, 10_000).Ok? {
      FloorIsCleared(targetDdCents, price);
    }
  }

  lemma FloorIsCleared(targetDdCents: int, price: int)
    requires Builders.RequiredCollateralSats(targetDdCents, "6months", price, 10_000).Ok?
    ensures var floor := Builders.RequiredCollateralSats(targetDdCents, "6months", price, 10_000).value;
            var amount := DispenseSats(targetDdCents, price);
            && amount.Ok? && amount.value % 100_000_000 == 0 && amount.value >= floor
            && floor * 110 / 100 <= amount.value < floor * 110 / 100 + 100_000_000
  {
    FloorIsPositive(targetDdCents, price);
    var floor := Builders.RequiredCollateralSats(targetDdCents, "6months", price, 10_000).value;
    RoundUp(floor * 110 / 100, Builders.COIN);
  }

  lemma RoundUp(x: nat, c: nat)
    requires c > 0
    ensures (x + c - 1) / c * c % c == 0 && x <= (x + c - 1) / c * c < x + c
  {
    var q, r := (x + c - 1) / c, (x + c - 1) % c;
    assert x + c - 1 == q * c + r;
    DivModUnique(c, q * c / c, q * c % c, q, 0);
  }
}
