/**
 Admission of streams by the hub (relay/src/hub.ts): slots for visitors and for the orchestrator's probes, a cap
 per deployment, and stream ids that wrap around.
 */
module RelayHub {
  const MAX_STREAMS: int := 64
  const MAX_STREAMS_PER_DEP: int := 16
  const PROBE_SLOTS: int := 4
  /** The last id before `next` wraps around to 1. */
  const LAST_ID: int := 0xffff_fff0

  /** Open streams with their deployments, and which of them are probes. */
  datatype Slots = Slots(streams: map<nat, string>, probes: set<nat>)

  function Visitors(s: Slots): set<nat> { s.streams.Keys - s.probes }

  function OfDep(s: Slots, dep: string): set<nat> { set k | k in s.streams && s.streams[k] == dep }

  ghost predicate Ok(s: Slots) {
    && s.probes <= s.streams.Keys && |s.streams| <= MAX_STREAMS && |Visitors(s)| <= MAX_STREAMS - PROBE_SLOTS
    && forall dep :: |OfDep(s, dep) * Visitors(s)| <= MAX_STREAMS_PER_DEP
  }

  /** The hub answers `busy`. */
  predicate Busy(s: Slots, dep: string, probe: bool) {
    |s.streams| >= (if probe then MAX_STREAMS else MAX_STREAMS - PROBE_SLOTS)
      || (!probe && |OfDep(s, dep)| >= MAX_STREAMS_PER_DEP)
  }

  function Open(s: Slots, id: nat, dep: string, probe: bool): Slots {
    Slots(s.streams[id := dep], if probe then s.probes + {id} else s.probes)
  }

  function Close(s: Slots, id: nat): Slots { Slots(s.streams - {id}, s.probes - {id}) }

  lemma Fewer<T>(a: set<T>, b: set<T>)
    requires a <= b
    ensures |a| <= |b|
  {
    assert b == a + (b - a);
  }

  lemma KeysSize(s: Slots)
    ensures |s.streams| == |s.streams.Keys|
  {
  }

  lemma VisitorsWithin(s: Slots)
    ensures |Visitors(s)| <= |s.streams|
  {
    Fewer(Visitors(s), s.streams.Keys);
  }

  /** Visitors of a deployment after one more stream. */
  lemma OpenVisitors(s: Slots, id: nat, dep: string, probe: bool, d: string)
    requires id !in s.streams
    ensures var t := Open(s, id, dep, probe);
      && Visitors(t) <= Visitors(s) + (if probe then {} else {id})
      && OfDep(t, d) * Visitors(t) <= OfDep(s, d) * Visitors(s) + (if probe || d != dep then {} else {id})
  {
  }

  /** Admitting what is not busy keeps every cap. */
  lemma OpenKeeps(s: Slots, id: nat, dep: string, probe: bool)
    requires Ok(s) && id !in s.streams && !Busy(s, dep, probe)
    ensures Ok(Open(s, id, dep, probe))
  {
    var t := Open(s, id, dep, probe);
    KeysSize(s);
    KeysSize(t);
    assert t.streams.Keys == s.streams.Keys + {id};
    OpenVisitors(s, id, dep, probe, dep);
    VisitorsWithin(s);
    Fewer(Visitors(t), Visitors(s) + (if probe then {} else {id}));
    forall d ensures |OfDep(t, d) * Visitors(t)| <= MAX_STREAMS_PER_DEP {
      OpenVisitors(s, id, dep, probe, d);
      Fewer(OfDep(t, d) * Visitors(t), OfDep(s, d) * Visitors(s) + (if probe || d != dep then {} else {id}));
      Fewer(OfDep(s, d) * Visitors(s), OfDep(s, d));
    }
  }

  lemma CloseKeeps(s: Slots, id: nat)
    requires Ok(s)
    ensures Ok(Close(s, id))
  {
    var t := Close(s, id);
    KeysSize(s);
    KeysSize(t);
    Fewer(t.streams.Keys, s.streams.Keys);
    Fewer(Visitors(t), Visitors(s));
    forall d ensures |OfDep(t, d) * Visitors(t)| <= MAX_STREAMS_PER_DEP {
      Fewer(OfDep(t, d) * Visitors(t), OfDep(s, d) * Visitors(s));
    }
  }

  lemma CloseOpened(s: Slots, id: nat, dep: string, probe: bool)
    requires id !in s.streams && id !in s.probes
    ensures Close(Open(s, id, dep, probe), id) == s
  {
    assert s.streams[id := dep] - {id} == s.streams;
  }

  /** However much visitor traffic there is, a probe that finds fewer than four probes open is not refused as busy. */
  lemma ProbeIsNeverBusy(s: Slots, dep: string)
    requires Ok(s) && |s.probes| < PROBE_SLOTS
    ensures !Busy(s, dep, true)
  {
    KeysSize(s);
    assert s.streams.Keys == Visitors(s) + s.probes;
  }

  // ---- Stream ids ----

  /** The id tried `k` steps after `first`. */
  function IdAt(first: nat, k: nat): (id: nat)
    ensures 1 <= id <= LAST_ID
  {
    (first + k - 1) % LAST_ID + 1
  }

  function NextId(id: nat): nat { if id >= LAST_ID then 1 else id + 1 }

  lemma IdAtStep(first: nat, k: nat)
    requires 1 <= first <= LAST_ID
    ensures IdAt(first, 0) == first && NextId(IdAt(first, k)) == IdAt(first, k + 1)
  {
    var x := first + k - 1;
    if x % LAST_ID == LAST_ID - 1 { assert (x + 1) % LAST_ID == 0; } else {
      assert (x + 1) % LAST_ID == x % LAST_ID + 1;
    }
  }

  /** No id is tried twice before all have been. */
  lemma IdsDiffer(first: nat, j: nat, k: nat)
    requires 1 <= first <= LAST_ID && j < k < LAST_ID
    ensures IdAt(first, j) != IdAt(first, k)
  {
    var x, y := first + j - 1, first + k - 1;
    assert 0 < y - x < LAST_ID;
  }

  lemma CountStep(s: Slots, dep: string, left: set<nat>, k: nat)
    requires k in left && k in s.streams
    ensures OfDep(s, dep) - (left - {k}) == (OfDep(s, dep) - left) + if s.streams[k] == dep then {k} else {}
    ensures k !in OfDep(s, dep) - left
  {
  }

  datatype Answer = RefusedBusy | RefusedRequest | Opened(id: nat)

  class StreamHub {
    var streams: map<nat, string>
    var next: nat
    ghost var probes: set<nat>

    ghost function View(): Slots
      reads this
    {
      Slots(streams, probes)
    }

    /** At most 64 streams, at most 60 of them visitors', at most 16 visitor streams of any deployment. */
    ghost predicate Valid()
      reads this
    {
      Ok(View()) && 1 <= next <= LAST_ID && forall s :: s in streams ==> 1 <= s <= LAST_ID
    }

    constructor ()
      ensures Valid() && streams == map[]
    {
      streams, next, probes := map[], 1, {};
    }

    /** The next id not in use; with at most 64 streams open it is found within 65 tries. */
    method FreshId() returns (s: nat)
      requires Valid()
      modifies this`next
      ensures Valid() && s !in streams && 1 <= s <= 0xffff_fff0
    {
      ghost var first, tried: set<nat>, k := next, {}, 0;
      IdAtStep(first, 0);
      KeysSize(View());
      while true
        invariant Valid() && streams == old(streams) && next == IdAt(first, k)
        invariant tried <= streams.Keys && |tried| == k
        invariant forall x :: x in tried ==> exists j: nat :: j < k && x == IdAt(first, j)
        decreases |streams.Keys| - k
      {
        Fewer(tried, streams.Keys);
        s := next;
        IdAtStep(first, k);
        next := if next >= LAST_ID then 1 else next + 1;
        if s !in streams { return; }
        forall x | x in tried ensures x != s {
          var j: nat :| j < k && x == IdAt(first, j);
          IdsDiffer(first, j, k);
        }
        tried, k := tried + {s}, k + 1;
        Fewer(tried, streams.Keys);
      }
    }

    /** How many open streams belong to `dep`, probes included. */
    method CountDep(dep: string) returns (n: nat)
      requires Valid()
      ensures n == |OfDep(View(), dep)|
    {
      n := 0;
      var left := streams.Keys;
      ghost var counted: set<nat> := {};
      while left != {}
        invariant left <= streams.Keys && counted == OfDep(View(), dep) - left && n == |counted|
        decreases left
      {
        var k :| k in left;
        CountStep(View(), dep, left, k);
        if streams[k] == dep { n, counted := n + 1, counted + {k}; }
        left := left - {k};
      }
      assert OfDep(View(), dep) - {} == OfDep(View(), dep);
    }

    /** Refused as busy: too many streams, or for a visitor too many of its deployment. */
    method IsBusy(dep: string, probe: bool) returns (busy: bool)
      requires Valid()
      ensures busy <==> Busy(View(), dep, probe)
    {
      if |streams| >= (if probe then MAX_STREAMS else MAX_STREAMS - PROBE_SLOTS) { return true; }
      if probe { return false; }
      var ofDep := CountDep(dep);
      return ofDep >= MAX_STREAMS_PER_DEP;
    }

    method TakeSlot(dep: string, probe: bool) returns (s: nat)
      requires Valid() && !Busy(View(), dep, probe)
      modifies this
      ensures Valid() && s !in old(streams) && View() == Open(old(View()), s, dep, probe)
    {
      s := FreshId();
      OpenKeeps(View(), s, dep, probe);
      streams := streams[s := dep];
      probes := if probe then probes + {s} else probes;
    }

    /**
     The synchronous part of `proxy`: refuse as busy, refuse the request, or take a slot; a send that fails gives the
     slot back.
     */
    method Proxy(dep: string, probe: bool, wellFormed: bool, sent: bool) returns (r: Answer)
      requires Valid()
      modifies this
      ensures Valid()
      ensures r.RefusedBusy? <==> Busy(old(View()), dep, probe)
      ensures r.RefusedBusy? <==>
        if probe then |old(streams)| >= 64 else |old(streams)| >= 60 || |OfDep(old(View()), dep)| >= 16
      ensures !r.Opened? ==> View() == old(View())
      ensures r.Opened? <==> !Busy(old(View()), dep, probe) && wellFormed && sent
      ensures r.Opened? ==> r.id !in old(streams) && View() == Open(old(View()), r.id, dep, probe)
    {
      var busy := IsBusy(dep, probe);
      if busy { return RefusedBusy; }
      if !wellFormed { return RefusedRequest; }
      ghost var before := View();
      var s := TakeSlot(dep, probe);
      if !sent {
        CloseOpened(before, s, dep, probe);
        Forget(s);
        return RefusedRequest;
      }
      return Opened(s);
    }

    method Forget(s: nat)
      requires Valid()
      modifies this`streams, this`probes
      ensures Valid() && View() == Close(old(View()), s)
    {
      CloseKeeps(View(), s);
      streams := streams - {s};
      probes := probes - {s};
    }
  }
}
