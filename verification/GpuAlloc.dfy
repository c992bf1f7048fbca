/**
 GPU reservations of the node agent (node-agent/src/deployments.ts, node-agent/src/workstation.ts): starts, stops,
 purges and refusals of deployments, each suspended at its awaits while others run.
 */
module GpuAlloc {
  import opened Wrappers

  // ---- Picking devices ----

  datatype Tier = Standard | Large | H100
  const LARGE_MIN_VRAM_GB: int := 39

  /** A GPU of the node; `h100Class` is whether its name is of the H100 class. */
  datatype Gpu = Gpu(h100Class: bool, vramGb: int)

  function TierOf(g: Gpu): Tier {
    if g.h100Class then H100 else if g.vramGb >= LARGE_MIN_VRAM_GB then Large else Standard
  }

  function RequestTier(cls: Option<string>): Tier {
    if cls == Some("large") || cls == Some("datacenter") then Large else if cls == Some("h100") then H100 else Standard
  }

  /** The node's GPUs: how many, or which. */
  datatype Node = Count(n: nat) | List(gpus: seq<Gpu>)

  datatype Want = Want(count: int, minVramGb: int, cls: Option<string>)

  function Total(node: Node): nat { if node.Count? then node.n else |node.gpus| }

  predicate Fits(node: Node, want: Want, i: nat)
    requires i < Total(node)
  {
    node.Count? || (node.gpus[i].vramGb >= want.minVramGb && TierOf(node.gpus[i]) == RequestTier(want.cls))
  }

  predicate Usable(node: Node, want: Want, used: set<nat>, i: nat) {
    i < Total(node) && i !in used && Fits(node, want, i)
  }

  predicate StrictlyAscending(s: seq<nat>) { forall j, k :: 0 <= j < k < |s| ==> s[j] < s[k] }

  /** Usable devices below `n`, lowest first. */
  function Free(node: Node, want: Want, used: set<nat>, n: nat): seq<nat> {
    if n == 0 then [] else Free(node, want, used, n - 1) + if Usable(node, want, used, n - 1) then [n - 1] else []
  }

  lemma {:induction false} FreeIsUsable(node: Node, want: Want, used: set<nat>, n: nat)
    ensures StrictlyAscending(Free(node, want, used, n))
    ensures forall i: nat :: i in Free(node, want, used, n) <==> i < n && Usable(node, want, used, i)
  {
    if n > 0 {
      FreeIsUsable(node, want, used, n - 1);
      var before := Free(node, want, used, n - 1);
      assert forall j :: 0 <= j < |before| ==> before[j] in before;
    }
  }

  lemma {:induction false} FreePrefix(node: Node, want: Want, used: set<nat>, m: nat, n: nat)
    requires m <= n
    ensures Free(node, want, used, m) <= Free(node, want, used, n)
  {
    if m < n { FreePrefix(node, want, used, m, n - 1); }
  }

  /** What a request gets: the lowest devices that fit, or nothing where the source throws. */
  function Choice(node: Node, want: Want, used: set<nat>): Option<seq<nat>> {
    var free := Free(node, want, used, Total(node));
    if want.count <= 0 then Some([]) else if |free| < want.count then None else Some(free[..want.count])
  }

  method PickGpus(node: Node, want: Want, used: set<nat>) returns (r: Option<seq<nat>>)
    ensures r == Choice(node, want, used)
  {
    if want.count <= 0 { return Some([]); }
    var total := Total(node);
    if total < 1 { return None; }
    var free: seq<nat> := [];
    var i: nat := 0;
    while i < total && |free| < want.count
      invariant i <= total && |free| <= want.count
      invariant free == Free(node, want, used, i)
    {
      if i !in used && Fits(node, want, i) { free := free + [i]; }
      i := i + 1;
    }
    FreePrefix(node, want, used, i, total);
    if |free| < want.count { return None; }
    assert Free(node, want, used, total)[..|free|] == free;
    return Some(free);
  }

  lemma LowerComesFirst(s: seq<nat>, n: nat, i: nat, k: nat)
    requires StrictlyAscending(s) && i in s && k < n <= |s| && i < s[k]
    ensures i in s[..n]
  {
    var j :| 0 <= j < |s| && s[j] == i;
    assert j <= k;
    assert s[..n][j] == i;
  }

  /** On a node with a GPU list: enough memory, and of the class asked for. */
  predicate Qualifies(g: Gpu, want: Want) {
    && g.vramGb >= want.minVramGb
    && (if want.cls == Some("h100") then g.h100Class
        else if want.cls == Some("large") || want.cls == Some("datacenter") then !g.h100Class && g.vramGb >= 39
        else !g.h100Class && g.vramGb < 39)
  }

  /** Free, and on a node with a GPU list qualified. */
  predicate FreeFor(node: Node, want: Want, used: set<nat>, i: nat) {
    i !in used && match node case Count(n) => i < n case List(gpus) => i < |gpus| && Qualifies(gpus[i], want)
  }

  lemma UsableIs(node: Node, want: Want, used: set<nat>, i: nat)
    ensures Usable(node, want, used, i) <==> FreeFor(node, want, used, i)
  {
    TierIs(want);
  }

  lemma TierIs(want: Want)
    ensures RequestTier(want.cls).H100? <==> want.cls == Some("h100")
    ensures RequestTier(want.cls).Large? <==> want.cls == Some("large") || want.cls == Some("datacenter")
  {
    assert "h100"[0] == 'h' && "large"[0] == 'l' && "datacenter"[0] == 'd';
  }

  /**
   A choice has the requested count, only free devices of the requested class and memory, each once, and no usable one
   that is lower is left out.
   */
  lemma ChoiceIsLowest(node: Node, want: Want, used: set<nat>, gpus: seq<nat>)
    requires Choice(node, want, used) == Some(gpus)
    ensures |gpus| == if want.count <= 0 then 0 else want.count
    ensures StrictlyAscending(gpus) && forall g :: g in gpus ==> FreeFor(node, want, used, g)
    ensures forall g, i: nat :: g in gpus && i < g && FreeFor(node, want, used, i) ==> i in gpus
  {
    var free := Free(node, want, used, Total(node));
    FreeIsUsable(node, want, used, Total(node));
    forall g, i: nat | g in gpus && i < g && FreeFor(node, want, used, i) ensures i in gpus {
      UsableIs(node, want, used, i);
      var k :| 0 <= k < |gpus| && gpus[k] == g;
      LowerComesFirst(free, |gpus|, i, k);
    }
    forall g | g in gpus ensures FreeFor(node, want, used, g) {
      assert g in free;
      UsableIs(node, want, used, g);
    }
  }

  lemma {:induction false} CountFree(s: seq<nat>, of: set<nat>)
    requires StrictlyAscending(s) && forall i :: i in s <==> i in of
    ensures |s| == |of|
  {
    if s == [] {
      assert of == {};
    } else {
      var n := |s| - 1;
      assert forall i :: i in s[..n] ==> i < s[n];
      assert s == s[..n] + [s[n]];
      CountFree(s[..n], of - {s[n]});
    }
  }

  /** A request is refused exactly when fewer devices than asked for are free and qualified. */
  lemma ChoiceFailsIff(node: Node, want: Want, used: set<nat>, of: set<nat>)
    requires forall i: nat :: i in of <==> FreeFor(node, want, used, i)
    ensures Choice(node, want, used).None? <==> |of| < want.count
  {
    var free := Free(node, want, used, Total(node));
    FreeIsUsable(node, want, used, Total(node));
    forall i: nat ensures i in free <==> i in of { UsableIs(node, want, used, i); }
    CountFree(free, of);
  }

  // ---- The manager ----

  type Id = string
  datatype Kind = Static | Container | Workstation

  function HasGpus(kind: Kind): bool { kind.Container? || kind.Workstation? }

  /** A running deployment. */
  datatype Record = Record(kind: Kind, gpus: seq<nat>)

  /** The one command at work on an id, by the await it is suspended at. */
  datatype Task =
    | Checking(kind: Kind, want: Want) // before the reservation
    | Launching(kind: Kind, gpus: seq<nat>) // ports, docker run, health
    | Cleaning(kind: Kind) // a start that failed or was stopped
    | Stopping(kind: Kind)
    | Purging
    | Stopped // the reservation is released, the record not yet
    | Ending // reports and volumes

  /**
   `refusing`: the deployment whose running report was refused and whose cleanup is suspended; one flush runs at a time.
   */
  datatype State = State(
    alloc: map<Id, seq<nat>>, records: map<Id, Record>, tasks: map<Id, Task>, refusing: Option<(Id, Kind)>)

  function Used(alloc: map<Id, seq<nat>>): set<nat> { set id, g | id in alloc && g in alloc[id] :: g }

  datatype Event =
    | Start(id: Id, kind: Kind, want: Want) | Stop(id: Id, kind: Kind) | Purge(id: Id)
    // the part of a start up to its first await after the hardening check; it may throw before or after reserving
    | Reserve(id: Id, early: bool, late: bool)
    | Launched(id: Id, ok: bool) | Cleaned(id: Id) | Released(id: Id) | Ended(id: Id)
    | Refuse(id: Id) | RefusalCleaned

  function Step(node: Node, s: State, e: Event): State {
    match e
    case Start(id, kind, want) =>
      if id in s.tasks then s
      else s.(tasks := s.tasks[id := if id in s.records then Ending else Checking(kind, want)])
    case Stop(id, kind) =>
      if id in s.tasks then s
      else s.(tasks := s.tasks[id := Stopping(if id in s.records then s.records[id].kind else kind)])
    case Purge(id) => if id in s.tasks then s else s.(tasks := s.tasks[id := Purging])
    case Reserve(id, early, late) =>
      if id !in s.tasks || !s.tasks[id].Checking? then s
      else Reserved(node, s, id, s.tasks[id].kind, s.tasks[id].want, early, late)
    case Launched(id, ok) =>
      if id !in s.tasks || !s.tasks[id].Launching? then s
      else if ok then
        s.(records := s.records[id := Record(s.tasks[id].kind, s.tasks[id].gpus)], tasks := s.tasks[id := Ending])
      else s.(tasks := s.tasks[id := Cleaning(s.tasks[id].kind)])
    case Cleaned(id) =>
      if id !in s.tasks then s
      else if s.tasks[id].Cleaning? then Release(s, id, s.tasks[id].kind).(tasks := s.tasks[id := Ending])
      else if s.tasks[id].Stopping? then Release(s, id, s.tasks[id].kind).(tasks := s.tasks[id := Stopped])
      else if s.tasks[id].Purging? then
        s.(alloc := s.alloc - {id}, records := s.records - {id}, tasks := s.tasks[id := Ending])
      else s
    case Released(id) =>
      if id !in s.tasks || !s.tasks[id].Stopped? then s
      else s.(records := s.records - {id}, tasks := s.tasks[id := Ending])
    case Ended(id) => if id in s.tasks && s.tasks[id].Ending? then s.(tasks := s.tasks - {id}) else s
    case Refuse(id) =>
      if id !in s.records || s.refusing.Some? then s
      else s.(records := s.records - {id}, refusing := Some((id, s.records[id].kind)))
    case RefusalCleaned =>
      if s.refusing.None? then s
      else Release(s, s.refusing.value.0, s.refusing.value.1).(refusing := None)
  }

  /** Cleanup releases the reservation of a container or workstation. */
  function Release(s: State, id: Id, kind: Kind): State { if HasGpus(kind) then s.(alloc := s.alloc - {id}) else s }

  /** From the hardening check to the next await: the reservation is made before anything else can run. */
  function Reserved(node: Node, s: State, id: Id, kind: Kind, want: Want, early: bool, late: bool): State {
    if early then s.(tasks := s.tasks[id := Cleaning(kind)])
    else if kind.Static? then s.(tasks := s.tasks[id := if late then Cleaning(kind) else Launching(kind, [])])
    else
      var gpus := Choice(node, want, Used(s.alloc));
      if gpus.None? then s.(tasks := s.tasks[id := Cleaning(kind)])
      else s.(alloc := if kind.Container? && gpus.value == [] then s.alloc else s.alloc[id := gpus.value],
              tasks := s.tasks[id := if late then Cleaning(kind) else Launching(kind, gpus.value)])
  }

  ghost function Run(node: Node, boot: State, events: seq<Event>): State {
    if events == [] then boot else Step(node, Run(node, boot, events[..|events| - 1]), events[|events| - 1])
  }

  // ---- Invariants of every interleaving ----

  ghost predicate Disjoint(alloc: map<Id, seq<nat>>) {
    forall a, b, g :: a in alloc && b in alloc && a != b && g in alloc[a] ==> g !in alloc[b]
  }

  /** The command at work on `id`, `Ending` where there is none. */
  function TaskOf(s: State, id: Id): Task { if id in s.tasks then s.tasks[id] else Ending }

  ghost predicate RecordOwns(s: State, id: Id) {
    id in s.records && HasGpus(s.records[id].kind) && !TaskOf(s, id).Stopped?
  }

  ghost predicate StartOwns(s: State, id: Id) {
    var t := TaskOf(s, id); (t.Launching? || t.Cleaning?) && HasGpus(t.kind)
  }

  ghost predicate RefusalOwns(s: State, id: Id) {
    s.refusing.Some? && s.refusing.value.0 == id && HasGpus(s.refusing.value.1)
  }

  /** A reservation belongs to a start at work, a running deployment, or a refusal under way. */
  ghost predicate Owned(s: State) {
    forall id :: id in s.alloc ==> RecordOwns(s, id) || StartOwns(s, id) || RefusalOwns(s, id)
  }

  /** A start works on an id with no record, a stop on the record's kind. */
  ghost predicate TaskOk(s: State, id: Id) {
    && (TaskOf(s, id).Checking? || TaskOf(s, id).Launching? || TaskOf(s, id).Cleaning? ==> id !in s.records)
    && (TaskOf(s, id).Stopping? && id in s.records ==> TaskOf(s, id).kind == s.records[id].kind)
  }

  ghost predicate Inv(s: State) { Disjoint(s.alloc) && Owned(s) && forall id :: TaskOk(s, id) }

  lemma ReserveKeepsDisjoint(node: Node, alloc: map<Id, seq<nat>>, id: Id, want: Want, gpus: seq<nat>)
    requires Disjoint(alloc) && Choice(node, want, Used(alloc)) == Some(gpus)
    ensures Disjoint(alloc[id := gpus])
  {
    ChoiceIsLowest(node, want, Used(alloc), gpus);
    forall a, g | a in alloc && g in gpus ensures g !in alloc[a] { assert g !in Used(alloc); }
  }

  /** A step that concerns one id: nothing else changes hands. */
  ghost predicate Only(s: State, t: State, id: Id) {
    && (forall x :: x != id ==>
      TaskOf(t, x) == TaskOf(s, x) && (x in t.records <==> x in s.records)
      && (x in s.records ==> t.records[x] == s.records[x]))
    && (forall x :: x in t.alloc && x != id ==> x in s.alloc && t.alloc[x] == s.alloc[x])
    && forall x :: x != id ==> RefusalOwns(s, x) == RefusalOwns(t, x)
  }

  lemma OnlyKeeps(s: State, t: State, id: Id)
    requires Inv(s) && Only(s, t, id) && Disjoint(t.alloc) && TaskOk(t, id)
    requires id in t.alloc ==> RecordOwns(t, id) || StartOwns(t, id) || RefusalOwns(t, id)
    ensures Inv(t)
  {
    forall x | x in t.alloc && x != id ensures RecordOwns(t, x) || StartOwns(t, x) || RefusalOwns(t, x) {
      assert TaskOf(t, x) == TaskOf(s, x);
      assert RecordOwns(s, x) || StartOwns(s, x) || RefusalOwns(s, x);
    }
    forall x ensures TaskOk(t, x) { if x != id { assert TaskOk(s, x) && TaskOf(t, x) == TaskOf(s, x); } }
  }

  lemma CommandKeeps(node: Node, s: State, e: Event)
    requires Inv(s) && (e.Start? || e.Stop? || e.Purge?)
    ensures Inv(Step(node, s, e))
  {
    var t := Step(node, s, e);
    assert TaskOk(s, e.id);
    OnlyKeeps(s, t, e.id);
  }

  lemma ReserveKeeps(node: Node, s: State, id: Id, early: bool, late: bool)
    requires Inv(s) && TaskOf(s, id).Checking?
    ensures Inv(Reserved(node, s, id, TaskOf(s, id).kind, TaskOf(s, id).want, early, late))
  {
    var want := TaskOf(s, id).want;
    var gpus := Choice(node, want, Used(s.alloc));
    if gpus.Some? { ReserveKeepsDisjoint(node, s.alloc, id, want, gpus.value); }
    assert TaskOk(s, id);
    OnlyKeeps(s, Reserved(node, s, id, TaskOf(s, id).kind, want, early, late), id);
  }

  /** A command moves on, or ends, with its reservation where it was. */
  lemma MoveKeeps(s: State, t: State, id: Id)
    requires Inv(s) && id in s.tasks && t.alloc == s.alloc && t.refusing == s.refusing && t.records == s.records
    requires t.tasks == s.tasks - {id} || (id in t.tasks && t.tasks == s.tasks[id := t.tasks[id]])
    requires (s.tasks[id].Launching? && TaskOf(t, id) == Cleaning(s.tasks[id].kind))
      || (s.tasks[id].Ending? && TaskOf(t, id).Ending?)
    ensures Inv(t)
  {
    assert TaskOk(s, id);
    OnlyKeeps(s, t, id);
  }

  lemma LaunchedKeeps(s: State, t: State, id: Id)
    requires Inv(s) && id in s.tasks && s.tasks[id].Launching?
    requires t == s.(records := s.records[id := Record(s.tasks[id].kind, s.tasks[id].gpus)],
      tasks := s.tasks[id := Ending])
    ensures Inv(t)
  {
    assert TaskOk(s, id);
    OnlyKeeps(s, t, id);
  }

  /** A teardown releases the reservation, and may drop the record. */
  lemma ReleaseKeeps(s: State, t: State, id: Id)
    requires Inv(s) && (t.alloc == s.alloc || t.alloc == s.alloc - {id})
      && (t.records == s.records || t.records == s.records - {id})
    requires id in t.tasks && t.tasks == s.tasks[id := t.tasks[id]] && (t.tasks[id].Ending? || t.tasks[id].Stopped?)
      && t.refusing == s.refusing
    requires id in t.alloc ==> RefusalOwns(t, id)
    ensures Inv(t)
  {
    OnlyKeeps(s, t, id);
  }

  lemma CleanedKeeps(node: Node, s: State, id: Id)
    requires Inv(s)
    ensures Inv(Step(node, s, Cleaned(id)))
  {
    assert TaskOk(s, id);
    if id in s.tasks && (s.tasks[id].Cleaning? || s.tasks[id].Stopping? || s.tasks[id].Purging?) {
      ReleaseKeeps(s, Step(node, s, Cleaned(id)), id);
    }
  }

  lemma TaskKeeps(node: Node, s: State, e: Event)
    requires Inv(s) && (e.Launched? || e.Cleaned? || e.Released? || e.Ended?)
    ensures Inv(Step(node, s, e))
  {
    var t := Step(node, s, e);
    if e.Cleaned? { CleanedKeeps(node, s, e.id); }
    else if t != s && e.Launched? { if e.ok { LaunchedKeeps(s, t, e.id); } else { MoveKeeps(s, t, e.id); } }
    else if t != s && e.Released? { ReleaseKeeps(s, t, e.id); }
    else if t != s { MoveKeeps(s, t, e.id); }
  }

  lemma RefuseKeeps(s: State, t: State, id: Id)
    requires Inv(s) && id in s.records && s.refusing.None?
      && t == s.(records := s.records - {id}, refusing := Some((id, s.records[id].kind)))
    ensures Inv(t)
  {
    assert TaskOk(s, id);
    OnlyKeeps(s, t, id);
  }

  lemma RefusalCleanedKeeps(s: State, t: State, id: Id, kind: Kind)
    requires Inv(s) && s.refusing == Some((id, kind)) && t == Release(s, id, kind).(refusing := None)
    ensures Inv(t)
  {
    assert TaskOk(s, id);
    OnlyKeeps(s, t, id);
  }

  lemma RefusalKeeps(node: Node, s: State, e: Event)
    requires Inv(s) && (e.Refuse? || e.RefusalCleaned?)
    ensures Inv(Step(node, s, e))
  {
    if e.Refuse? && e.id in s.records && s.refusing.None? { RefuseKeeps(s, Step(node, s, e), e.id); }
    else if e.RefusalCleaned? && s.refusing.Some? {
      RefusalCleanedKeeps(s, Step(node, s, e), s.refusing.value.0, s.refusing.value.1);
    }
  }

  lemma StepKeeps(node: Node, s: State, e: Event)
    requires Inv(s)
    ensures Inv(Step(node, s, e))
  {
    if e.Reserve? {
      if TaskOf(s, e.id).Checking? { ReserveKeeps(node, s, e.id, e.early, e.late); }
    }
    else if e.Start? || e.Stop? || e.Purge? { CommandKeeps(node, s, e); }
    else if e.Refuse? || e.RefusalCleaned? { RefusalKeeps(node, s, e); }
    else { TaskKeeps(node, s, e); }
  }

  lemma {:induction false} RunKeeps(node: Node, boot: State, events: seq<Event>)
    requires Inv(boot)
    ensures Inv(Run(node, boot, events))
  {
    if events != [] {
      RunKeeps(node, boot, events[..|events| - 1]);
      StepKeeps(node, Run(node, boot, events[..|events| - 1]), events[|events| - 1]);
    }
  }

  /**
   In every interleaving the reservations are pairwise disjoint, and an id with no record, no start at work and no
   refusal under way (a start that failed or was stopped, once it ends) has none.
   */
  lemma ReservationsDisjoint(node: Node, boot: State, events: seq<Event>)
    requires Inv(boot)
    ensures Disjoint(Run(node, boot, events).alloc)
    ensures var s := Run(node, boot, events);
      forall id :: id !in s.records && id !in s.tasks && (s.refusing.None? || s.refusing.value.0 != id) ==>
        id !in s.alloc
  {
    RunKeeps(node, boot, events);
  }

  // ---- The devices in use ----

  /** Devices a starting or running deployment uses. */
  function Devices(s: State, id: Id): seq<nat> {
    if TaskOf(s, id).Launching? then TaskOf(s, id).gpus
    else if id in s.records && !TaskOf(s, id).Stopped? then s.records[id].gpus else []
  }

  /** Whatever a deployment uses is reserved for it. */
  ghost predicate Held(s: State) {
    forall id :: Devices(s, id) != [] ==> id in s.alloc && s.alloc[id] == Devices(s, id)
  }

  ghost predicate NoSharing(s: State) { forall a, b, g :: a != b && g in Devices(s, a) ==> g !in Devices(s, b) }

  lemma HeldIsNotShared(s: State)
    requires Disjoint(s.alloc) && Held(s)
    ensures NoSharing(s)
  {
    forall a, b, g | a != b && g in Devices(s, a) ensures g !in Devices(s, b) { assert Devices(s, a) != []; }
  }

  lemma HeldElsewhere(s: State, t: State, id: Id)
    requires Held(s) && (Devices(t, id) != [] ==> id in t.alloc && t.alloc[id] == Devices(t, id))
    requires forall x :: x != id ==>
      Devices(t, x) == Devices(s, x) && (x in s.alloc ==> x in t.alloc && t.alloc[x] == s.alloc[x])
    ensures Held(t)
  {
    forall x | Devices(t, x) != [] ensures x in t.alloc && t.alloc[x] == Devices(t, x) {
      if x != id { assert Devices(t, x) == Devices(s, x); }
    }
  }

  /** The id an event is about, if it does anything. */
  function Subject(s: State, e: Event): Id {
    if e.RefusalCleaned? then (if s.refusing.Some? then s.refusing.value.0 else "") else e.id
  }

  lemma StepElsewhere(node: Node, s: State, e: Event, x: Id)
    requires x != Subject(s, e)
    ensures var t := Step(node, s, e);
      Devices(t, x) == Devices(s, x) && (x in s.alloc ==> x in t.alloc && t.alloc[x] == s.alloc[x])
  {
  }

  /** Whatever `id` uses is reserved for it. */
  ghost predicate HeldBy(s: State, id: Id) {
    Devices(s, id) != [] ==> id in s.alloc && s.alloc[id] == Devices(s, id)
  }

  lemma CommandHere(node: Node, s: State, e: Event)
    requires Inv(s) && Held(s) && (e.Start? || e.Stop? || e.Purge?)
    ensures HeldBy(Step(node, s, e), e.id)
  {
    assert HeldBy(s, e.id);
  }

  lemma ReserveHere(node: Node, s: State, id: Id, early: bool, late: bool)
    requires Inv(s) && Held(s) && TaskOf(s, id).Checking?
    ensures HeldBy(Reserved(node, s, id, TaskOf(s, id).kind, TaskOf(s, id).want, early, late), id)
  {
    assert TaskOk(s, id) && HeldBy(s, id);
  }

  lemma TaskHere(node: Node, s: State, e: Event)
    requires Inv(s) && Held(s) && (e.Launched? || e.Cleaned? || e.Released? || e.Ended? || e.Refuse?)
    ensures HeldBy(Step(node, s, e), e.id)
  {
    assert TaskOk(s, e.id) && HeldBy(s, e.id);
  }

  /** When the teardown of a refused deployment ends, no newer start of the same id uses a device. */
  predicate Spares(s: State, e: Event) {
    e.RefusalCleaned? && s.refusing.Some? ==> !HasGpus(s.refusing.value.1) || Devices(s, s.refusing.value.0) == []
  }

  lemma RefusalHere(node: Node, s: State)
    requires Inv(s) && Held(s)
    ensures HeldBy(Step(node, s, RefusalCleaned), Subject(s, RefusalCleaned)) <==> Spares(s, RefusalCleaned)
  {
    var id := Subject(s, RefusalCleaned);
    assert HeldBy(s, id) && Devices(Step(node, s, RefusalCleaned), id) == Devices(s, id);
  }

  lemma StepHere(node: Node, s: State, e: Event)
    requires Inv(s) && Held(s)
    ensures HeldBy(Step(node, s, e), Subject(s, e)) <==> Spares(s, e)
  {
    if e.RefusalCleaned? { RefusalHere(node, s); }
    else if e.Start? || e.Stop? || e.Purge? { CommandHere(node, s, e); }
    else if e.Reserve? {
      if TaskOf(s, e.id).Checking? { ReserveHere(node, s, e.id, e.early, e.late); } else { assert HeldBy(s, e.id); }
    }
    else { TaskHere(node, s, e); }
  }

  /**
   Of all events only the end of a refusal can take a reservation in use away, and it does so exactly when it does not
   spare it.
   */
  lemma StepHeldIff(node: Node, s: State, e: Event)
    requires Inv(s) && Held(s)
    ensures Held(Step(node, s, e)) <==> Spares(s, e)
  {
    var t, id := Step(node, s, e), Subject(s, e);
    StepHere(node, s, e);
    if Spares(s, e) {
      forall x | x != id
        ensures Devices(t, x) == Devices(s, x) && (x in s.alloc ==> x in t.alloc && t.alloc[x] == s.alloc[x])
      {
        StepElsewhere(node, s, e, x);
      }
      HeldElsewhere(s, t, id);
    }
  }

  /** Every step of a run spares the reservations in use. */
  ghost predicate SparingRun(node: Node, boot: State, events: seq<Event>) {
    forall n :: 0 <= n < |events| ==> Spares(Run(node, boot, events[..n]), events[n])
  }

  /** In every state of a run, whatever a deployment uses is reserved for it. */
  ghost predicate AlwaysHeld(node: Node, boot: State, events: seq<Event>) {
    forall n :: 0 <= n <= |events| ==> Held(Run(node, boot, events[..n]))
  }

  lemma RunNext(node: Node, boot: State, events: seq<Event>, n: nat)
    requires n < |events|
    ensures Run(node, boot, events[..n + 1]) == Step(node, Run(node, boot, events[..n]), events[n])
  {
    assert events[..n + 1][..n] == events[..n];
  }

  lemma {:induction false} SparedSoFar(node: Node, boot: State, events: seq<Event>, n: nat)
    requires Inv(boot) && Held(boot) && n <= |events| && SparingRun(node, boot, events)
    ensures Held(Run(node, boot, events[..n]))
  {
    if n > 0 {
      SparedSoFar(node, boot, events, n - 1);
      RunKeeps(node, boot, events[..n - 1]);
      StepHeldIff(node, Run(node, boot, events[..n - 1]), events[n - 1]);
      RunNext(node, boot, events, n - 1);
    }
  }

  /**
   From a boot state in which every device in use is reserved, all of a run keeps it so exactly when no refusal ends
   while a newer start of its id uses devices; and then no two deployments ever share a device.
   */
  lemma HeldIffSparing(node: Node, boot: State, events: seq<Event>)
    requires Inv(boot) && Held(boot)
    ensures AlwaysHeld(node, boot, events) <==> SparingRun(node, boot, events)
    ensures AlwaysHeld(node, boot, events) ==> forall n :: 0 <= n <= |events| ==>
      NoSharing(Run(node, boot, events[..n]))
  {
    if SparingRun(node, boot, events) {
      forall n: nat | n <= |events| ensures Held(Run(node, boot, events[..n])) { SparedSoFar(node, boot, events, n); }
    }
    if AlwaysHeld(node, boot, events) {
      forall n: nat | n < |events| ensures Spares(Run(node, boot, events[..n]), events[n]) {
        RunKeeps(node, boot, events[..n]);
        RunNext(node, boot, events, n);
        assert Held(Run(node, boot, events[..n])) && Held(Run(node, boot, events[..n + 1]));
        StepHeldIff(node, Run(node, boot, events[..n]), events[n]);
      }
      forall n: nat | n <= |events| ensures NoSharing(Run(node, boot, events[..n])) {
        RunKeeps(node, boot, events[..n]);
        assert Held(Run(node, boot, events[..n]));
        HeldIsNotShared(Run(node, boot, events[..n]));
      }
    }
  }

  // ---- A run in which a refusal ends too late, and two deployments share a device ----

  lemma {:induction false} RunConcat(node: Node, s: State, a: seq<Event>, b: seq<Event>)
    ensures Run(node, s, a + b) == Run(node, Run(node, s, a), b)
  {
    if b == [] {
      assert a + b == a;
    } else {
      var n := |b| - 1;
      RunConcat(node, s, a, b[..n]);
      assert (a + b)[..|a + b| - 1] == a + b[..n];
    }
  }

  lemma RunOne(node: Node, s: State, e: Event)
    ensures Run(node, s, [e]) == Step(node, s, e)
  {
    assert [e][..0] == [];
  }

  const OneGpu: Want := Want(1, 0, None)

  /** A container start that goes well. */
  function Deployment(id: Id): seq<Event> {
    [Start(id, Container, OneGpu)] + [Reserve(id, false, false)] + [Launched(id, true)] + [Ended(id)]
  }

  lemma Deploys(node: Node, s: State, id: Id, gpus: seq<nat>)
    requires id !in s.tasks && id !in s.records && gpus != [] && Choice(node, OneGpu, Used(s.alloc)) == Some(gpus)
    ensures Run(node, s, Deployment(id))
      == s.(alloc := s.alloc[id := gpus], records := s.records[id := Record(Container, gpus)])
  {
    var a := Step(node, s, Start(id, Container, OneGpu));
    var b := Step(node, a, Reserve(id, false, false));
    var c := Step(node, b, Launched(id, true));
    RunOne(node, s, Start(id, Container, OneGpu));
    RunOne(node, a, Reserve(id, false, false));
    RunOne(node, b, Launched(id, true));
    RunOne(node, c, Ended(id));
    RunConcat(node, s, [Start(id, Container, OneGpu)], [Reserve(id, false, false)]);
    RunConcat(node, s, [Start(id, Container, OneGpu)] + [Reserve(id, false, false)], [Launched(id, true)]);
    RunConcat(node, s, [Start(id, Container, OneGpu)] + [Reserve(id, false, false)] + [Launched(id, true)],
      [Ended(id)]);
    assert s.tasks[id := Ending] - {id} == s.tasks;
  }

  lemma OneOfTwo(used: set<nat>)
    ensures 0 !in used ==> Choice(Count(2), OneGpu, used) == Some([0])
    ensures 0 in used && 1 !in used ==> Choice(Count(2), OneGpu, used) == Some([1])
  {
    assert Free(Count(2), OneGpu, used, 0) == [];
    assert Free(Count(2), OneGpu, used, 1) == if 0 in used then [] else [0];
    var free := Free(Count(2), OneGpu, used, 2);
    assert free == Free(Count(2), OneGpu, used, 1) + if 1 in used then [] else [1];
    assert 0 !in used ==> free[..1] == [0];
    assert 0 in used && 1 !in used ==> free[..1] == [1];
  }

  lemma UsedByOne(id: Id, g: nat)
    ensures Used(map[id := [g]]) == {g}
  {
    assert g in map[id := [g]][id];
  }

  const Empty: State := State(map[], map[], map[], None)

  /** `a` runs and is refused. */
  lemma Refused()
    ensures Run(Count(2), Empty, Deployment("a") + [Refuse("a")])
      == State(map["a" := [0]], map[], map[], Some(("a", Container)))
  {
    var s := State(map["a" := [0]], map["a" := Record(Container, [0])], map[], None);
    OneOfTwo(Used(Empty.alloc));
    Deploys(Count(2), Empty, "a", [0]);
    RunOne(Count(2), s, Refuse("a"));
    assert s.records - {"a"} == map[];
    RunConcat(Count(2), Empty, Deployment("a"), [Refuse("a")]);
  }

  /** A start that has reserved when the refusal's cleanup ends, and launches after it. */
  function Restart(id: Id): seq<Event> {
    [Start(id, Container, OneGpu)] + [Reserve(id, false, false)] + [RefusalCleaned] + [Launched(id, true)] + [Ended(id)]
  }

  lemma RunFive(node: Node, s: State, a: Event, b: Event, c: Event, d: Event, e: Event)
    ensures Run(node, s, [a] + [b] + [c] + [d] + [e])
      == Step(node, Step(node, Step(node, Step(node, Step(node, s, a), b), c), d), e)
  {
    RunConcat(node, s, [a] + [b] + [c] + [d], [e]);
    RunConcat(node, s, [a] + [b] + [c], [d]);
    RunConcat(node, s, [a] + [b], [c]);
    RunConcat(node, s, [a], [b]);
    forall t: State, x: Event ensures Run(node, t, [x]) == Step(node, t, x) { RunOne(node, t, x); }
  }

  /** `a` is started again while the refusal is under way; the refusal then drops the new reservation. */
  lemma Restarted(s: State)
    requires s == State(map["a" := [0]], map[], map[], Some(("a", Container)))
    ensures Run(Count(2), s, Restart("a")) == State(map[], map["a" := Record(Container, [1])], map[], None)
  {
    UsedByOne("a", 0);
    OneOfTwo(Used(s.alloc));
    RunFive(Count(2), s, Start("a", Container, OneGpu), Reserve("a", false, false), RefusalCleaned, Launched("a", true),
      Ended("a"));
    var t := Step(Count(2), Step(Count(2), s, Start("a", Container, OneGpu)), Reserve("a", false, false));
    assert t == State(map["a" := [1]], map[], map["a" := Launching(Container, [1])], Some(("a", Container)));
    RestartEnds(t);
  }

  lemma RestartEnds(t: State)
    requires t == State(map["a" := [1]], map[], map["a" := Launching(Container, [1])], Some(("a", Container)))
    ensures Step(Count(2), Step(Count(2), Step(Count(2), t, RefusalCleaned), Launched("a", true)), Ended("a"))
      == State(map[], map["a" := Record(Container, [1])], map[], None)
  {
    assert t.alloc - {"a"} == map[];
    var u := Step(Count(2), t, RefusalCleaned);
    assert u.tasks["a" := Ending] - {"a"} == map[];
  }

  lemma TwoMore(s1: State)
    requires s1 == State(map[], map["a" := Record(Container, [1])], map[], None)
    ensures var s := Run(Count(2), s1, Deployment("b") + Deployment("c")); Devices(s, "a") == Devices(s, "c") == [1]
  {
    var node := Count(2);
    var s2 := State(map["b" := [0]], s1.records["b" := Record(Container, [0])], map[], None);
    OneOfTwo(Used(s1.alloc));
    Deploys(node, s1, "b", [0]);
    UsedByOne("b", 0);
    OneOfTwo(Used(s2.alloc));
    Deploys(node, s2, "c", [1]);
    RunConcat(node, s1, Deployment("b"), Deployment("c"));
  }

  /** Then two more starts: the second gets the device `a` is running on. */
  lemma RefusedRestartShares()
    ensures Inv(Empty) && Held(Empty) && exists events :: !NoSharing(Run(Count(2), Empty, events))
  {
    var refused, restarted := Deployment("a") + [Refuse("a")], Restart("a");
    var before := refused + restarted;
    Refused();
    Restarted(Run(Count(2), Empty, refused));
    RunConcat(Count(2), Empty, refused, restarted);
    TwoMore(Run(Count(2), Empty, before));
    RunConcat(Count(2), Empty, before, Deployment("b") + Deployment("c"));
    var events := before + (Deployment("b") + Deployment("c"));
    assert 1 in Devices(Run(Count(2), Empty, events), "a");
  }
}
