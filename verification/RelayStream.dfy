/**
 One stream of the relay as a two-party protocol (relay/src/hub.ts and node-agent/src/relay.ts): the hub
 sends the client's body and acks the response, the agent sends the response and acks the body, over a
 FIFO channel each way. Timers, write callbacks, client reads and failures are events that may come at any time.
 */
module RelayStream {
  import opened Wrappers
  import opened RelayFrames
  import opened Batches

  // ---- State ----

  datatype Down = DReq | DData(b: Bytes) | DEnd | DCancel | DAck(n: nat)
  datatype Up = URes(nullBody: bool) | UData(b: Bytes) | UEnd | UErr | UAck(n: nat)

  /** The hub's upload loop: between reads, or with the parts still to send of the chunk read last. */
  datatype Upload =
    Reading | Checking(parts: seq<Bytes>) | Blocked(parts: seq<Bytes>) | Ready(parts: seq<Bytes>) | Finished

  /** Queued operations on the client's writer. */
  datatype Op = Write(b: Bytes) | CloseBody | CloseNull | Abort

  /**
   `broken`: the writer takes no more. `got`, `sent`: the client's body read and sent. `written`: what the client
   received. `errHead`: it got an error in place of a head; `closedOk`, `closedNull`, `aborted`: how its body ended.
   `nullHead`: the response has no body.
   */
  datatype Hub = Hub(open: bool, headDone: bool, unacked: nat, upload: Upload, chain: seq<Op>, broken: bool,
                     got: Bytes, sent: Bytes, written: Bytes, closedOk: bool, errHead: bool, closedNull: bool,
                     aborted: bool, nullHead: bool)

  datatype Phase = New | Live | Gone

  /**
   `writes`: sizes being written upstream. `failed`: bytes whose write failed; upstream then raises an error, which is
   pending as `upError`. `upRead`: the response read from upstream.
   */
  datatype Agent = Agent(phase: Phase, reqDone: bool, writes: seq<nat>, failed: nat, unacked: nat, uploaded: Bytes,
                         hasRes: bool, pending: Bytes, inflight: nat, due: bool, timer: bool, ended: bool, paused: bool,
                           upRead: Bytes, upError: bool)

  datatype Sys = Sys(hub: Hub, agent: Agent, down: seq<Down>, up: seq<Up>)

  /** The hub has just sent the request. */
  function Start(): Sys {
    Sys(Hub(true, false, 0, Reading, [], false, [], [], [], false, false, false, false, false),
        Agent(New, false, [], 0, 0, [], false, [], 0, false, false, false, false, [], false), [DReq], [])
  }

  datatype Event =
    | HRead(value: Bytes) | HReadEnd | HCheck | HSend | HRecv | HWriterDone | HClientGone | HAbort | HFail
    | ARecv(accept: bool) | AWritten | AWriteFailed | AHead(nullBody: bool) | AChunk(chunk: Bytes) | ATimer | AEnd
    | AError

  // ---- Hub ----

  /** Forgetting a stream wakes its upload. */
  function Forget(h: Hub): Hub {
    h.(open := false, upload := if h.upload.Blocked? then Checking(h.upload.parts) else h.upload)
  }

  function Fail(h: Hub): Hub {
    Forget(h.(headDone := true, errHead := h.errHead || !h.headDone,
              chain := if h.headDone then h.chain + [Abort] else h.chain))
  }

  function OnRead(s: Sys, value: Bytes): Sys {
    var h := s.hub;
    if !h.upload.Reading? then s else
    var parts := Chunks(value, MAX_FRAME_BYTES);
    s.(hub := h.(got := h.got + value, upload := if parts == [] then Reading else Checking(parts)))
  }

  function OnReadEnd(s: Sys): Sys {
    if !s.hub.upload.Reading? then s
    else s.(hub := s.hub.(upload := Finished), down := if s.hub.open then s.down + [DEnd] else s.down)
  }

  function OnCheck(s: Sys): Sys {
    var h := s.hub;
    if !h.upload.Checking? || h.upload.parts == [] then s else
    var ps := h.upload.parts;
    s.(hub := h.(upload := if !h.open || h.unacked + |ps[0]| <= WINDOW_BYTES then Ready(ps) else Blocked(ps)))
  }

  function OnSend(s: Sys): Sys {
    var h := s.hub;
    if !h.upload.Ready? || h.upload.parts == [] then s else
    var ps := h.upload.parts;
    if !h.open then s.(hub := h.(upload := Finished)) else
    s.(hub := h.(unacked := h.unacked + |ps[0]|, sent := h.sent + ps[0],
                 upload := if |ps| > 1 then Checking(ps[1..]) else Reading),
       down := s.down + [DData(ps[0])])
  }

  function HubTakes(h: Hub, m: Up): Hub {
    if !h.open then h else
    match m
    case URes(nullBody) =>
      var r := h.(headDone := true);
      if nullBody then Forget(r.(chain := r.chain + [CloseNull], nullHead := true)) else r
    case UData(b) => if h.headDone then h.(chain := h.chain + [Write(b)]) else h
    case UEnd => Forget(h.(chain := h.chain + [CloseBody]))
    case UErr => Fail(h)
    case UAck(n) =>
      h.(unacked := if n <= h.unacked then h.unacked - n else 0,
         upload := if h.upload.Blocked? then Checking(h.upload.parts) else h.upload)
  }

  function OnHubRecv(s: Sys): Sys { if s.up == [] then s else s.(hub := HubTakes(s.hub, s.up[0]), up := s.up[1..]) }

  /** What an operation on the client's writer does: whatever is no write is the last. */
  function Performed(h: Hub, op: Op): Hub {
    h.(written := if op.Write? then h.written + op.b else h.written, broken := h.broken || !op.Write?,
       closedOk := h.closedOk || op.CloseBody?, closedNull := h.closedNull || op.CloseNull?,
       aborted := h.aborted || op.Abort?)
  }

  /** The first queued operation on the client's writer completes; a write is then acked. */
  function OnWriterDone(s: Sys): Sys {
    if s.hub.chain == [] then s else
    var h, op := s.hub.(chain := s.hub.chain[1..]), s.hub.chain[0];
    if h.broken then s.(hub := h)
    else s.(hub := Performed(h, op), down := if op.Write? && h.open then s.down + [DAck(|op.b|)] else s.down)
  }

  function OnClientGone(s: Sys): Sys {
    s.(hub := Forget(s.hub.(broken := true)), down := if s.hub.open then s.down + [DCancel] else s.down)
  }

  /** The request is aborted: the stream is forgotten, but what is queued for the writer still runs. */
  function OnAbort(s: Sys): Sys { if !s.hub.open then s else s.(hub := Forget(s.hub), down := s.down + [DCancel]) }

  function OnFail(s: Sys): Sys { if !s.hub.open then s else s.(hub := Fail(s.hub), down := s.down + [DCancel]) }

  // ---- Agent ----

  function Min(a: int, b: int): int { if a < b then a else b }

  /** The frames `pump` sends: whole ones, and the tail when forced, while they fit the window. */
  function Frames(pending: Bytes, inflight: nat, force: bool): seq<Bytes>
    decreases |pending|
  {
    var n := Min(MAX_FRAME_BYTES, |pending|);
    if n == 0 || (n < MAX_FRAME_BYTES && !force) || inflight + n > WINDOW_BYTES then []
    else [pending[..n]] + Frames(pending[n..], inflight + n, force)
  }

  function AsUp(frames: seq<Bytes>): seq<Up> { if frames == [] then [] else [UData(frames[0])] + AsUp(frames[1..]) }

  lemma {:induction false} FramesFit(pending: Bytes, inflight: nat, force: bool)
    requires inflight <= WINDOW_BYTES
    ensures var k := |Flatten(Frames(pending, inflight, force))|;
      && k <= |pending| && Flatten(Frames(pending, inflight, force)) == pending[..k] && inflight + k <= WINDOW_BYTES
      && (k == 0 ==> Frames(pending, inflight, force) == [])
      && (k == |pending| || (|pending| - k < MAX_FRAME_BYTES && !force)
        || inflight + k + Min(MAX_FRAME_BYTES, |pending| - k) > WINDOW_BYTES)
    decreases |pending|
  {
    var n := Min(MAX_FRAME_BYTES, |pending|);
    if !(n == 0 || (n < MAX_FRAME_BYTES && !force) || inflight + n > WINDOW_BYTES) {
      FramesFit(pending[n..], inflight + n, force);
      var rest := Flatten(Frames(pending[n..], inflight + n, force));
      assert Frames(pending, inflight, force)[1..] == Frames(pending[n..], inflight + n, force);
      assert Flatten(Frames(pending, inflight, force)) == pending[..n] + rest;
    }
  }

  /** Frames are full, but for the last one when forced. */
  lemma {:induction false} FramesFull(pending: Bytes, inflight: nat, force: bool, k: nat)
    requires k < |Frames(pending, inflight, force)|
    ensures var f := Frames(pending, inflight, force);
      |f[k]| == 0x1_0000 || (force && k == |f| - 1 && 0 < |f[k]| < 0x1_0000)
    decreases |pending|
  {
    var n := Min(MAX_FRAME_BYTES, |pending|);
    if k > 0 {
      FramesFull(pending[n..], inflight + n, force, k - 1);
    } else if n < MAX_FRAME_BYTES {
      assert pending[n..] == [];
    }
  }

  /**
   The agent once `pump` has sent `k` bytes: the batch is cleared when nothing is left, upstream resumed when there is
   room.
   */
  function AfterSend(a: Agent, k: nat): Agent
    requires k <= |a.pending|
  {
    var left := a.pending[k..];
    a.(pending := left, inflight := a.inflight + k,
       due := a.due && k < |a.pending|, timer := a.timer && k < |a.pending|,
       paused := a.paused && (a.ended || a.inflight + |a.pending| >= WINDOW_BYTES),
       phase := if a.ended && k == |a.pending| then Gone else a.phase)
  }

  /** `pump`: send frames, then the end once the response has ended and all of it is sent. */
  function Pump(a: Agent): (Agent, seq<Up>)
    requires a.inflight <= WINDOW_BYTES
  {
    var frames := Frames(a.pending, a.inflight, a.due || a.ended);
    var k := |Flatten(frames)|;
    FramesFit(a.pending, a.inflight, a.due || a.ended);
    (AfterSend(a, k), if a.ended && k == |a.pending| then AsUp(frames) + [UEnd] else AsUp(frames))
  }

  function Pumped(s: Sys, a: Agent): Sys {
    if a.inflight > WINDOW_BYTES then s.(agent := a) else
    var (b, frames) := Pump(a);
    s.(agent := b, up := s.up + frames)
  }

  function GiveUp(s: Sys): Sys { s.(agent := s.agent.(phase := Gone), up := s.up + [UErr]) }

  function OnBody(s: Sys, b: Bytes, accept: bool): Sys {
    var a := s.agent;
    if a.reqDone then s else if !accept then GiveUp(s)
    else s.(agent := a.(writes := a.writes + [|b|], uploaded := a.uploaded + b))
  }

  /** `n` bytes fewer in flight, never below zero. */
  function Credited(a: Agent, n: nat): Agent { a.(inflight := if n <= a.inflight then a.inflight - n else 0) }

  function OnAck(s: Sys, n: nat): Sys { Pumped(s, Credited(s.agent, n)) }

  /** `accept`: the request can be served, or the body is still within its cap. */
  function OnAgentRecv(s: Sys, accept: bool): Sys {
    if s.down == [] then s else
    var m, t := s.down[0], s.(down := s.down[1..]);
    if m.DReq? then (if !s.agent.phase.New? then t else if accept then t.(agent := s.agent.(phase := Live))
      else GiveUp(t))
    else if !s.agent.phase.Live? then t
    else match m
      case DReq => t
      case DData(b) => OnBody(t, b, accept)
      case DEnd => t.(agent := s.agent.(reqDone := true))
      case DCancel => t.(agent := s.agent.(phase := Gone))
      case DAck(n) => OnAck(t, n)
  }

  /** The first write is done, and with it `n` bytes are unacked: acked once they are 64 KiB. */
  function Counted(s: Sys, n: nat): Sys
    requires s.agent.writes != []
  {
    var a := s.agent.(writes := s.agent.writes[1..], unacked := if n >= MAX_FRAME_BYTES then 0 else n);
    s.(agent := a, up := if n >= MAX_FRAME_BYTES then s.up + [UAck(n)] else s.up)
  }

  /** A write upstream completed. */
  function OnWritten(s: Sys): Sys {
    var a := s.agent;
    if a.writes == [] then s
    else if a.phase.Live? then Counted(s, a.unacked + a.writes[0])
    else s.(agent := a.(writes := a.writes[1..]))
  }

  /** A write upstream failed: it is never acked, and upstream's error event follows. */
  function OnWriteFailed(s: Sys): Sys {
    var a := s.agent;
    if a.writes == [] then s
    else s.(agent := a.(writes := a.writes[1..], failed := a.failed + a.writes[0], upError := true))
  }

  function OnHead(s: Sys, nullBody: bool): Sys {
    if !s.agent.phase.Live? || s.agent.hasRes then s
    else s.(agent := s.agent.(hasRes := true), up := s.up + [URes(nullBody)])
  }

  function OnChunk(s: Sys, chunk: Bytes): Sys {
    var a := s.agent;
    if !a.phase.Live? || !a.hasRes || a.ended then s else
    var b := a.(pending := a.pending + chunk, upRead := a.upRead + chunk);
    Pumped(s, b.(paused := b.paused || b.inflight + |b.pending| >= WINDOW_BYTES, timer := b.timer || !b.due))
  }

  function OnTimer(s: Sys): Sys {
    if !s.agent.phase.Live? || !s.agent.timer then s else Pumped(s, s.agent.(timer := false, due := true))
  }

  function OnEnd(s: Sys): Sys {
    if !s.agent.phase.Live? || !s.agent.hasRes || s.agent.ended then s else Pumped(s, s.agent.(ended := true))
  }

  function OnError(s: Sys): Sys { if !s.agent.phase.Live? then s else GiveUp(s) }

  function Step(s: Sys, e: Event): Sys {
    match e
    case HRead(value) => OnRead(s, value)
    case HReadEnd => OnReadEnd(s)
    case HCheck => OnCheck(s)
    case HSend => OnSend(s)
    case HRecv => OnHubRecv(s)
    case HWriterDone => OnWriterDone(s)
    case HClientGone => OnClientGone(s)
    case HAbort => OnAbort(s)
    case HFail => OnFail(s)
    case ARecv(accept) => OnAgentRecv(s, accept)
    case AWritten => OnWritten(s)
    case AWriteFailed => OnWriteFailed(s)
    case AHead(nullBody) => OnHead(s, nullBody)
    case AChunk(chunk) => OnChunk(s, chunk)
    case ATimer => OnTimer(s)
    case AEnd => OnEnd(s)
    case AError => OnError(s)
  }

  /** The stream after any interleaving of events. */
  function Run(events: seq<Event>): Sys {
    if events == [] then Start() else Step(Run(events[..|events| - 1]), events[|events| - 1])
  }

  // ---- What is in the channels ----

  function BytesDown(c: seq<Down>): Bytes {
    if c == [] then [] else (if c[0].DData? then c[0].b else []) + BytesDown(c[1..])
  }
  function AcksDown(c: seq<Down>): nat { if c == [] then 0 else (if c[0].DAck? then c[0].n else 0) + AcksDown(c[1..]) }
  function BytesUp(c: seq<Up>): Bytes { if c == [] then [] else (if c[0].UData? then c[0].b else []) + BytesUp(c[1..]) }
  function AcksUp(c: seq<Up>): nat { if c == [] then 0 else (if c[0].UAck? then c[0].n else 0) + AcksUp(c[1..]) }
  function ChainBytes(c: seq<Op>): Bytes {
    if c == [] then [] else (if c[0].Write? then c[0].b else []) + ChainBytes(c[1..])
  }
  function Total(w: seq<nat>): nat { if w == [] then 0 else w[0] + Total(w[1..]) }

  lemma {:induction false} DownSnoc(c: seq<Down>, m: Down)
    ensures BytesDown(c + [m]) == BytesDown(c) + (if m.DData? then m.b else [])
      && AcksDown(c + [m]) == AcksDown(c) + if m.DAck? then m.n else 0
  {
    if c != [] {
      DownSnoc(c[1..], m);
      assert (c + [m])[1..] == c[1..] + [m];
    }
  }

  lemma {:induction false} UpSnoc(c: seq<Up>, m: Up)
    ensures BytesUp(c + [m]) == BytesUp(c) + (if m.UData? then m.b else [])
      && AcksUp(c + [m]) == AcksUp(c) + if m.UAck? then m.n else 0
  {
    if c != [] {
      UpSnoc(c[1..], m);
      assert (c + [m])[1..] == c[1..] + [m];
    }
  }

  lemma {:induction false} ChainSnoc(c: seq<Op>, m: Op)
    ensures ChainBytes(c + [m]) == ChainBytes(c) + if m.Write? then m.b else []
  {
    if c != [] {
      ChainSnoc(c[1..], m);
      assert (c + [m])[1..] == c[1..] + [m];
    }
  }

  lemma {:induction false} TotalSnoc(w: seq<nat>, n: nat)
    ensures Total(w + [n]) == Total(w) + n
  {
    if w != [] {
      TotalSnoc(w[1..], n);
      assert (w + [n])[1..] == w[1..] + [n];
    }
  }

  lemma {:induction false} BytesConcat(c: seq<Up>, d: seq<Up>)
    ensures BytesUp(c + d) == BytesUp(c) + BytesUp(d)
  {
    if c == [] {
      assert c + d == d;
    } else {
      var head, rest := if c[0].UData? then c[0].b else [], c[1..];
      BytesConcat(rest, d);
      BytesHead(c + d, head, rest + d);
      BytesHead(c, head, rest);
      Associates(head, BytesUp(rest), BytesUp(d));
    }
  }

  lemma BytesHead(c: seq<Up>, head: Bytes, rest: seq<Up>)
    requires c != [] && head == (if c[0].UData? then c[0].b else []) && rest == c[1..]
    ensures BytesUp(c) == head + BytesUp(rest)
  {
  }

  lemma Associates(x: Bytes, y: Bytes, z: Bytes)
    ensures x + (y + z) == x + y + z
  {
  }

  lemma {:induction false} AcksConcat(c: seq<Up>, d: seq<Up>)
    ensures AcksUp(c + d) == AcksUp(c) + AcksUp(d)
  {
    if c == [] {
      assert c + d == d;
    } else {
      AcksConcat(c[1..], d);
      assert (c + d)[1..] == c[1..] + d;
    }
  }

  lemma {:induction false} FramesUp(frames: seq<Bytes>)
    ensures BytesUp(AsUp(frames)) == Flatten(frames) && AcksUp(AsUp(frames)) == 0
    ensures forall m :: m in AsUp(frames) ==> m.UData?
  {
    if frames != [] {
      FramesUp(frames[1..]);
      assert AsUp(frames)[1..] == AsUp(frames[1..]);
    }
  }

  lemma UpFrames(c: seq<Up>, frames: seq<Bytes>)
    ensures BytesUp(c + AsUp(frames)) == BytesUp(c) + Flatten(frames) && AcksUp(c + AsUp(frames)) == AcksUp(c)
    ensures forall m :: m in AsUp(frames) ==> m.UData?
  {
    FramesUp(frames);
    BytesConcat(c, AsUp(frames));
    AcksConcat(c, AsUp(frames));
  }
}
