/**
 What every interleaving of a relay stream keeps: both directions conserve bytes and stay within the window,
 the client receives a prefix of what upstream sent, a normal close means all of it, and nothing stays stuck.
 */
module RelaySafety {
  import opened Wrappers
  import opened RelayFrames
  import opened Batches
  import opened RelayStream

  // ---- The request direction ----

  function Rest(u: Upload): seq<Bytes> { if u.Reading? || u.Finished? then [] else u.parts }

  ghost predicate PartsOk(ps: seq<Bytes>) { forall k :: 0 <= k < |ps| ==> 0 < |ps[k]| <= MAX_FRAME_BYTES }

  ghost predicate UploadOk(h: Hub) {
    var u := h.upload;
    && (!u.Reading? && !u.Finished? ==> u.parts != [] && PartsOk(u.parts))
    && (h.open ==> h.got == h.sent + Flatten(Rest(u)))
    && (u.Ready? && h.open ==> h.unacked + |u.parts[0]| <= WINDOW_BYTES)
    && (u.Blocked? ==> h.open && h.unacked + |u.parts[0]| > WINDOW_BYTES)
  }

  /** The request is the first frame, and nothing of the body follows its end. */
  ghost predicate DownOk(c: seq<Down>, p: Phase) {
    && (p.New? <==> c != [] && c[0].DReq?)
    && (forall i :: 1 <= i < |c| ==> !c[i].DReq?)
    && forall i, j :: 0 <= i < j < |c| && c[i].DEnd? ==> !c[j].DData?
  }

  /**
   Every byte the hub counts as unacked is in the channel, being written, lost in a failed write, written and not yet
   acked, or acked in the channel.
   */
  ghost predicate ReqConserved(s: Sys) {
    s.hub.unacked == |BytesDown(s.down)| + Total(s.agent.writes) + s.agent.failed + s.agent.unacked + AcksUp(s.up)
  }

  /** What upstream was given and what is in the channel make up what was sent, and the end follows all of the body. */
  ghost predicate BodyOk(s: Sys) {
    var h, a := s.hub, s.agent;
    && a.uploaded <= h.sent <= h.got
    && (!a.phase.Gone? ==> h.sent == a.uploaded + BytesDown(s.down))
    && (DEnd in s.down ==> h.upload.Finished? && h.got == h.sent)
    && (a.reqDone ==>
      h.upload.Finished? && h.got == h.sent == a.uploaded && (!a.phase.Gone? ==> BytesDown(s.down) == []))
  }

  ghost predicate NewOk(a: Agent) {
    a.phase.New? ==>
      && a.writes == [] && a.failed == 0 && a.unacked == 0 && a.uploaded == [] && !a.reqDone && !a.hasRes
        && a.pending == [] && a.inflight == 0
      && !a.due && !a.timer && !a.ended && !a.paused
  }

  ghost predicate ReqOk(s: Sys) {
    && s.hub.unacked <= WINDOW_BYTES && s.agent.unacked < MAX_FRAME_BYTES
    && UploadOk(s.hub) && DownOk(s.down, s.agent.phase) && NewOk(s.agent) && BodyOk(s)
    && (s.agent.failed > 0 ==> s.agent.upError)
    && (s.hub.open && !s.agent.phase.Gone? ==> ReqConserved(s))
  }

  // ---- The response direction ----

  /**
   Between events nothing the agent could send is left unsent, queued bytes have a timer or are due, and upstream is
   paused only on a full window.
   */
  ghost predicate Settled(a: Agent) {
    && (a.pending != [] ==> a.timer || a.due)
    && (a.pending != [] ==>
      (|a.pending| < MAX_FRAME_BYTES && !a.due && !a.ended)
      || a.inflight + Min(MAX_FRAME_BYTES, |a.pending|) > WINDOW_BYTES)
    && (a.ended ==> a.pending != [])
    && (!a.ended ==> (a.paused <==> a.inflight + |a.pending| >= WINDOW_BYTES))
  }

  /**
   Every byte the agent counts as in flight is in the channel, being written to the client, or acked in the channel.
   */
  ghost predicate RespConserved(s: Sys) {
    s.agent.inflight == |BytesUp(s.up)| + |ChainBytes(s.hub.chain)| + AcksDown(s.down)
  }

  ghost predicate ChainOk(h: Hub) {
    && (h.closedNull || h.aborted ==> h.broken)
    && (h.open ==> !h.broken && forall k :: 0 <= k < |h.chain| ==> h.chain[k].Write?)
    && (forall i, j :: 0 <= i < j < |h.chain| && h.chain[i].CloseBody? ==> !h.chain[j].Write?)
  }

  ghost predicate RespOk(s: Sys) {
    && s.agent.inflight <= WINDOW_BYTES && ChainOk(s.hub)
    && (s.hub.open && !s.agent.phase.Gone? ==> RespConserved(s))
  }

  // ---- The bytes themselves ----

  /** What the client has and will be given of what was sent so far. */
  function Delivered(h: Hub): Bytes { h.written + if h.broken then [] else ChainBytes(h.chain) }

  ghost predicate Complete(a: Agent) { a.phase.Gone? && a.ended && a.pending == [] }

  predicate ResFirst(c: seq<Up>) { c != [] && (c[0].URes? || (c[0].UAck? && ResFirst(c[1..]))) }

  ghost predicate UpOk(c: seq<Up>, a: Agent) {
    && (forall i :: 0 <= i < |c| - 1 ==> !c[i].UEnd?)
    && (UEnd in c ==> Complete(a))
    && (!a.hasRes ==> BytesUp(c) == [] && UEnd !in c && a.upRead == [] && a.pending == [])
    && (!a.hasRes && !a.phase.Gone? ==> forall i :: 0 <= i < |c| ==> c[i].UAck?)
  }

  ghost predicate BytesOk(s: Sys) {
    var h, a := s.hub, s.agent;
    && UpOk(s.up, a) && Delivered(h) <= a.upRead
    && (h.open && !a.phase.Gone? ==> Delivered(h) + BytesUp(s.up) + a.pending == a.upRead)
    && (h.open && a.phase.Gone? ==> Delivered(h) + BytesUp(s.up) <= a.upRead)
    && (h.open && UEnd in s.up ==> Delivered(h) + BytesUp(s.up) == a.upRead)
    && (h.open && !h.headDone ==> h.chain == [] && (a.hasRes ==> ResFirst(s.up)))
    && (h.closedOk ==> h.broken && h.written == a.upRead && Complete(a))
    && (CloseBody in h.chain && !h.broken ==> Delivered(h) == a.upRead && Complete(a))
  }

  ghost predicate Core(s: Sys) { ReqOk(s) && RespOk(s) && BytesOk(s) }

  ghost predicate Inv(s: Sys) { Core(s) && (s.agent.phase.Live? ==> Settled(s.agent)) }

  // ---- Pumping ----

  /** What `pump` does to the agent `a` of `s`: it sends the first `k` pending bytes, and the end if that was all. */
  ghost predicate Sends(s: Sys, a: Agent, t: Sys, k: nat) {
    && t.hub == s.hub && t.down == s.down && k <= |a.pending| && a.inflight + k <= WINDOW_BYTES
    && t.agent == a.(pending := a.pending[k..], inflight := a.inflight + k, due := t.agent.due, timer := t.agent.timer,
                     paused := t.agent.paused, phase := if a.ended && k == |a.pending| then Gone else a.phase)
    && BytesUp(t.up) == BytesUp(s.up) + a.pending[..k] && AcksUp(t.up) == AcksUp(s.up) && s.up <= t.up
    && (forall i :: |s.up| <= i < |t.up| - 1 ==> t.up[i].UData?) && (k == 0 && !t.agent.phase.Gone? ==> t.up == s.up)
    && (if t.agent.phase.Gone? then |s.up| < |t.up| && t.up[|t.up| - 1] == UEnd
        else forall i :: |s.up| <= i < |t.up| ==> t.up[i].UData?)
  }

  /** The channel after frames, and after an end behind them. */
  lemma SentUp(c: seq<Up>, frames: seq<Bytes>)
    ensures var d := c + AsUp(frames);
      BytesUp(d) == BytesUp(c) + Flatten(frames) && AcksUp(d) == AcksUp(c) && forall i :: |c| <= i < |d| ==> d[i].UData?
    ensures var d := c + (AsUp(frames) + [UEnd]);
      BytesUp(d) == BytesUp(c) + Flatten(frames) && AcksUp(d) == AcksUp(c) && d[|d| - 1] == UEnd
      && forall i :: |c| <= i < |d| - 1 ==> d[i].UData?
  {
    UpFrames(c, frames);
    UpSnoc(c + AsUp(frames), UEnd);
    assert c + AsUp(frames) + [UEnd] == c + (AsUp(frames) + [UEnd]);
    forall i | 0 <= i < |AsUp(frames)| ensures AsUp(frames)[i].UData? { assert AsUp(frames)[i] in AsUp(frames); }
  }

  /** The agent after `pump`, up to its batch and pause flags, and what it sends. */
  ghost predicate PumpedAgent(a: Agent, b: Agent, sent: seq<Up>, frames: seq<Bytes>, k: nat) {
    && k == |Flatten(frames)| <= |a.pending| && (k == 0 ==> frames == []) && a.inflight + k <= WINDOW_BYTES
      && Flatten(frames) == a.pending[..k]
    && b == a.(pending := a.pending[k..], inflight := a.inflight + k, due := b.due, timer := b.timer,
               paused := b.paused, phase := if a.ended && k == |a.pending| then Gone else a.phase)
    && sent == if b.phase.Gone? then AsUp(frames) + [UEnd] else AsUp(frames)
  }

  lemma PumpAgent(a: Agent, frames: seq<Bytes>, k: nat)
    requires a.phase.Live? && a.inflight <= WINDOW_BYTES && frames == Frames(a.pending, a.inflight, a.due || a.ended)
      && k == |Flatten(frames)|
    ensures PumpedAgent(a, Pump(a).0, Pump(a).1, frames, k)
  {
    FramesFit(a.pending, a.inflight, a.due || a.ended);
  }

  lemma SendsBy(s: Sys, a: Agent, b: Agent, sent: seq<Up>, frames: seq<Bytes>, k: nat)
    requires a.phase.Live? && PumpedAgent(a, b, sent, frames, k)
    ensures Sends(s, a, s.(agent := b, up := s.up + sent), k)
  {
    SentUp(s.up, frames);
  }

  lemma PumpSends(s: Sys, a: Agent) returns (k: nat)
    requires a.phase.Live? && a.inflight <= WINDOW_BYTES
    ensures Sends(s, a, Pumped(s, a), k)
  {
    var frames := Frames(a.pending, a.inflight, a.due || a.ended);
    k := |Flatten(frames)|;
    PumpAgent(a, frames, k);
    SendsBy(s, a, Pump(a).0, Pump(a).1, frames, k);
  }

  /** Upstream is paused once the window is full. */
  predicate Paced(a: Agent) { !a.ended && a.inflight + |a.pending| >= WINDOW_BYTES ==> a.paused }

  lemma PumpSettles(s: Sys, a: Agent)
    requires a.phase.Live? && a.inflight <= WINDOW_BYTES && (a.pending != [] ==> a.timer || a.due) && Paced(a)
    ensures Pumped(s, a).agent.phase.Live? ==> Settled(Pumped(s, a).agent)
  {
    FramesFit(a.pending, a.inflight, a.due || a.ended);
  }

  lemma SendsKeepsReq(s: Sys, a: Agent, t: Sys, k: nat)
    requires ReqOk(s.(agent := a)) && a.phase.Live? && Sends(s, a, t, k)
    ensures ReqOk(t)
  {
  }

  lemma SendsKeepsResp(s: Sys, a: Agent, t: Sys, k: nat)
    requires RespOk(s.(agent := a)) && a.phase.Live? && Sends(s, a, t, k)
    ensures RespOk(t)
  {
  }

  lemma {:induction false} ResFirstMore(c: seq<Up>, d: seq<Up>)
    requires ResFirst(c) && c <= d
    ensures ResFirst(d)
  {
    if !c[0].URes? { ResFirstMore(c[1..], d[1..]); }
  }

  lemma SendsKeepsUp(s: Sys, a: Agent, t: Sys, k: nat)
    requires UpOk(s.up, a) && a.phase.Live? && Sends(s, a, t, k) && (a.hasRes || !a.ended)
    ensures UpOk(t.up, t.agent) && (UEnd in t.up <==> t.agent.phase.Gone?)
  {
    assert UEnd !in s.up;
  }

  lemma SendsKeepsBytes(s: Sys, a: Agent, t: Sys, k: nat)
    requires BytesOk(s.(agent := a)) && a.phase.Live? && Sends(s, a, t, k) && (a.hasRes || !a.ended)
    ensures BytesOk(t)
  {
    SendsKeepsUp(s, a, t, k);
    Regroup(Delivered(s.hub), BytesUp(s.up), a.pending, k);
    if s.hub.open && !s.hub.headDone && a.hasRes { ResFirstMore(s.up, t.up); }
  }

  lemma Regroup(x: Bytes, y: Bytes, p: Bytes, k: nat)
    requires k <= |p|
    ensures x + (y + p[..k]) + p[k..] == x + y + p
  {
  }

  lemma PumpKeeps(s: Sys, a: Agent)
    requires Core(s.(agent := a)) && a.phase.Live? && (a.pending != [] ==> a.timer || a.due) && (a.hasRes || !a.ended)
    requires Paced(a)
    ensures Inv(Pumped(s, a))
  {
    var k := PumpSends(s, a);
    PumpSettles(s, a);
    var t := Pumped(s, a);
    SendsKeepsReq(s, a, t, k);
    SendsKeepsResp(s, a, t, k);
    SendsKeepsBytes(s, a, t, k);
  }

  lemma StartKeeps()
    ensures Inv(Start())
  {
    assert BytesDown([DReq]) == BytesDown([]) == [] && AcksDown([DReq]) == AcksDown([]) == 0;
  }

  // ---- Every event keeps the invariant ----

  /** The parts of the state the request direction depends on, but for the upload itself. */
  ghost predicate SameReq(s: Sys, t: Sys) {
    && t.down == s.down && AcksUp(t.up) == AcksUp(s.up) && t.hub.unacked == s.hub.unacked && t.hub.sent == s.hub.sent
      && t.hub.got == s.hub.got
    && (t.hub.open ==> s.hub.open)
    && t.agent.writes == s.agent.writes && t.agent.failed == s.agent.failed && t.agent.unacked == s.agent.unacked
    && t.agent.uploaded == s.agent.uploaded && t.agent.reqDone == s.agent.reqDone
  }

  /** The parts of the state the response direction depends on. */
  ghost predicate SameResp(s: Sys, t: Sys) {
    && BytesUp(t.up) == BytesUp(s.up) && AcksDown(t.down) == AcksDown(s.down) && t.hub.chain == s.hub.chain
      && t.hub.broken == s.hub.broken && t.hub.closedNull == s.hub.closedNull && t.hub.aborted == s.hub.aborted
    && (t.hub.open ==> s.hub.open) && t.agent.inflight == s.agent.inflight
      && (t.agent.phase == s.agent.phase || t.agent.phase.Gone?)
  }

  lemma RespFrame(s: Sys, t: Sys)
    requires RespOk(s) && SameResp(s, t)
    ensures RespOk(t)
  {
  }

  /** The hub's upload loop moves; nothing else does. */
  lemma UploadFrame(s: Sys, t: Sys)
    requires Inv(s) && t == s.(hub := s.hub.(upload := t.hub.upload, got := t.hub.got)) && UploadOk(t.hub)
    requires !s.hub.upload.Finished? && s.hub.got <= t.hub.got
    ensures Inv(t)
  {
  }

  lemma ReadUpload(h: Hub, h': Hub, value: Bytes)
    requires UploadOk(h) && h.upload.Reading?
    requires var parts := Chunks(value, MAX_FRAME_BYTES);
      h' == h.(got := h.got + value, upload := if parts == [] then Reading else Checking(parts))
    ensures UploadOk(h')
  {
    ChunksPartition(value, MAX_FRAME_BYTES);
    assert h.open ==> h.got == h.sent + Flatten([]);
  }

  lemma ReadKeeps(s: Sys, value: Bytes)
    requires Inv(s)
    ensures Inv(OnRead(s, value))
  {
    if s.hub.upload.Reading? {
      ReadUpload(s.hub, OnRead(s, value).hub, value);
      UploadFrame(s, OnRead(s, value));
    }
  }

  lemma ReadEndKeeps(s: Sys)
    requires Inv(s)
    ensures Inv(OnReadEnd(s))
  {
    var t := OnReadEnd(s);
    DownSnoc(s.down, DEnd);
    if s.hub.upload.Reading? {
      ReadEndReq(s, t);
      ReadEndBytes(s, t);
    }
  }

  lemma ReadEndReq(s: Sys, t: Sys)
    requires ReqOk(s) && s.hub.upload.Reading? && t == s.(hub := s.hub.(upload := Finished), down := t.down)
    requires t.down == if s.hub.open then s.down + [DEnd] else s.down
    ensures ReqOk(t)
  {
    DownSnoc(s.down, DEnd);
  }

  lemma ReadEndBytes(s: Sys, t: Sys)
    requires RespOk(s) && BytesOk(s) && t == s.(hub := s.hub.(upload := Finished), down := t.down)
    requires AcksDown(t.down) == AcksDown(s.down)
    ensures RespOk(t) && BytesOk(t)
  {
  }

  lemma CheckKeeps(s: Sys)
    requires Inv(s)
    ensures Inv(OnCheck(s))
  {
    if s.hub.upload.Checking? {
      assert PartsOk(s.hub.upload.parts);
      UploadFrame(s, OnCheck(s));
    }
  }

  lemma SendKeepsReq(s: Sys, t: Sys, ps: seq<Bytes>)
    requires ReqOk(s) && s.hub.upload == Ready(ps) && s.hub.open && t == OnSend(s)
    ensures ReqOk(t)
  {
    DownSnoc(s.down, DData(ps[0]));
    SendBytes(s.hub.got, s.hub.sent, ps);
    assert PartsOk(ps[1..]);
  }

  lemma SendKeeps(s: Sys)
    requires Inv(s)
    ensures Inv(OnSend(s))
  {
    if s.hub.upload.Ready? {
      if s.hub.open {
        SendKeepsReq(s, OnSend(s), s.hub.upload.parts);
        DownSnoc(s.down, DData(s.hub.upload.parts[0]));
        RespFrame(s, OnSend(s));
      }
    }
  }

  lemma SendBytes(got: Bytes, sent: Bytes, ps: seq<Bytes>)
    requires ps != [] && got == sent + Flatten(ps)
    ensures got == (sent + ps[0]) + Flatten(ps[1..])
  {
  }

  /** The hub forgets the stream, telling the agent if it was open. */
  lemma ForgetReq(s: Sys, t: Sys)
    requires ReqOk(s) && t.hub == Forget(s.hub.(broken := t.hub.broken)) && t.agent == s.agent
    requires t.down == s.down || (s.hub.open && t.down == s.down + [DCancel])
    ensures ReqOk(t)
  {
    DownSnoc(s.down, DCancel);
  }

  lemma ClientGoneBytes(s: Sys, t: Sys)
    requires BytesOk(s) && RespOk(s) && t.hub == Forget(s.hub.(broken := true)) && t.agent == s.agent && t.up == s.up
    ensures BytesOk(t) && RespOk(t)
  {
    assert s.hub.written <= Delivered(s.hub);
  }

  lemma ClientGoneKeeps(s: Sys)
    requires Inv(s)
    ensures Inv(OnClientGone(s))
  {
    ForgetReq(s, OnClientGone(s));
    ClientGoneBytes(s, OnClientGone(s));
  }

  lemma AbortBytes(s: Sys, t: Sys)
    requires BytesOk(s) && RespOk(s) && s.hub.open && t.hub == Forget(s.hub) && t.agent == s.agent && t.up == s.up
    ensures BytesOk(t) && RespOk(t)
  {
    assert Delivered(t.hub) == Delivered(s.hub);
    assert CloseBody !in t.hub.chain;
  }

  lemma AbortKeeps(s: Sys)
    requires Inv(s)
    ensures Inv(OnAbort(s))
  {
    if s.hub.open {
      ForgetReq(s, OnAbort(s));
      AbortBytes(s, OnAbort(s));
    }
  }

  lemma FailKeepsReq(s: Sys)
    requires ReqOk(s) && s.hub.open
    ensures ReqOk(OnFail(s)) && ReqOk(s.(hub := Fail(s.hub)))
  {
    DownSnoc(s.down, DCancel);
  }

  lemma FailKeepsBytes(h: Hub, a: Agent, up: seq<Up>, s: Sys, t: Sys)
    requires BytesOk(s) && RespOk(s) && s.hub.open && t.hub == Fail(s.hub) && t.agent == s.agent && UpOk(t.up, t.agent)
    ensures BytesOk(t) && RespOk(t)
  {
    ChainSnoc(s.hub.chain, Abort);
  }

  lemma FailKeeps(s: Sys)
    requires Inv(s)
    ensures Inv(OnFail(s))
  {
    if s.hub.open {
      FailKeepsReq(s);
      FailKeepsBytes(s.hub, s.agent, s.up, s, OnFail(s));
    }
  }

  lemma WriteDone(s: Sys, t: Sys)
    requires Core(s) && s.hub.chain != [] && s.hub.chain[0].Write? && !s.hub.broken && t == OnWriterDone(s)
    ensures Core(t)
  {
    WriteDoneReq(s, t, |s.hub.chain[0].b|);
    WriteDoneBytes(s, t);
  }

  lemma WriteDoneReq(s: Sys, t: Sys, n: nat)
    requires ReqOk(s) && t.hub == s.hub.(chain := t.hub.chain, written := t.hub.written) && t.agent == s.agent
      && t.up == s.up
    requires t.down == if s.hub.open then s.down + [DAck(n)] else s.down
    ensures ReqOk(t)
  {
    DownSnoc(s.down, DAck(n));
  }

  lemma WriteDoneBytes(s: Sys, t: Sys)
    requires BytesOk(s) && RespOk(s) && s.hub.chain != [] && s.hub.chain[0].Write? && !s.hub.broken
      && t == OnWriterDone(s)
    ensures BytesOk(t) && RespOk(t)
  {
    DownSnoc(s.down, DAck(|s.hub.chain[0].b|));
    WrittenBytes(s.hub.written, s.hub.chain);
    assert Delivered(t.hub) == Delivered(s.hub);
  }

  lemma WrittenBytes(w: Bytes, c: seq<Op>)
    requires c != [] && c[0].Write?
    ensures (w + c[0].b) + ChainBytes(c[1..]) == w + ChainBytes(c)
  {
  }

  lemma WriterDoneKeeps(s: Sys)
    requires Inv(s)
    ensures Inv(OnWriterDone(s))
  {
    if s.hub.chain != [] {
      if s.hub.chain[0].Write? && !s.hub.broken { WriteDone(s, OnWriterDone(s)); } else { OpDone(s, OnWriterDone(s)); }
    }
  }

  /**
   An operation on a broken writer, or one that ends the body: only the hub's writer changes, and the stream is no
   longer open.
   */
  lemma OpDone(s: Sys, t: Sys)
    requires Core(s) && s.hub.chain != [] && (!s.hub.chain[0].Write? || s.hub.broken) && t == OnWriterDone(s)
    ensures Core(t)
  {
    OpDoneClosed(s.hub);
    OpDoneOnly(s, t);
    OpDoneReq(s, t);
    OpDoneBytes(s, t);
  }

  lemma OpDoneClosed(h: Hub)
    requires ChainOk(h) && h.chain != [] && (!h.chain[0].Write? || h.broken)
    ensures !h.open
  {
  }

  lemma OpDoneOnly(s: Sys, t: Sys)
    requires s.hub.chain != [] && (!s.hub.chain[0].Write? || s.hub.broken) && t == OnWriterDone(s)
    ensures t == s.(hub := s.hub.(chain := t.hub.chain, closedOk := t.hub.closedOk, closedNull := t.hub.closedNull,
                               aborted := t.hub.aborted, broken := t.hub.broken))
  {
  }

  lemma OpDoneBytes(s: Sys, t: Sys)
    requires RespOk(s) && BytesOk(s) && !s.hub.open && s.hub.chain != [] && t == OnWriterDone(s)
    requires !s.hub.chain[0].Write? || s.hub.broken
    ensures RespOk(t) && BytesOk(t)
  {
    if !s.hub.broken && s.hub.chain[0].CloseBody? { NoWrites(s.hub.chain[1..]); }
    assert s.hub.written <= Delivered(s.hub);
  }

  lemma OpDoneReq(s: Sys, t: Sys)
    requires ReqOk(s)
      && t == s.(hub := s.hub.(chain := t.hub.chain, closedOk := t.hub.closedOk, closedNull := t.hub.closedNull,
                               aborted := t.hub.aborted, broken := t.hub.broken))
    ensures ReqOk(t)
  {
  }

  lemma {:induction false} NoWrites(c: seq<Op>)
    requires forall k :: 0 <= k < |c| ==> !c[k].Write?
    ensures ChainBytes(c) == []
  {
    if c != [] { NoWrites(c[1..]); }
  }

  lemma NoDataDown(c: seq<Down>)
    requires forall k :: 0 <= k < |c| ==> !c[k].DData?
    ensures BytesDown(c) == []
  {
    if c != [] { NoDataDown(c[1..]); }
  }

  // -- Messages reaching the hub --

  lemma ReqFrame(s: Sys, t: Sys)
    requires ReqOk(s) && SameReq(s, t) && UploadOk(t.hub) && (s.hub.upload.Finished? ==> t.hub.upload.Finished?)
      && t.agent == s.agent
    ensures ReqOk(t)
  {
  }

  lemma UpPop(c: seq<Up>, a: Agent)
    requires c != [] && UpOk(c, a)
    ensures UpOk(c[1..], a) && (UEnd in c[1..] ==> UEnd in c)
    ensures BytesUp(c) == (if c[0].UData? then c[0].b else []) + BytesUp(c[1..])
      && AcksUp(c) == (if c[0].UAck? then c[0].n else 0) + AcksUp(c[1..])
  {
  }

  lemma HubGetsDataResp(s: Sys, t: Sys, b: Bytes)
    requires RespOk(s) && UpOk(s.up, s.agent) && s.hub.open && s.up != [] && s.up[0] == UData(b)
    requires t == s.(hub := s.hub.(chain := s.hub.chain + [Write(b)]), up := s.up[1..])
    ensures RespOk(t) && CloseBody !in t.hub.chain
    ensures Delivered(t.hub) + BytesUp(t.up) == Delivered(s.hub) + BytesUp(s.up)
  {
    UpPop(s.up, s.agent);
    ChainSnoc(s.hub.chain, Write(b));
  }

  lemma HubGetsDataBytes(s: Sys, t: Sys, b: Bytes)
    requires BytesOk(s) && s.hub.open && s.up != [] && s.up[0] == UData(b) && s.hub.headDone
      && CloseBody !in t.hub.chain
    requires t == s.(hub := s.hub.(chain := s.hub.chain + [Write(b)]), up := s.up[1..])
    requires Delivered(t.hub) + BytesUp(t.up) == Delivered(s.hub) + BytesUp(s.up)
    ensures BytesOk(t)
  {
    UpPop(s.up, s.agent);
  }

  /** A frame before the head carries nothing: the head is ahead of it in the channel. */
  lemma EarlyFrame(s: Sys, t: Sys)
    requires RespOk(s) && BytesOk(s) && s.hub.open && s.up != [] && s.up[0].UData? && !s.hub.headDone
      && t == s.(up := s.up[1..])
    ensures RespOk(t) && BytesOk(t)
  {
    assert !ResFirst(s.up);
    UpPop(s.up, s.agent);
  }

  lemma HubGetsData(s: Sys, t: Sys)
    requires Core(s) && s.hub.open && s.up != [] && s.up[0].UData? && t == OnHubRecv(s)
    ensures Core(t)
  {
    UpPop(s.up, s.agent);
    ReqFrame(s, t);
    if s.hub.headDone {
      HubGetsDataResp(s, t, s.up[0].b);
      HubGetsDataBytes(s, t, s.up[0].b);
    } else {
      EarlyFrame(s, t);
    }
  }

  lemma HubGetsEnd(s: Sys, t: Sys)
    requires Core(s) && s.hub.open && s.up != [] && s.up[0].UEnd? && t == OnHubRecv(s)
    ensures Core(t)
  {
    ChainSnoc(s.hub.chain, CloseBody);
    assert s.up == [UEnd] && BytesUp(s.up) == BytesUp([]) == [];
  }

  lemma HubOpensBody(s: Sys, t: Sys)
    requires RespOk(s) && BytesOk(s) && s.hub.open && s.up != [] && s.up[0].URes?
      && t == s.(hub := s.hub.(headDone := true), up := s.up[1..])
    ensures RespOk(t) && BytesOk(t)
  {
    UpPop(s.up, s.agent);
    RespFrame(s, t);
  }

  lemma HubClosesNull(s: Sys, t: Sys)
    requires RespOk(s) && BytesOk(s) && s.hub.open && s.up != [] && s.up[0].URes?
    requires t == s.(hub := Forget(s.hub.(headDone := true, chain := s.hub.chain + [CloseNull], nullHead := true)),
                     up := s.up[1..])
    ensures RespOk(t) && BytesOk(t)
  {
    UpPop(s.up, s.agent);
    ChainSnoc(s.hub.chain, CloseNull);
    assert Delivered(t.hub) == Delivered(s.hub) && CloseBody !in t.hub.chain;
  }

  lemma HubGetsRes(s: Sys, t: Sys)
    requires Core(s) && s.hub.open && s.up != [] && s.up[0].URes? && t == OnHubRecv(s)
    ensures Core(t)
  {
    UpPop(s.up, s.agent);
    ReqFrame(s, t);
    if s.up[0].nullBody { HubClosesNull(s, t); } else { HubOpensBody(s, t); }
  }

  lemma HubGetsErr(s: Sys, t: Sys)
    requires Core(s) && s.hub.open && s.up != [] && s.up[0].UErr? && t == OnHubRecv(s)
    ensures Core(t)
  {
    FailKeepsReq(s);
    FailKeepsBytes(s.hub, s.agent, s.up, s, t);
  }

  lemma HubGetsAck(s: Sys, t: Sys)
    requires Core(s) && s.hub.open && s.up != [] && s.up[0].UAck? && t == OnHubRecv(s)
    ensures Core(t)
    ensures !s.agent.phase.Gone? ==> s.up[0].n <= s.hub.unacked
  {
    UpPop(s.up, s.agent);
    RespFrame(s, t);
    assert Delivered(t.hub) == Delivered(s.hub);
    assert BytesOk(t);
    assert ReqOk(t);
  }

  lemma HubIgnores(s: Sys, t: Sys)
    requires Core(s) && !s.hub.open && s.up != [] && t == OnHubRecv(s)
    ensures Core(t)
  {
  }

  lemma HubRecvKeeps(s: Sys)
    requires Inv(s)
    ensures Inv(OnHubRecv(s))
  {
    var t := OnHubRecv(s);
    if s.up != [] {
      if !s.hub.open { HubIgnores(s, t); }
      else if s.up[0].URes? { HubGetsRes(s, t); }
      else if s.up[0].UData? { HubGetsData(s, t); }
      else if s.up[0].UEnd? { HubGetsEnd(s, t); }
      else if s.up[0].UErr? { HubGetsErr(s, t); }
      else { HubGetsAck(s, t); }
    }
  }

  // -- The agent --

  lemma GoneKeepsReq(s: Sys, t: Sys)
    requires ReqOk(s) && !s.agent.phase.Gone? && t.hub == s.hub && t.agent == s.agent.(phase := Gone)
    requires t.down == s.down || (s.down != [] && t.down == s.down[1..])
    requires s.agent.phase.New? ==> t.down == s.down[1..]
    ensures ReqOk(t)
  {
  }

  lemma GoneKeepsUp(c: seq<Up>, d: seq<Up>, a: Agent)
    requires UpOk(c, a) && !a.phase.Gone? && (d == c || d == c + [UErr])
    ensures UpOk(d, a.(phase := Gone)) && BytesUp(d) == BytesUp(c) && UEnd !in d && c <= d
  {
    UpSnoc(c, UErr);
  }

  lemma GoneKeepsBytes(s: Sys, t: Sys)
    requires BytesOk(s) && RespOk(s) && !s.agent.phase.Gone? && t.hub == s.hub && t.agent == s.agent.(phase := Gone)
    requires t.up == s.up || t.up == s.up + [UErr]
    ensures BytesOk(t) && RespOk(t)
  {
    GoneKeepsUp(s.up, t.up, s.agent);
    if s.hub.open && !s.hub.headDone && s.agent.hasRes { ResFirstMore(s.up, t.up); }
    assert Delivered(s.hub) + BytesUp(s.up) <= Delivered(s.hub) + BytesUp(s.up) + s.agent.pending;
  }

  /** The agent gives the stream up, with or without telling the hub. */
  lemma GoneKeeps(s: Sys, t: Sys)
    requires Core(s) && !s.agent.phase.Gone? && t.hub == s.hub && t.agent == s.agent.(phase := Gone)
    requires t.up == s.up || t.up == s.up + [UErr]
    requires t.down == s.down || (s.down != [] && t.down == s.down[1..])
    requires s.agent.phase.New? ==> t.down == s.down[1..]
    ensures Core(t)
  {
    GoneKeepsReq(s, t);
    GoneKeepsBytes(s, t);
  }

  lemma AgentGetsData(s: Sys, t: Sys, b: Bytes)
    requires Core(s) && s.down != [] && s.down[0] == DData(b) && s.agent.phase.Live? && !s.agent.reqDone
    requires t == s.(down := s.down[1..],
      agent := s.agent.(writes := s.agent.writes + [|b|], uploaded := s.agent.uploaded + b))
    ensures Core(t)
  {
    TotalSnoc(s.agent.writes, |b|);
    assert BytesDown(s.down) == b + BytesDown(t.down);
    assert s.agent.uploaded + (b + BytesDown(t.down)) == t.agent.uploaded + BytesDown(t.down);
    RespFrame(s, t);
    assert BytesOk(t);
  }

  lemma EndReq(s: Sys, t: Sys)
    requires ReqOk(s) && s.down != [] && s.down[0].DEnd? && s.agent.phase.Live?
      && t == s.(down := s.down[1..], agent := s.agent.(reqDone := true))
    ensures ReqOk(t)
  {
    NoDataDown(s.down[1..]);
    assert BytesDown(s.down) == [] + BytesDown(t.down);
  }

  lemma AgentGetsEnd(s: Sys, t: Sys)
    requires Core(s) && s.down != [] && s.down[0].DEnd? && s.agent.phase.Live?
      && t == s.(down := s.down[1..], agent := s.agent.(reqDone := true))
    ensures Core(t)
  {
    EndReq(s, t);
    RespFrame(s, t);
    EndBytes(s, t);
  }

  lemma EndBytes(s: Sys, t: Sys)
    requires BytesOk(s) && t == s.(down := t.down, agent := s.agent.(reqDone := true))
    ensures BytesOk(t)
  {
  }

  lemma AgentGetsReq(s: Sys, t: Sys)
    requires Core(s) && s.down != [] && s.agent.phase.New?
      && t == s.(down := s.down[1..], agent := s.agent.(phase := Live))
    ensures Core(t) && Settled(t.agent)
  {
    StartBytes(s, t);
    StartResp(s, t);
  }

  lemma StartBytes(s: Sys, t: Sys)
    requires BytesOk(s) && s.agent.phase.New? && t == s.(down := t.down, agent := s.agent.(phase := Live))
    ensures BytesOk(t)
  {
  }

  lemma StartResp(s: Sys, t: Sys)
    requires RespOk(s) && DownOk(s.down, s.agent.phase) && s.down != [] && s.agent.phase.New?
    requires t == s.(down := s.down[1..], agent := s.agent.(phase := Live))
    ensures RespOk(t)
  {
  }

  /** A message for a stream the agent has forgotten, or body bytes past its end. */
  lemma AgentIgnores(s: Sys, t: Sys)
    requires Core(s) && s.down != [] && t == s.(down := s.down[1..])
    requires s.agent.phase.Gone? || (s.agent.phase.Live? && s.down[0].DData? && s.agent.reqDone)
    ensures Core(t)
  {
  }

  lemma AckReq(s: Sys, t: Sys)
    requires ReqOk(s) && s.down != [] && s.down[0].DAck? && s.agent.phase.Live?
    requires t == s.(down := s.down[1..], agent := s.agent.(inflight := t.agent.inflight))
    ensures ReqOk(t)
  {
  }

  lemma AckResp(s: Sys, t: Sys, n: nat)
    requires RespOk(s) && s.down != [] && s.down[0] == DAck(n) && s.agent.phase.Live?
    requires t == s.(down := s.down[1..], agent := Credited(s.agent, n))
    ensures RespOk(t)
    ensures s.hub.open ==> n <= s.agent.inflight
  {
  }

  lemma AckKeeps(s: Sys, t: Sys, n: nat, a: Agent, r: Sys)
    requires Inv(s) && s.down != [] && s.down[0] == DAck(n) && s.agent.phase.Live? && t == s.(down := s.down[1..])
    requires a == Credited(s.agent, n) && r == Pumped(t, a)
    ensures Inv(r)
  {
    AckReady(s, t, n, a);
    PumpKeeps(t, a);
  }

  lemma AckReady(s: Sys, t: Sys, n: nat, a: Agent)
    requires Inv(s) && s.down != [] && s.down[0] == DAck(n) && s.agent.phase.Live? && t == s.(down := s.down[1..])
    requires a == Credited(s.agent, n)
    ensures Core(t.(agent := a)) && (s.hub.open ==> n <= s.agent.inflight)
    ensures a.phase.Live? && (a.pending != [] ==> a.timer || a.due) && (a.hasRes || !a.ended) && Paced(a)
  {
    AckCore(s, t, n, a);
    HeadBeforeBatch(s);
  }

  lemma AckCore(s: Sys, t: Sys, n: nat, a: Agent)
    requires Core(s) && s.down != [] && s.down[0] == DAck(n) && s.agent.phase.Live? && t == s.(down := s.down[1..])
    requires a == Credited(s.agent, n)
    ensures Core(t.(agent := a)) && (s.hub.open ==> n <= s.agent.inflight)
  {
    AckReq(s, t.(agent := a));
    AckResp(s, t.(agent := a), n);
    AckBytes(s, t.(agent := a));
  }

  lemma AckBytes(s: Sys, t: Sys)
    requires BytesOk(s) && t == s.(down := t.down, agent := s.agent.(inflight := t.agent.inflight))
    ensures BytesOk(t)
  {
  }

  lemma BodyKeeps(s: Sys, t: Sys, b: Bytes, accept: bool)
    requires Inv(s) && s.down != [] && s.down[0] == DData(b) && s.agent.phase.Live? && t == s.(down := s.down[1..])
    ensures Inv(OnBody(t, b, accept))
  {
    if s.agent.reqDone { AgentIgnores(s, t); }
    else if accept { AgentGetsData(s, OnBody(t, b, accept), b); }
    else { GoneKeeps(s, GiveUp(t)); }
  }

  lemma LiveRecvKeeps(s: Sys, t: Sys, m: Down, accept: bool, r: Sys)
    requires Inv(s) && s.down != [] && s.agent.phase.Live? && m == s.down[0] && t == s.(down := s.down[1..])
      && r == OnAgentRecv(s, accept)
    ensures Inv(r)
  {
    if m.DAck? { AckKeeps(s, t, m.n, Credited(t.agent, m.n), r); }
    else if m.DData? { assert r == OnBody(t, m.b, accept); BodyKeeps(s, t, m.b, accept); }
    else if m.DEnd? { AgentGetsEnd(s, r); }
    else { GoneKeeps(s, r); }
  }

  lemma NewRecvKeeps(s: Sys, t: Sys, accept: bool, r: Sys)
    requires Inv(s) && s.down != [] && s.agent.phase.New? && t == s.(down := s.down[1..]) && r == OnAgentRecv(s, accept)
    ensures Inv(r)
  {
    if accept { AgentGetsReq(s, r); } else { GoneKeeps(s, r); }
  }

  lemma AgentRecvKeeps(s: Sys, accept: bool)
    requires Inv(s)
    ensures Inv(OnAgentRecv(s, accept))
  {
    if s.down != [] {
      var t := s.(down := s.down[1..]);
      if s.agent.phase.Gone? { AgentIgnores(s, t); }
      else if s.agent.phase.New? { NewRecvKeeps(s, t, accept, OnAgentRecv(s, accept)); }
      else { LiveRecvKeeps(s, t, s.down[0], accept, OnAgentRecv(s, accept)); }
    }
  }

  /** A completed write moves its bytes to the unacked ones, or with them into an ack. */
  lemma WrittenReq(s: Sys, t: Sys, n: nat)
    requires ReqOk(s) && s.agent.writes != [] && s.agent.phase.Live? && n == s.agent.unacked + s.agent.writes[0]
    requires t.hub == s.hub && t.down == s.down
      && t.agent == s.agent.(writes := s.agent.writes[1..], unacked := if n >= MAX_FRAME_BYTES then 0 else n)
    requires AcksUp(t.up) == AcksUp(s.up) + if n >= MAX_FRAME_BYTES then n else 0
    ensures ReqOk(t)
  {
    assert Total(s.agent.writes) == s.agent.writes[0] + Total(t.agent.writes);
  }

  lemma WrittenLate(s: Sys, t: Sys)
    requires ReqOk(s) && s.agent.phase.Gone? && t == s.(agent := s.agent.(writes := t.agent.writes))
    ensures ReqOk(t)
  {
  }

  lemma WrittenLive(s: Sys, t: Sys, n: nat)
    requires Inv(s) && s.agent.writes != [] && s.agent.phase.Live? && n == s.agent.unacked + s.agent.writes[0]
    requires t == Counted(s, n)
    ensures Inv(t)
  {
    UpSnoc(s.up, UAck(n));
    WrittenReq(s, t, n);
    RespFrame(s, t);
    WrittenUp(s, t);
  }

  lemma LateKeeps(s: Sys, t: Sys)
    requires Inv(s) && s.agent.phase.Gone? && t == s.(agent := s.agent.(writes := t.agent.writes))
    ensures Inv(t)
  {
    WrittenLate(s, t);
    RespFrame(s, t);
    WrittenUp(s, t);
  }

  lemma WrittenKeeps(s: Sys)
    requires Inv(s)
    ensures Inv(OnWritten(s))
  {
    var t := OnWritten(s);
    if s.agent.writes != [] {
      assert !s.agent.phase.New?;
      if s.agent.phase.Live? { WrittenLive(s, t, s.agent.unacked + s.agent.writes[0]); } else { LateKeeps(s, t); }
    }
  }

  lemma WrittenUp(s: Sys, t: Sys)
    requires BytesOk(s) && t.hub == s.hub
      && (t.up == s.up || (s.agent.phase.Live? && exists n :: t.up == s.up + [UAck(n)]))
    requires t.agent == s.agent.(
      writes := t.agent.writes, unacked := t.agent.unacked, failed := t.agent.failed, upError := t.agent.upError)
    ensures BytesOk(t)
  {
    if t.up != s.up {
      var n :| t.up == s.up + [UAck(n)];
      UpSnoc(s.up, UAck(n));
      if s.hub.open && !s.hub.headDone && s.agent.hasRes { ResFirstMore(s.up, t.up); }
    }
  }

  lemma WriteFailedKeeps(s: Sys)
    requires Inv(s)
    ensures Inv(OnWriteFailed(s))
  {
    var t := OnWriteFailed(s);
    if s.agent.writes != [] {
      RespFrame(s, t);
      WrittenUp(s, t);
    }
  }

  lemma {:induction false} AcksThenRes(c: seq<Up>, m: Up)
    requires (forall i :: 0 <= i < |c| ==> c[i].UAck?) && m.URes?
    ensures ResFirst(c + [m])
  {
    if c != [] {
      AcksThenRes(c[1..], m);
      assert (c + [m])[1..] == c[1..] + [m];
    }
  }

  lemma HeadKeeps(s: Sys, nullBody: bool)
    requires Inv(s)
    ensures Inv(OnHead(s, nullBody))
  {
    var t := OnHead(s, nullBody);
    if s.agent.phase.Live? && !s.agent.hasRes {
      UpSnoc(s.up, URes(nullBody));
      AcksThenRes(s.up, URes(nullBody));
      RespFrame(s, t);
      assert BytesOk(t);
    }
  }

  lemma ChunkCore(s: Sys, a: Agent, chunk: Bytes)
    requires Core(s) && s.agent.phase.Live? && s.agent.hasRes && !s.agent.ended
    requires a == s.agent.(pending := s.agent.pending + chunk, upRead := s.agent.upRead + chunk, paused := a.paused,
      timer := a.timer)
    ensures Core(s.(agent := a))
  {
    var x := Delivered(s.hub) + BytesUp(s.up);
    assert x + (s.agent.pending + chunk) == (x + s.agent.pending) + chunk;
    assert Delivered(s.hub) <= s.agent.upRead <= a.upRead;
  }

  lemma ChunkKeeps(s: Sys, chunk: Bytes)
    requires Inv(s)
    ensures Inv(OnChunk(s, chunk))
  {
    var a := s.agent;
    if a.phase.Live? && a.hasRes && !a.ended {
      var b := a.(pending := a.pending + chunk, upRead := a.upRead + chunk);
      var c := b.(paused := b.paused || b.inflight + |b.pending| >= WINDOW_BYTES, timer := b.timer || !b.due);
      ChunkCore(s, c, chunk);
      PumpKeeps(s, c);
    }
  }

  lemma FlagsCore(s: Sys, a: Agent)
    requires Core(s) && s.agent.phase.Live? && a == s.agent.(timer := a.timer, due := a.due, ended := a.ended)
    ensures Core(s.(agent := a))
  {
  }

  lemma TimerKeeps(s: Sys)
    requires Inv(s)
    ensures Inv(OnTimer(s))
  {
    if s.agent.phase.Live? && s.agent.timer {
      var a := s.agent.(timer := false, due := true);
      FlagsCore(s, a);
      HeadBeforeBatch(s);
      PumpKeeps(s, a);
    }
  }

  /** Before the head nothing has ended. */
  lemma HeadBeforeBatch(s: Sys)
    requires Inv(s) && s.agent.phase.Live?
    ensures s.agent.hasRes || !s.agent.ended
  {
  }

  lemma EndKeeps(s: Sys)
    requires Inv(s)
    ensures Inv(OnEnd(s))
  {
    if s.agent.phase.Live? && s.agent.hasRes && !s.agent.ended {
      FlagsCore(s, s.agent.(ended := true));
      PumpKeeps(s, s.agent.(ended := true));
    }
  }

  lemma ErrorKeeps(s: Sys)
    requires Inv(s)
    ensures Inv(OnError(s))
  {
    if s.agent.phase.Live? { GoneKeeps(s, OnError(s)); }
  }

  /** Events at the agent's end. */
  predicate AtAgent(e: Event) {
    e.ARecv? || e.AWritten? || e.AWriteFailed? || e.AHead? || e.AChunk? || e.ATimer? || e.AEnd? || e.AError?
  }

  lemma StepKeeps(s: Sys, e: Event)
    requires Inv(s)
    ensures Inv(Step(s, e))
  {
    if AtAgent(e) {
      AgentStepKeeps(s, e, Step(s, e));
    } else {
      HubStepKeeps(s, e, Step(s, e));
    }
  }

  lemma HubStepKeeps(s: Sys, e: Event, t: Sys)
    requires Inv(s) && t == Step(s, e)
    requires !AtAgent(e)
    ensures Inv(t)
  {
    match e
    case HRead(value) => ReadKeeps(s, value);
    case HReadEnd => ReadEndKeeps(s);
    case HCheck => CheckKeeps(s);
    case HSend => SendKeeps(s);
    case HRecv => HubRecvKeeps(s);
    case HWriterDone => WriterDoneKeeps(s);
    case HClientGone => ClientGoneKeeps(s);
    case HAbort => AbortKeeps(s);
    case HFail => FailKeeps(s);
    case _ =>
  }

  lemma AgentStepKeeps(s: Sys, e: Event, t: Sys)
    requires Inv(s) && t == Step(s, e)
    requires AtAgent(e)
    ensures Inv(t)
  {
    match e
    case ARecv(accept) => AgentRecvKeeps(s, accept);
    case AWritten => WrittenKeeps(s);
    case AWriteFailed => WriteFailedKeeps(s);
    case AHead(nullBody) => HeadKeeps(s, nullBody);
    case AChunk(chunk) => ChunkKeeps(s, chunk);
    case ATimer => TimerKeeps(s);
    case AEnd => EndKeeps(s);
    case AError => ErrorKeeps(s);
    case _ =>
  }

  lemma {:induction false} RunKeeps(events: seq<Event>)
    ensures Inv(Run(events))
  {
    if events == [] { StartKeeps(); } else {
      RunKeeps(events[..|events| - 1]);
      StepKeeps(Run(events[..|events| - 1]), events[|events| - 1]);
    }
  }

  // ---- What this means for every interleaving ----

  /** Both ends still hold the stream. */
  predicate BothLive(s: Sys) { s.hub.open && s.agent.phase.Live? }

  /** In both directions, the sender's count is what is outstanding, and never more than the window. */
  lemma FlowIsConserved(events: seq<Event>)
    ensures var s := Run(events);
      && s.hub.unacked <= WINDOW_BYTES && s.agent.inflight <= WINDOW_BYTES
      && (BothLive(s) ==>
            && s.hub.unacked
              == |BytesDown(s.down)| + Total(s.agent.writes) + s.agent.failed + s.agent.unacked + AcksUp(s.up)
            && s.agent.inflight == |BytesUp(s.up)| + |ChainBytes(s.hub.chain)| + AcksDown(s.down))
  {
    RunKeeps(events);
  }

  /** An ack never exceeds what its receiver counts, so neither clamp at zero is ever used. */
  lemma AcksNeverClamp(events: seq<Event>)
    ensures var s := Run(events);
      && (BothLive(s) && s.up != [] && s.up[0].UAck? ==> s.up[0].n <= s.hub.unacked)
      && (BothLive(s) && s.down != [] && s.down[0].DAck? ==> s.down[0].n <= s.agent.inflight)
  {
    RunKeeps(events);
    var s := Run(events);
    if BothLive(s) && s.up != [] && s.up[0].UAck? { HubGetsAck(s, OnHubRecv(s)); }
    if BothLive(s) && s.down != [] && s.down[0].DAck? {
      AckReady(s, s.(down := s.down[1..]), s.down[0].n, Credited(s.agent, s.down[0].n));
    }
  }

  /**
   The client has received a prefix of what upstream sent, whatever failed; its body closes normally only when
   upstream ended and all of it was received. Upstream got a prefix of the client's body, and the end only after all of
   it.
   */
  lemma BytesArriveInOrder(events: seq<Event>)
    ensures var s := Run(events);
      && s.hub.written <= s.agent.upRead
      && (s.hub.closedOk ==> s.hub.written == s.agent.upRead && s.agent.ended)
      && s.agent.uploaded <= s.hub.got && (s.agent.reqDone ==> s.agent.uploaded == s.hub.got)
  {
    RunKeeps(events);
    var s := Run(events);
    assert s.hub.written <= Delivered(s.hub);
  }

  /**
   A hub held back by the window has a frame, a write, an ack or upstream's error event outstanding; an agent that holds
   back bytes or upstream has its timer, a frame, a write or an ack.
   */
  lemma BlockedHasWork(events: seq<Event>)
    ensures var s := Run(events);
      && (BothLive(s) && s.hub.upload.Blocked? ==>
        BytesDown(s.down) != [] || s.agent.writes != [] || AcksUp(s.up) > 0 || s.agent.upError)
      && (BothLive(s) && s.agent.pending != [] ==> s.agent.timer || s.agent.due)
      && (BothLive(s) && (s.agent.paused || (s.agent.pending != [] && !s.agent.timer)) ==>
            s.agent.timer || BytesUp(s.up) != [] || ChainBytes(s.hub.chain) != [] || AcksDown(s.down) > 0)
  {
    RunKeeps(events);
    var s := Run(events);
    if BothLive(s) && s.hub.upload.Blocked? { assert PartsOk(s.hub.upload.parts); }
  }

  /**
   Nothing is left that could happen without a new byte from the client or upstream, but for the end of the upload.
   */
  predicate Quiescent(s: Sys) {
    s.down == [] && s.up == [] && s.agent.writes == [] && !s.agent.upError && s.hub.chain == [] && !s.agent.timer
    && (s.hub.upload.Reading? || s.hub.upload.Finished? || s.hub.upload.Blocked?)
  }

  /** While the response lasts, upstream is paused exactly when a full window is queued or in flight. */
  lemma UpstreamIsPaced(events: seq<Event>)
    ensures var a := Run(events).agent;
      a.phase.Live? && !a.ended ==> (a.paused <==> a.inflight + |a.pending| >= WINDOW_BYTES)
  {
    RunKeeps(events);
  }

  /**
   Flow control cannot deadlock: a live stream with nothing outstanding has delivered every byte both ways and holds
   nobody back.
   */
  lemma NoDeadlock(events: seq<Event>)
    ensures var s := Run(events);
      BothLive(s) && Quiescent(s) ==>
        && !s.hub.upload.Blocked? && !s.agent.paused && s.agent.pending == []
        && s.hub.written == s.agent.upRead && s.agent.uploaded == s.hub.got && s.agent.inflight == 0
          && s.hub.unacked < MAX_FRAME_BYTES
  {
    RunKeeps(events);
    BlockedHasWork(events);
    var s := Run(events);
    if BothLive(s) && Quiescent(s) {
      assert s.hub.got == s.agent.uploaded + [] + Flatten(Rest(s.hub.upload));
    }
  }
}
