/**
 How a relay stream ends for the client (relay/src/hub.ts:133-135, 228-313): once the hub has forgotten it and the
 client's writer has worked off its queue, the client has an answer. Nothing is left open unless the client itself left.
 */
module RelayEnds {
  import opened Wrappers
  import opened RelayFrames
  import opened RelayStream
  import opened RelaySafety

  // ---- What is queued for the client's writer comes about ----

  /** The writer still works, and the last of its queue is `op`, after nothing but writes. */
  ghost predicate Queued(h: Hub, op: Op) {
    && !h.broken && h.chain != [] && h.chain[|h.chain| - 1] == op
    && forall k :: 0 <= k < |h.chain| - 1 ==> h.chain[k].Write?
  }

  predicate Came(h: Hub, op: Op) {
    match op
    case Write(_) => false
    case CloseBody => h.closedOk
    case CloseNull => h.closedNull
    case Abort => h.aborted
  }

  /** The stream is forgotten, and `op` ended the client's body or will, and nothing else does. */
  ghost predicate Fated(h: Hub, op: Op) {
    && !h.open && ((Came(h, op) && h.broken) || Queued(h, op))
    && (h.closedOk ==> op == CloseBody) && (h.closedNull ==> op == CloseNull) && (h.aborted ==> op == Abort)
  }

  /** The client got an error for a head, and its body is left alone. */
  predicate ErrorOnly(h: Hub) {
    !h.open && h.errHead && h.chain == [] && !h.closedOk && !h.closedNull && !h.aborted
  }

  /** Events that the client can notice. */
  predicate AtClient(e: Event) { e.HRecv? || e.HWriterDone? || e.HClientGone? || e.HAbort? || e.HFail? }

  /** What the client can notice is as it was. */
  predicate SameClient(h: Hub, h': Hub) {
    && h'.open == h.open && h'.headDone == h.headDone && h'.chain == h.chain && h'.broken == h.broken
    && h'.written == h.written && h'.closedOk == h.closedOk && h'.errHead == h.errHead
    && h'.closedNull == h.closedNull && h'.aborted == h.aborted && h'.nullHead == h.nullHead
  }

  lemma OthersUnnoticed(s: Sys, e: Event)
    requires !AtClient(e)
    ensures SameClient(s.hub, Step(s, e).hub)
  {
    if AtAgent(e) { AgentLeavesHub(s, e); } else { UploadUnnoticed(s, e, Step(s, e)); }
  }

  /** A step of the upload: the client, the agent and the way back see nothing of it. */
  ghost predicate OnlyUploads(s: Sys, t: Sys) {
    && t.hub == s.hub.(unacked := t.hub.unacked, upload := t.hub.upload, got := t.hub.got, sent := t.hub.sent)
    && t.agent == s.agent && t.up == s.up && (DCancel in t.down <==> DCancel in s.down)
  }

  lemma UploadUnnoticed(s: Sys, e: Event, t: Sys)
    requires (e.HRead? || e.HReadEnd? || e.HCheck? || e.HSend?) && t == Step(s, e)
    ensures OnlyUploads(s, t)
  {
    match e
    case HRead(_) =>
    case HReadEnd => NoCancel(s.down, DEnd);
    case HCheck =>
    case HSend => SendUnnoticed(s);
    case _ =>
  }

  lemma SendUnnoticed(s: Sys)
    ensures OnlyUploads(s, OnSend(s))
  {
    if s.hub.upload.Ready? && s.hub.upload.parts != [] { NoCancel(s.down, DData(s.hub.upload.parts[0])); }
  }

  lemma NoCancel(c: seq<Down>, m: Down)
    requires !m.DCancel?
    ensures DCancel in c + [m] <==> DCancel in c
  {
  }

  /** Nothing at the agent's end touches the hub at once. */
  lemma AgentLeavesHub(s: Sys, e: Event)
    requires AtAgent(e)
    ensures Step(s, e).hub == s.hub
  {
    match e
    case ARecv(accept) => AgentRecvLeavesHub(s, accept);
    case AChunk(chunk) => ChunkLeavesHub(s, chunk);
    case ATimer => PumpedLeavesHub(s, s.agent.(timer := false, due := true));
    case AEnd => PumpedLeavesHub(s, s.agent.(ended := true));
    case _ =>
  }

  lemma PumpedLeavesHub(s: Sys, a: Agent)
    ensures Pumped(s, a).hub == s.hub
  {
  }

  lemma ChunkLeavesHub(s: Sys, chunk: Bytes)
    ensures OnChunk(s, chunk).hub == s.hub
  {
  }

  lemma AgentRecvLeavesHub(s: Sys, accept: bool)
    ensures OnAgentRecv(s, accept).hub == s.hub
  {
  }

  lemma FatedStays(s: Sys, e: Event, op: Op)
    requires Fated(s.hub, op) && !e.HClientGone? && !op.Write?
    ensures Fated(Step(s, e).hub, op)
  {
    if !AtClient(e) { OthersUnnoticed(s, e); }
    else if e.HWriterDone? { WriterNears(s, op); }
  }

  lemma WriterNears(s: Sys, op: Op)
    requires Fated(s.hub, op) && !op.Write?
    ensures Fated(OnWriterDone(s).hub, op)
  {
    if Queued(s.hub, op) && |s.hub.chain| > 1 {
      assert s.hub.chain[0].Write?;
      assert s.hub.chain[1..][|s.hub.chain| - 2] == op;
    }
  }

  lemma {:induction false} FatedRun(events: seq<Event>, n: nat, m: nat, op: Op)
    requires n <= m <= |events| && Fated(Run(events[..n]).hub, op) && !op.Write?
    requires forall i :: n <= i < m ==> !events[i].HClientGone?
    ensures Fated(Run(events[..m]).hub, op)
  {
    if n < m {
      FatedRun(events, n, m - 1, op);
      RunNext(events, m - 1);
      FatedStays(Run(events[..m - 1]), events[m - 1], op);
    }
  }

  lemma RunNext(events: seq<Event>, n: nat)
    requires n < |events|
    ensures Run(events[..n + 1]) == Step(Run(events[..n]), events[n])
  {
    assert events[..n + 1][..n] == events[..n];
  }

  /** A forgotten stream's queue only shrinks, and by one whenever the writer is done with an operation. */
  lemma QueueDrains(s: Sys, e: Event)
    requires !s.hub.open
    ensures |Step(s, e).hub.chain| == if e.HWriterDone? && s.hub.chain != [] then |s.hub.chain| - 1 else |s.hub.chain|
  {
    if !AtClient(e) { OthersUnnoticed(s, e); }
  }

  // ---- What ends the client's body, from its cause ----

  /** The hub, with the stream open, takes the response's end. */
  predicate TakesEnd(s: Sys, e: Event) { e.HRecv? && s.hub.open && s.up != [] && s.up[0].UEnd? }

  /** It takes the head of a response without a body. */
  predicate TakesNull(s: Sys, e: Event) { e.HRecv? && s.hub.open && s.up != [] && s.up[0] == URes(true) }

  /** It fails the stream: the node reports an error, or a timer, a lost socket or a cap at the hub. */
  predicate Fails(s: Sys, e: Event) { s.hub.open && (e.HFail? || (e.HRecv? && s.up != [] && s.up[0].UErr?)) }

  lemma CauseQueues(s: Sys, e: Event)
    requires Inv(s)
    ensures TakesEnd(s, e) ==> Fated(Step(s, e).hub, CloseBody)
    ensures TakesNull(s, e) ==> Fated(Step(s, e).hub, CloseNull)
    ensures Fails(s, e) && s.hub.headDone ==> Fated(Step(s, e).hub, Abort)
    ensures Fails(s, e) && !s.hub.headDone ==> ErrorOnly(Step(s, e).hub)
  {
    if s.hub.open {
      FailQueues(s.hub);
      if e.HRecv? && s.up != [] { TakenQueues(s.hub, s.up[0]); }
    }
  }

  lemma FailQueues(h: Hub)
    requires ChainOk(h) && h.open && !h.closedOk && (!h.headDone ==> h.chain == [])
    ensures if h.headDone then Fated(Fail(h), Abort) else ErrorOnly(Fail(h))
  {
    LastQueued(h, Abort);
  }

  lemma TakenQueues(h: Hub, m: Up)
    requires ChainOk(h) && h.open && !h.closedOk
    ensures m.UEnd? ==> Fated(HubTakes(h, m), CloseBody)
    ensures m == URes(true) ==> Fated(HubTakes(h, m), CloseNull)
    ensures m.UErr? ==> HubTakes(h, m) == Fail(h)
  {
    LastQueued(h, CloseBody);
    LastQueued(h, CloseNull);
  }

  /** An operation added to an open hub's queue is the last of it. */
  lemma LastQueued(h: Hub, op: Op)
    requires ChainOk(h) && h.open && !h.closedOk
    ensures Queued(h.(chain := h.chain + [op]), op)
  {
  }

  /**
   Once the open hub has taken the response's end, and unless the client leaves, the body is closed as soon as the queue
   is worked off, and the client then has exactly what upstream sent.
   */
  lemma EndClosesBody(events: seq<Event>, n: nat, m: nat)
    requires n < m <= |events| && TakesEnd(Run(events[..n]), events[n])
    requires forall i :: n < i < m ==> !events[i].HClientGone?
    ensures var s := Run(events[..m]); s.hub.chain == [] ==> s.hub.closedOk && s.hub.written == s.agent.upRead
  {
    RunKeeps(events[..n]);
    CauseQueues(Run(events[..n]), events[n]);
    RunNext(events, n);
    FatedRun(events, n + 1, m, CloseBody);
    RunKeeps(events[..m]);
  }

  /** A response without a body is closed, in the same way. */
  lemma NullHeadClosesBody(events: seq<Event>, n: nat, m: nat)
    requires n < m <= |events| && TakesNull(Run(events[..n]), events[n])
    requires forall i :: n < i < m ==> !events[i].HClientGone?
    ensures var s := Run(events[..m]); s.hub.chain == [] ==> s.hub.closedNull
  {
    RunKeeps(events[..n]);
    CauseQueues(Run(events[..n]), events[n]);
    RunNext(events, n);
    FatedRun(events, n + 1, m, CloseNull);
  }

  /** A failure before the head answers with an error at once and leaves the body alone; one after it aborts the body,
  and
   does not close it. */
  lemma FailureAbortsBody(events: seq<Event>, n: nat, m: nat)
    requires n < m <= |events| && Fails(Run(events[..n]), events[n])
    requires forall i :: n < i < m ==> !events[i].HClientGone?
    ensures var s := Run(events[..m]);
      if Run(events[..n]).hub.headDone then s.hub.chain == [] ==> s.hub.aborted && !s.hub.closedOk
      else s.hub.errHead && !s.hub.aborted && !s.hub.closedOk && !s.hub.closedNull
  {
    RunKeeps(events[..n]);
    CauseQueues(Run(events[..n]), events[n]);
    RunNext(events, n);
    if Run(events[..n]).hub.headDone {
      FatedRun(events, n + 1, m, Abort);
    } else {
      ErrHeadStays(events, n + 1, m);
    }
  }

  lemma {:induction false} ErrHeadStays(events: seq<Event>, n: nat, m: nat)
    requires n <= m <= |events| && ErrorOnly(Run(events[..n]).hub)
    ensures ErrorOnly(Run(events[..m]).hub)
  {
    if n < m {
      ErrHeadStays(events, n, m - 1);
      RunNext(events, m - 1);
      StepKeepsErr(Run(events[..m - 1]), events[m - 1]);
    }
  }

  lemma StepKeepsErr(s: Sys, e: Event)
    requires ErrorOnly(s.hub)
    ensures ErrorOnly(Step(s, e).hub)
  {
    if !AtClient(e) { OthersUnnoticed(s, e); }
  }

  // ---- Every stream ends ----

  /** The client has an error for a head, or its body has ended or will. */
  ghost predicate Answered(h: Hub) {
    h.open || ErrorOnly(h) || Fated(h, CloseBody) || Fated(h, CloseNull) || Fated(h, Abort)
  }

  lemma AnsweredStays(s: Sys, e: Event)
    requires Inv(s) && Answered(s.hub) && !e.HClientGone? && !e.HAbort?
    ensures Answered(Step(s, e).hub)
  {
    if ErrorOnly(s.hub) {
      StepKeepsErr(s, e);
    } else if !s.hub.open {
      var op :| op in {CloseBody, CloseNull, Abort} && Fated(s.hub, op);
      FatedStays(s, e, op);
    } else if !AtClient(e) {
      OthersUnnoticed(s, e);
    } else {
      OpenAnswered(s, e);
    }
  }

  lemma OpenAnswered(s: Sys, e: Event)
    requires Inv(s) && s.hub.open && (e.HRecv? || e.HWriterDone? || e.HFail?)
    ensures Answered(Step(s, e).hub)
  {
    match e
    case HRecv => if s.up != [] { RecvAnswered(s.hub, s.up[0]); }
    case HWriterDone => WriterLeavesOpen(s);
    case HFail => FailQueues(s.hub);
    case _ =>
  }

  lemma RecvAnswered(h: Hub, m: Up)
    requires ChainOk(h) && h.open && !h.closedOk && (!h.headDone ==> h.chain == [])
    ensures Answered(HubTakes(h, m))
  {
    OpenTakes(h, m);
    TakenQueues(h, m);
    FailQueues(h);
  }

  /** Only the end, the head of an empty response and an error make the hub forget a stream. */
  lemma OpenTakes(h: Hub, m: Up)
    ensures HubTakes(h, m).open <==> h.open && !m.UEnd? && !m.UErr? && m != URes(true)
    ensures HubTakes(h, m).nullHead <==> h.nullHead || (h.open && m == URes(true))
  {
  }

  lemma WriterLeavesOpen(s: Sys)
    requires s.hub.open
    ensures OnWriterDone(s).hub.open
  {
  }

  lemma {:induction false} AnsweredRun(events: seq<Event>, n: nat)
    requires n <= |events| && forall i :: 0 <= i < n ==> !events[i].HClientGone? && !events[i].HAbort?
    ensures Answered(Run(events[..n]).hub)
  {
    if n > 0 {
      AnsweredRun(events, n - 1);
      RunKeeps(events[..n - 1]);
      RunNext(events, n - 1);
      AnsweredStays(Run(events[..n - 1]), events[n - 1]);
    }
  }

  /**
   Over every run in which the client stays: once the stream is forgotten and the queue worked off, the client has got
   an error for a head, or its body was closed with all that upstream sent, closed for want of a body, or aborted.
   */
  lemma EveryStreamEnds(events: seq<Event>)
    requires forall i :: 0 <= i < |events| ==> !events[i].HClientGone? && !events[i].HAbort?
    ensures var s := Run(events);
      !s.hub.open && s.hub.chain == [] ==>
        s.hub.errHead || (s.hub.closedOk && s.hub.written == s.agent.upRead) || s.hub.closedNull || s.hub.aborted
  {
    AnsweredRun(events, |events|);
    assert events[..|events|] == events;
    RunKeeps(events);
    AnsweredEnds(Run(events).hub);
    ClosedHasAll(Run(events));
  }

  lemma AnsweredEnds(h: Hub)
    ensures Answered(h) && !h.open && h.chain == [] ==> h.errHead || h.closedOk || h.closedNull || h.aborted
  {
  }

  lemma ClosedHasAll(s: Sys)
    requires Inv(s)
    ensures s.hub.closedOk ==> s.hub.written == s.agent.upRead
  {
  }

  // ---- Each end learns that the other has left ----

  /** What tells the hub that the agent has left, and the agent that the hub has. */
  ghost predicate Told(s: Sys) {
    && (s.hub.open && s.agent.phase.Gone? ==> UEnd in s.up || UErr in s.up)
    && (!s.hub.open && !s.agent.phase.Gone? ==> DCancel in s.down || s.hub.nullHead)
    && (DCancel in s.down ==> !s.hub.open) && (UErr in s.up ==> s.agent.phase.Gone?)
  }

  lemma PumpTells(s: Sys, a: Agent)
    requires Told(s) && s.agent.phase.Live? && a.phase.Live?
    ensures Told(Pumped(s, a))
  {
    if a.inflight <= WINDOW_BYTES {
      var frames := Frames(a.pending, a.inflight, a.due || a.ended);
      FramesFit(a.pending, a.inflight, a.due || a.ended);
      FramesUp(frames);
    }
  }

  lemma AgentTells(s: Sys, e: Event)
    requires Inv(s) && Told(s) && AtAgent(e) && !e.ARecv?
    ensures Told(Step(s, e))
  {
    match e
    case AChunk(chunk) => ChunkTells(s, chunk);
    case ATimer => if s.agent.phase.Live? && s.agent.timer { PumpTells(s, s.agent.(timer := false, due := true)); }
    case AEnd =>
      if s.agent.phase.Live? && s.agent.hasRes && !s.agent.ended { PumpTells(s, s.agent.(ended := true)); }
    case _ =>
  }

  lemma ChunkTells(s: Sys, chunk: Bytes)
    requires Told(s)
    ensures Told(OnChunk(s, chunk))
  {
    var a := s.agent;
    if a.phase.Live? && a.hasRes && !a.ended {
      var b := a.(pending := a.pending + chunk, upRead := a.upRead + chunk);
      PumpTells(s, b.(paused := b.paused || b.inflight + |b.pending| >= WINDOW_BYTES, timer := b.timer || !b.due));
    }
  }

  lemma RecvTells(s: Sys, accept: bool)
    requires Inv(s) && Told(s)
    ensures Told(OnAgentRecv(s, accept))
  {
    if s.down != [] {
      var m, t := s.down[0], s.(down := s.down[1..]);
      assert s.down == [m] + t.down;
      if m.DAck? && s.agent.phase.Live? {
        AckTells(s, t, m.n);
        RecvIsAck(s, m.n, accept);
      } else {
        OthersTell(s, t, m, accept);
      }
    }
  }

  lemma ARecvTells(s: Sys, accept: bool)
    requires Inv(s) && Told(s)
    ensures Told(Step(s, ARecv(accept)))
  {
    RecvTells(s, accept);
  }

  lemma AckTells(s: Sys, t: Sys, n: nat)
    requires Told(s) && s.agent.phase.Live? && s.down == [DAck(n)] + t.down && t == s.(down := t.down)
    ensures Told(OnAck(t, n))
  {
    PumpTells(t, Credited(t.agent, n));
  }

  lemma RecvIsAck(s: Sys, n: nat, accept: bool)
    requires s.agent.phase.Live? && s.down != [] && s.down[0] == DAck(n)
    ensures OnAgentRecv(s, accept) == OnAck(s.(down := s.down[1..]), n)
  {
  }

  lemma OthersTell(s: Sys, t: Sys, m: Down, accept: bool)
    requires Inv(s) && Told(s) && s.down == [m] + t.down && t == s.(down := t.down)
    requires !(m.DAck? && s.agent.phase.Live?)
    ensures Told(OnAgentRecv(s, accept))
  {
    assert s.down[1..] == t.down;
  }

  lemma HubTells(s: Sys, e: Event)
    requires Inv(s) && Told(s) && !AtAgent(e)
    ensures Told(Step(s, e))
  {
    if e.HRecv? { HubRecvTells(s); }
    else if !AtClient(e) { UploadUnnoticed(s, e, Step(s, e)); }
    else { WriterTells(s, e); }
  }

  lemma WriterTells(s: Sys, e: Event)
    requires Inv(s) && Told(s) && AtClient(e) && !e.HRecv?
    ensures Told(Step(s, e))
  {
  }

  lemma HubRecvTells(s: Sys)
    requires Inv(s) && Told(s)
    ensures Told(OnHubRecv(s))
  {
    if s.up != [] {
      OpenTakes(s.hub, s.up[0]);
      Popped(s, OnHubRecv(s), s.up[0], s.up[1..]);
    }
  }

  lemma Popped(s: Sys, t: Sys, m: Up, rest: seq<Up>)
    requires Told(s) && s.up == [m] + rest && t.up == rest && t.down == s.down && t.agent == s.agent
    requires UpOk(s.up, s.agent)
    requires t.hub.open <==> s.hub.open && !m.UEnd? && !m.UErr? && m != URes(true)
    requires t.hub.nullHead <==> s.hub.nullHead || (s.hub.open && m == URes(true))
    ensures Told(t)
  {
  }

  lemma {:induction false} RunTells(events: seq<Event>, n: nat)
    requires n <= |events|
    ensures Told(Run(events[..n]))
  {
    if n > 0 {
      RunTells(events, n - 1);
      RunKeeps(events[..n - 1]);
      RunNext(events, n - 1);
      StepTells(Run(events[..n - 1]), events[n - 1]);
    }
  }

  lemma StepTells(s: Sys, e: Event)
    requires Inv(s) && Told(s)
    ensures Told(Step(s, e))
  {
    if e.ARecv? { ARecvTells(s, e.accept); } else if AtAgent(e) { AgentTells(s, e); } else { HubTells(s, e); }
  }

  /**
   Over every run, neither end waits for one that has left: to an open hub the agent's end or error is under way, and to
   an agent still at it the hub's cancel, unless the response has no body.
   */
  lemma EndsLearn(events: seq<Event>)
    ensures var s := Run(events);
      && (s.hub.open && s.agent.phase.Gone? ==> UEnd in s.up || UErr in s.up)
      && (!s.hub.open && !s.agent.phase.Gone? ==> DCancel in s.down || s.hub.nullHead)
  {
    RunTells(events, |events|);
    assert events[..|events|] == events;
  }

  // ---- The end of the upload ----

  /** Once the client's body has ended, its end is on its way to the agent or has arrived. */
  ghost predicate EndSent(s: Sys) {
    s.hub.open && s.hub.upload.Finished? && !s.agent.phase.Gone? ==> s.agent.reqDone || DEnd in s.down
  }

  /** No step of the agent's but taking a message touches what it has been sent. */
  lemma AgentLeavesDown(s: Sys, e: Event)
    requires AtAgent(e) && !e.ARecv?
    ensures var t := Step(s, e);
      t.down == s.down && t.agent.reqDone == s.agent.reqDone && (s.agent.phase.Gone? ==> t.agent.phase.Gone?)
  {
    match e
    case AChunk(chunk) => ChunkLeavesDown(s, chunk);
    case ATimer => PumpedLeavesDown(s, s.agent.(timer := false, due := true));
    case AEnd => PumpedLeavesDown(s, s.agent.(ended := true));
    case AWritten => WrittenLeavesDown(s);
    case _ =>
  }

  lemma WrittenLeavesDown(s: Sys)
    ensures var t := OnWritten(s);
      t.down == s.down && t.agent.reqDone == s.agent.reqDone && t.agent.phase == s.agent.phase
  {
  }

  lemma PumpedLeavesDown(s: Sys, a: Agent)
    ensures Pumped(s, a).down == s.down && Pumped(s, a).agent.reqDone == a.reqDone
    ensures a.phase.Gone? ==> Pumped(s, a).agent.phase.Gone?
  {
  }

  lemma ChunkLeavesDown(s: Sys, chunk: Bytes)
    ensures var t := OnChunk(s, chunk);
      t.down == s.down && t.agent.reqDone == s.agent.reqDone && (s.agent.phase.Gone? ==> t.agent.phase.Gone?)
  {
  }

  /** The message taken is gone; an end taken by a live agent ends its upload. */
  lemma RecvTakesEnd(s: Sys, accept: bool)
    requires s.down != []
    ensures var t := OnAgentRecv(s, accept);
      && t.down == s.down[1..] && (s.agent.phase.Gone? ==> t.agent.phase.Gone?)
      && (s.agent.reqDone || (s.down[0].DEnd? && s.agent.phase.Live?) ==> t.agent.reqDone)
  {
  }

  lemma TakesKeepUpload(h: Hub, m: Up)
    ensures HubTakes(h, m).upload.Finished? ==> h.upload.Finished?
    ensures HubTakes(h, m).open ==> h.open
  {
  }

  lemma WriterKeepsUpload(s: Sys)
    ensures var t := OnWriterDone(s);
      && t.hub.upload == s.hub.upload && t.hub.open == s.hub.open && t.agent == s.agent
      && forall m :: m in s.down ==> m in t.down
  {
  }

  lemma EndTaken(s: Sys, t: Sys, m: Down)
    requires EndSent(s) && t.hub == s.hub && s.down == [m] + t.down && (s.agent.phase.New? ==> m.DReq?)
    requires s.agent.phase.Gone? ==> t.agent.phase.Gone?
    requires s.agent.reqDone || (m.DEnd? && s.agent.phase.Live?) ==> t.agent.reqDone
    ensures EndSent(t)
  {
  }

  lemma EndLeft(s: Sys, t: Sys)
    requires EndSent(s) && t.hub == s.hub && t.down == s.down && t.agent.reqDone == s.agent.reqDone
    requires s.agent.phase.Gone? ==> t.agent.phase.Gone?
    ensures EndSent(t)
  {
  }

  lemma ARecvKeepsEnd(s: Sys, accept: bool)
    requires DownOk(s.down, s.agent.phase) && EndSent(s)
    ensures EndSent(OnAgentRecv(s, accept))
  {
    AgentRecvLeavesHub(s, accept);
    if s.down != [] {
      RecvTakesEnd(s, accept);
      EndTaken(s, OnAgentRecv(s, accept), s.down[0]);
    }
  }

  lemma AgentKeepsEnd(s: Sys, e: Event)
    requires DownOk(s.down, s.agent.phase) && EndSent(s) && AtAgent(e)
    ensures EndSent(Step(s, e))
  {
    match e
    case ARecv(accept) => ARecvKeepsEnd(s, accept);
    case _ =>
      AgentLeavesHub(s, e);
      AgentLeavesDown(s, e);
      EndLeft(s, Step(s, e));
  }

  lemma HubKeepsEnd(s: Sys, e: Event)
    requires EndSent(s) && !AtAgent(e)
    ensures EndSent(Step(s, e))
  {
    match e
    case HRecv => if s.up != [] { TakesKeepUpload(s.hub, s.up[0]); }
    case HWriterDone => WriterKeepsUpload(s);
    case _ =>
  }

  lemma StepKeepsEnd(s: Sys, e: Event)
    requires DownOk(s.down, s.agent.phase) && EndSent(s)
    ensures EndSent(Step(s, e))
  {
    if AtAgent(e) { AgentKeepsEnd(s, e); } else { HubKeepsEnd(s, e); }
  }

  lemma {:induction false} RunKeepsEnd(events: seq<Event>, n: nat)
    requires n <= |events|
    ensures EndSent(Run(events[..n]))
  {
    if n > 0 {
      RunKeepsEnd(events, n - 1);
      RunKeeps(events[..n - 1]);
      RunNext(events, n - 1);
      StepKeepsEnd(Run(events[..n - 1]), events[n - 1]);
    }
  }

  /**
   Over every run: on a stream live at both ends, once the client's body has ended and nothing is on its way to the
   agent, upstream has got the end, and before it the whole body.
   */
  lemma UploadEnds(events: seq<Event>)
    ensures var s := Run(events);
      BothLive(s) && s.hub.upload.Finished? && s.down == [] ==> s.agent.reqDone && s.agent.uploaded == s.hub.got
  {
    RunKeepsEnd(events, |events|);
    assert events[..|events|] == events;
    RunKeeps(events);
  }

  /**
   A request not yet taken is first on its way to the agent, and so is the head of an answer to the hub, but for acks.
   */
  lemma HeadsComeFirst(events: seq<Event>)
    ensures var s := Run(events);
      && (s.agent.phase.New? ==> s.down != [] && s.down[0].DReq?)
      && (s.hub.open && s.agent.hasRes && !s.hub.headDone ==> URes(false) in s.up || URes(true) in s.up)
  {
    RunKeeps(events);
    ResIsIn(Run(events).up);
  }

  lemma {:induction false} ResIsIn(c: seq<Up>)
    ensures ResFirst(c) ==> URes(false) in c || URes(true) in c
  {
    if ResFirst(c) {
      if c[0].URes? {
        assert c[0] in c && (c[0] == URes(false) || c[0] == URes(true));
      } else {
        ResIsIn(c[1..]);
        assert c == [c[0]] + c[1..];
      }
    }
  }

  // ---- Acks of the upload come in batches ----

  ghost predicate Batched(up: seq<Up>) { forall m :: m in up && m.UAck? ==> m.n >= MAX_FRAME_BYTES }

  lemma BatchedAppend(c: seq<Up>, d: seq<Up>)
    requires Batched(c) && Batched(d)
    ensures Batched(c + d)
  {
  }

  lemma PumpedBatched(s: Sys, a: Agent)
    requires Batched(s.up)
    ensures Batched(Pumped(s, a).up)
  {
    if a.inflight <= WINDOW_BYTES {
      FramesFit(a.pending, a.inflight, a.due || a.ended);
      FramesUp(Frames(a.pending, a.inflight, a.due || a.ended));
      BatchedAppend(s.up, Pump(a).1);
    }
  }

  lemma RecvBatched(s: Sys, accept: bool)
    requires Batched(s.up)
    ensures Batched(OnAgentRecv(s, accept).up)
  {
    if s.down != [] && s.agent.phase.Live? && s.down[0].DAck? {
      RecvIsAck(s, s.down[0].n, accept);
      PumpedBatched(s.(down := s.down[1..]), Credited(s.agent, s.down[0].n));
    } else {
      RecvTellsOnly(s, accept);
      BatchedAppend(s.up, [UErr]);
    }
  }

  /** Taking anything but an ack tells the hub at most of an error. */
  lemma RecvTellsOnly(s: Sys, accept: bool)
    requires s.down != [] && s.down[0].DAck? ==> !s.agent.phase.Live?
    ensures OnAgentRecv(s, accept).up == s.up || OnAgentRecv(s, accept).up == s.up + [UErr]
  {
  }

  lemma WrittenBatched(s: Sys)
    requires Batched(s.up)
    ensures Batched(OnWritten(s).up)
  {
  }

  lemma ChunkBatched(s: Sys, chunk: Bytes)
    requires Batched(s.up)
    ensures Batched(OnChunk(s, chunk).up)
  {
    var a := s.agent;
    var b := a.(pending := a.pending + chunk, upRead := a.upRead + chunk);
    PumpedBatched(s, b.(paused := b.paused || b.inflight + |b.pending| >= WINDOW_BYTES, timer := b.timer || !b.due));
  }

  lemma AgentBatched(s: Sys, e: Event)
    requires Batched(s.up) && AtAgent(e)
    ensures Batched(Step(s, e).up)
  {
    match e
    case ARecv(accept) => RecvBatched(s, accept);
    case AWritten => WrittenBatched(s);
    case AChunk(chunk) => ChunkBatched(s, chunk);
    case ATimer => PumpedBatched(s, s.agent.(timer := false, due := true));
    case AEnd => PumpedBatched(s, s.agent.(ended := true));
    case _ =>
  }

  lemma HubLeavesUp(s: Sys, e: Event)
    requires !AtAgent(e)
    ensures forall m :: m in Step(s, e).up ==> m in s.up
  {
  }

  lemma {:induction false} RunBatched(events: seq<Event>, n: nat)
    requires n <= |events|
    ensures Batched(Run(events[..n]).up)
  {
    if n > 0 {
      RunBatched(events, n - 1);
      RunNext(events, n - 1);
      if AtAgent(events[n - 1]) {
        AgentBatched(Run(events[..n - 1]), events[n - 1]);
      } else {
        HubLeavesUp(Run(events[..n - 1]), events[n - 1]);
      }
    }
  }

  /** Over every run the agent acks the client's body in batches of at least 64 KiB. */
  lemma AcksAreBatched(events: seq<Event>)
    ensures forall m :: m in Run(events).up && m.UAck? ==> m.n >= 0x1_0000
  {
    RunBatched(events, |events|);
    assert events[..|events|] == events;
  }
}
