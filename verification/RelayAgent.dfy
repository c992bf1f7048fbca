/**
 The agent's response side as it is written (node-agent/src/relay.ts): buffers queued as they arrive, cut into
 frames by `take`, counters updated in place. Each method is the event of `RelayStream` on the abstract stream.
 */
module RelayAgent {
  import opened Wrappers
  import opened RelayFrames
  import opened Batches
  import opened RelayStream

  class AgentStream {
    var out: seq<Bytes>
    var queued: nat
    var inflight: nat
    var due: bool
    var timer: bool
    var ended: bool
    var paused: bool
    var live: bool
    /** What was sent to the hub, in order. */
    var sent: seq<Up>

    ghost predicate Valid()
      reads this
    {
      queued == |Flatten(out)| && inflight <= WINDOW_BYTES
    }

    /** The fields are those of the agent `a` of `RelayStream`. */
    ghost predicate Shows(a: Agent)
      reads this
    {
      && a.phase == (if live then Live else Gone) && a.pending == Flatten(out) && a.inflight == inflight
      && a.due == due && a.timer == timer && a.ended == ended && a.paused == paused
    }

    /** `pump`: frames first, then what an empty queue, an ended response or a paused upstream needs. */
    method PumpOut(ghost a: Agent)
      requires Valid() && live && Shows(a)
      modifies this
      ensures Valid() && Shows(Pump(a).0) && sent == old(sent) + Pump(a).1
    {
      ghost var frames := Frames(a.pending, a.inflight, due || ended);
      PumpIs(a, frames, |Flatten(frames)|);
      out, queued, inflight, sent := SendFrames(out, queued, inflight, sent, due || ended);
      AfterQueue();
    }

    /** The tail of `pump`: clear the batch, end the response, or resume upstream. */
    method AfterQueue()
      requires Valid() && live
      modifies this
      ensures out == old(out) && queued == old(queued) && inflight == old(inflight) && ended == old(ended)
      ensures due == (old(due) && queued > 0) && timer == (old(timer) && queued > 0)
      ensures live == !(ended && queued == 0) && sent == old(sent) + if live then [] else [UEnd]
      ensures paused == (old(paused) && (ended || inflight + queued >= WINDOW_BYTES))
    {
      if queued == 0 { due, timer := false, false; }
      if ended {
        if queued == 0 {
          sent := sent + [UEnd];
          live := false;
        }
      } else if paused && inflight + queued < WINDOW_BYTES {
        paused := false;
      }
    }

    /** `queue`: one chunk from upstream. */
    method Queue(chunk: Bytes, ghost s: Sys)
      requires Valid() && live && !ended && Shows(s.agent) && s.agent.hasRes && s.up == sent
      modifies this
      ensures Valid() && Shows(OnChunk(s, chunk).agent) && sent == OnChunk(s, chunk).up
    {
      FlattenConcat(out, [chunk]);
      assert Flatten([chunk]) == chunk;
      out := out + [chunk];
      queued := queued + |chunk|;
      if inflight + queued >= WINDOW_BYTES { paused := true; }
      if !timer && !due { timer := true; }
      ghost var a := s.agent.(pending := s.agent.pending + chunk, upRead := s.agent.upRead + chunk);
      PumpOut(a.(paused := a.paused || a.inflight + |a.pending| >= WINDOW_BYTES, timer := a.timer || !a.due));
    }

    /** The batch timer fires. */
    method Fire(ghost s: Sys)
      requires Valid() && live && timer && Shows(s.agent) && s.up == sent
      modifies this
      ensures Valid() && Shows(OnTimer(s).agent) && sent == OnTimer(s).up
    {
      timer, due := false, true;
      PumpOut(s.agent.(timer := false, due := true));
    }

    /** An ack from the hub. */
    method Acked(n: nat, ghost s: Sys)
      requires Valid() && live && Shows(s.agent) && s.up == sent
      modifies this
      ensures Valid() && Shows(OnAck(s, n).agent) && sent == OnAck(s, n).up
    {
      inflight := if inflight < n then 0 else inflight - n;
      PumpOut(s.agent.(inflight := inflight));
    }

    /** Upstream ended. */
    method UpstreamEnd(ghost s: Sys)
      requires Valid() && live && !ended && Shows(s.agent) && s.agent.hasRes && s.up == sent
      modifies this
      ensures Valid() && Shows(OnEnd(s).agent) && sent == OnEnd(s).up
    {
      ended := true;
      PumpOut(s.agent.(ended := true));
    }
  }

  lemma PumpIs(a: Agent, frames: seq<Bytes>, k: nat)
    requires a.inflight <= WINDOW_BYTES && frames == Frames(a.pending, a.inflight, a.due || a.ended)
      && k == |Flatten(frames)|
    ensures k <= |a.pending|
      && Pump(a) == (AfterSend(a, k), AsUp(frames) + if a.ended && k == |a.pending| then [UEnd] else [])
  {
    FramesFit(a.pending, a.inflight, a.due || a.ended);
    assert AsUp(frames) + [] == AsUp(frames);
  }

  /** The loop of `pump`; `force` lets a part-filled last frame go too. */
  method SendFrames(out0: seq<Bytes>, queued0: nat, inflight0: nat, sent0: seq<Up>, force: bool)
      returns (out: seq<Bytes>, queued: nat, inflight: nat, sent: seq<Up>)
    requires queued0 == |Flatten(out0)| && inflight0 <= WINDOW_BYTES
    ensures var frames := Frames(Flatten(out0), inflight0, force);
      && |Flatten(frames)| <= queued0 && queued == queued0 - |Flatten(frames)|
        && Flatten(out) == Flatten(out0)[|Flatten(frames)|..]
      && sent == sent0 + AsUp(frames) && inflight == inflight0 + |Flatten(frames)| <= WINDOW_BYTES
  {
    out, queued, inflight, sent := out0, queued0, inflight0, sent0;
    ghost var pending0 := Flatten(out0);
    assert pending0[0..] == pending0;
    while queued > 0
      invariant queued == |Flatten(out)| && inflight <= WINDOW_BYTES
        && Sending(pending0, inflight0, sent0, force, Flatten(out), inflight, sent)
      decreases queued
    {
      var n := if queued < MAX_FRAME_BYTES then queued else MAX_FRAME_BYTES;
      if (n < MAX_FRAME_BYTES && !force) || inflight + n > WINDOW_BYTES { break; }
      SendingStep(pending0, inflight0, sent0, force, Flatten(out), inflight, sent, n);
      var frame;
      frame, out := Take(out, n);
      sent, queued, inflight := sent + [UData(frame)], queued - n, inflight + n;
    }
    SendingDone(pending0, inflight0, sent0, force, Flatten(out), inflight, sent);
  }

  lemma SendingDone(
      pending0: Bytes, inflight0: nat, sent0: seq<Up>, force: bool, pending: Bytes, inflight: nat, sent: seq<Up>)
    requires Sending(pending0, inflight0, sent0, force, pending, inflight, sent)
    requires var n := Min(MAX_FRAME_BYTES, |pending|);
      n == 0 || (n < MAX_FRAME_BYTES && !force) || inflight + n > WINDOW_BYTES
    ensures var k := |Flatten(Frames(pending0, inflight0, force))|;
      inflight == inflight0 + k && k <= |pending0| && pending == pending0[k..]
    ensures sent == sent0 + AsUp(Frames(pending0, inflight0, force))
  {
    assert Frames(pending, inflight, force) == [];
  }

  /** Between rounds of the loop: what is sent and what the rest will send make up the whole. */
  ghost predicate Sending(
      pending0: Bytes, inflight0: nat, sent0: seq<Up>, force: bool, pending: Bytes, inflight: nat, sent: seq<Up>)
  {
    var all, more := Frames(pending0, inflight0, force), Frames(pending, inflight, force);
    && inflight0 <= inflight && inflight - inflight0 <= |pending0| && pending == pending0[inflight - inflight0..]
    && sent + AsUp(more) == sent0 + AsUp(all) && inflight - inflight0 + |Flatten(more)| == |Flatten(all)|
  }

  lemma SendingStep(
      pending0: Bytes, inflight0: nat, sent0: seq<Up>, force: bool, pending: Bytes, inflight: nat, sent: seq<Up>,
      n: nat)
    requires Sending(pending0, inflight0, sent0, force, pending, inflight, sent)
    requires 0 < n == Min(MAX_FRAME_BYTES, |pending|) && (n == MAX_FRAME_BYTES || force) && inflight + n <= WINDOW_BYTES
    ensures Sending(pending0, inflight0, sent0, force, pending[n..], inflight + n, sent + [UData(pending[..n])])
  {
    var more := Frames(pending[n..], inflight + n, force);
    assert Frames(pending, inflight, force) == [pending[..n]] + more;
    assert AsUp([pending[..n]] + more) == [UData(pending[..n])] + AsUp(more)
      && Flatten([pending[..n]] + more) == pending[..n] + Flatten(more);
    assert sent + ([UData(pending[..n])] + AsUp(more)) == sent + [UData(pending[..n])] + AsUp(more);
  }
}
