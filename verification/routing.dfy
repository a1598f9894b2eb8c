/** The routing loop of main: an outer loop that polls the loopback capture
    client for the size of the next packet, and an inner loop that drains
    packets one at a time into the virtual cable's render buffer. The platform
    answers come from a finite script of replies; a run that exhausts the
    script is suspended, still routing. */
module Routing {
  import opened Platform

  /** Milliseconds slept after every drain pass, idle or not. */
  const IDLE_SLEEP_MS: nat := 10

  /** One platform answer: a status and, for calls that report a count (the
      packet size, or the frames in the captured packet), that count. */
  datatype Reply = Reply(hr: HResult, value: uint32)

  /** One call of the loop, with the platform's answer to it. */
  datatype LoopEvent =
    | PollPacketSize(hr: HResult, pending: uint32)         // at the top of the outer loop
    | CaptureGetBuffer(hr: HResult, frames: uint32)
    | RenderGetBuffer(frames: uint32, hr: HResult)
    | Copy(frames: uint32, bytes: uint32)
    | CaptureReleaseBuffer(frames: uint32, hr: HResult)
    | RenderReleaseBuffer(frames: uint32, hr: HResult)
    | NextPacketSize(hr: HResult, pending: uint32)         // at the bottom of the inner loop
    | Sleep(ms: nat)

  /** Where the loop stands: the call it makes next. `abandoning` marks the
      capture release made after a failed render request. */
  datatype Phase =
    | AtPoll
    | AtCaptureGet
    | AtRenderGet(frames: uint32)
    | AtCopy(frames: uint32)
    | AtCaptureRelease(frames: uint32, abandoning: bool)
    | AtRenderRelease(frames: uint32)
    | AtRequery
    | AtSleep

  /** The phase asks the platform something, and so takes a reply. */
  predicate Consumes(ph: Phase) {
    !ph.AtCopy? && !ph.AtSleep?
  }

  function Rank(ph: Phase): nat {
    if Consumes(ph) then 0 else 1
  }

  /** Bytes copied for a packet: the 32-bit product of the frame count and
      the block alignment, as the unsigned multiplication in the copy computes it. */
  function CopySize(frames: uint32, align: uint16): (bytes: uint32)
    ensures frames as int * align as int < UINT32_LIMIT ==> bytes as int == frames as int * align as int
    ensures (bytes as int - frames as int * align as int) % UINT32_LIMIT == 0
  {
    (frames as int * align as int) % UINT32_LIMIT
  }

  datatype Transition = Transition(event: LoopEvent, next: Option<Phase>, rest: seq<Reply>)

  /** The drain pass continues after a successful size query exactly when a
      packet is pending. */
  function AfterPending(pending: uint32): Phase {
    if pending == 0 then AtSleep else AtCaptureGet
  }

  /** One call of the loop. Only a failed poll at the top of the outer loop
      leaves it; every failure inside the drain pass ends that pass, and the
      loop sleeps before polling again. */
  function Step(align: uint16, ph: Phase, s: seq<Reply>): (t: Transition)
    requires Consumes(ph) ==> |s| > 0
    ensures Consumes(ph) ==> t.rest == s[1..]
    ensures !Consumes(ph) ==> t.rest == s && t.next.Some? && Consumes(t.next.value)
    ensures t.next.None? <==> ph.AtPoll? && Failed(s[0].hr)
  {
    match ph
    case AtPoll =>
      var r := s[0];
      if Failed(r.hr) then Transition(PollPacketSize(r.hr, r.value), None, s[1..])
      else Transition(PollPacketSize(r.hr, r.value), Some(AfterPending(r.value)), s[1..])
    case AtCaptureGet =>
      var r := s[0];
      if Failed(r.hr) then Transition(CaptureGetBuffer(r.hr, r.value), Some(AtSleep), s[1..])
      else Transition(CaptureGetBuffer(r.hr, r.value), Some(AtRenderGet(r.value)), s[1..])
    case AtRenderGet(f) =>
      var r := s[0];
      if Failed(r.hr) then Transition(RenderGetBuffer(f, r.hr), Some(AtCaptureRelease(f, true)), s[1..])
      else Transition(RenderGetBuffer(f, r.hr), Some(AtCopy(f)), s[1..])
    case AtCopy(f) =>
      Transition(Copy(f, CopySize(f, align)), Some(AtCaptureRelease(f, false)), s)
    case AtCaptureRelease(f, abandoning) =>
      var r := s[0];
      if abandoning || Failed(r.hr) then Transition(CaptureReleaseBuffer(f, r.hr), Some(AtSleep), s[1..])
      else Transition(CaptureReleaseBuffer(f, r.hr), Some(AtRenderRelease(f)), s[1..])
    case AtRenderRelease(f) =>
      var r := s[0];
      if Failed(r.hr) then Transition(RenderReleaseBuffer(f, r.hr), Some(AtSleep), s[1..])
      else Transition(RenderReleaseBuffer(f, r.hr), Some(AtRequery), s[1..])
    case AtRequery =>
      var r := s[0];
      if Failed(r.hr) then Transition(NextPacketSize(r.hr, r.value), Some(AtSleep), s[1..])
      else Transition(NextPacketSize(r.hr, r.value), Some(AfterPending(r.value)), s[1..])
    case AtSleep =>
      Transition(Sleep(IDLE_SLEEP_MS), Some(AtPoll), s)
  }

  /** Why a run of the loop ended: the outer loop broke, or the script ran
      out while the loop was about to make the call of `at`. */
  datatype Stop = TornDown | Suspended(at: Phase)

  datatype LoopRun = LoopRun(events: seq<LoopEvent>, stop: Stop)

  /** The loop from phase `ph`, answered by the script `s`. It is torn down
      exactly when its last event is a failed poll at the top of the loop; it
      is empty only when the script is exhausted at a call; and it never stops
      between handing out a render buffer and copying into it. */
  function Run(align: uint16, ph: Phase, s: seq<Reply>): (r: LoopRun)
    decreases |s|, Rank(ph)
    ensures r.events == [] <==> Consumes(ph) && |s| == 0
    ensures r.stop.TornDown? <==> r.events != [] && FailedPoll(Last(r.events))
    ensures r.events != [] ==> !Granted(Last(r.events))
  {
    if Consumes(ph) && |s| == 0 then LoopRun([], Suspended(ph))
    else
      var t := Step(align, ph, s);
      if t.next.None? then LoopRun([t.event], TornDown)
      else
        var rest := Run(align, t.next.value, t.rest);
        var events := [t.event] + rest.events;
        assert rest.events != [] ==> events[1..] == rest.events;
        LoopRun(events, rest.stop)
  }

  /** The last event of a non-empty trace. */
  function Last(t: seq<LoopEvent>): (e: LoopEvent)
    requires t != []
  {
    if |t| == 1 then t[0] else Last(t[1..])
  }

  lemma {:induction false} LastIsFinal(t: seq<LoopEvent>)
    requires t != []
    ensures Last(t) == t[|t| - 1]
  {
    if |t| > 1 {
      LastIsFinal(t[1..]);
    }
  }

  // The loop's discipline, stated over its trace of events.

  predicate IsSleep(e: LoopEvent) {
    e == Sleep(IDLE_SLEEP_MS)
  }

  /** Which event may follow `a`, from the events alone. A failed poll at the
      top of the loop is never followed by anything. */
  predicate Link(align: uint16, a: LoopEvent, b: LoopEvent) {
    match a
    case PollPacketSize(hr, pending) =>
      !Failed(hr) && (if pending == 0 then IsSleep(b) else b.CaptureGetBuffer?)
    case CaptureGetBuffer(hr, frames) =>
      if Failed(hr) then IsSleep(b) else b.RenderGetBuffer? && b.frames == frames
    case RenderGetBuffer(frames, hr) =>
      if Failed(hr) then b.CaptureReleaseBuffer? && b.frames == frames
      else b == Copy(frames, CopySize(frames, align))
    case Copy(frames, _) =>
      b.CaptureReleaseBuffer? && b.frames == frames
    case CaptureReleaseBuffer(frames, hr) =>
      IsSleep(b) || (!Failed(hr) && b.RenderReleaseBuffer? && b.frames == frames)
    case RenderReleaseBuffer(_, hr) =>
      if Failed(hr) then IsSleep(b) else b.NextPacketSize?
    case NextPacketSize(hr, pending) =>
      if Failed(hr) || pending == 0 then IsSleep(b) else b.CaptureGetBuffer?
    case Sleep(ms) =>
      ms == IDLE_SLEEP_MS && b.PollPacketSize?
  }

  /** A capture release goes on to the render release exactly when it
      succeeded and was not the clean-up after a failed render request. */
  predicate Link3(a: LoopEvent, b: LoopEvent, c: LoopEvent) {
    b.CaptureReleaseBuffer? ==> (IsSleep(c) <==> a.RenderGetBuffer? || Failed(b.hr))
  }

  /** The first events of a run from phase `ph`. */
  predicate Begins(align: uint16, ph: Phase, t: seq<LoopEvent>) {
    |t| > 0 ==>
      match ph
      case AtPoll => t[0].PollPacketSize?
      case AtCaptureGet => t[0].CaptureGetBuffer?
      case AtRenderGet(f) => t[0].RenderGetBuffer? && t[0].frames == f
      case AtCopy(f) => t[0] == Copy(f, CopySize(f, align))
      case AtCaptureRelease(f, abandoning) =>
        && t[0].CaptureReleaseBuffer? && t[0].frames == f
        && (|t| > 1 ==> (IsSleep(t[1]) <==> abandoning || Failed(t[0].hr)))
      case AtRenderRelease(f) => t[0].RenderReleaseBuffer? && t[0].frames == f
      case AtRequery => t[0].NextPacketSize?
      case AtSleep => IsSleep(t[0])
  }

  predicate LinkAt(align: uint16, t: seq<LoopEvent>, i: int)
    requires 0 <= i < |t| - 1
  {
    Link(align, t[i], t[i + 1])
  }

  predicate Link3At(t: seq<LoopEvent>, i: int)
    requires 0 <= i < |t| - 2
  {
    Link3(t[i], t[i + 1], t[i + 2])
  }

  /** Every trace of the loop is a chain of linked events. */
  predicate Chained(align: uint16, t: seq<LoopEvent>) {
    && (forall i | 0 <= i < |t| - 1 :: LinkAt(align, t, i))
    && (forall i | 0 <= i < |t| - 2 :: Link3At(t, i))
  }

  /** The event a step emits links to whatever its successor phase begins with. */
  lemma StepLinks(align: uint16, ph: Phase, s: seq<Reply>, u: seq<LoopEvent>)
    requires Consumes(ph) ==> |s| > 0
    requires Step(align, ph, s).next.Some?
    requires |u| > 0 && Begins(align, Step(align, ph, s).next.value, u)
    ensures Link(align, Step(align, ph, s).event, u[0])
    ensures Begins(align, ph, [Step(align, ph, s).event] + u)
    ensures |u| > 1 ==> Link3(Step(align, ph, s).event, u[0], u[1])
  {
    var v := [Step(align, ph, s).event] + u;
    assert v[0] == Step(align, ph, s).event && v[1..] == u;
  }

  lemma {:induction false} Adjacent(align: uint16, ph: Phase, s: seq<Reply>)
    decreases |s|, Rank(ph)
    ensures var t := Run(align, ph, s).events;
      Begins(align, ph, t) && Chained(align, t)
  {
    if !(Consumes(ph) && |s| == 0) {
      var st := Step(align, ph, s);
      if st.next.Some? {
        var rest := Run(align, st.next.value, st.rest);
        Adjacent(align, st.next.value, st.rest);
        if |rest.events| > 0 {
          StepLinks(align, ph, s, rest.events);
        }
        ChainedCons(align, st.event, rest.events);
      }
    }
  }

  lemma ChainedCons(align: uint16, e: LoopEvent, u: seq<LoopEvent>)
    requires Chained(align, u)
    requires |u| > 0 ==> Link(align, e, u[0])
    requires |u| > 1 ==> Link3(e, u[0], u[1])
    ensures Chained(align, [e] + u)
  {
    var t := [e] + u;
    forall i | 0 <= i < |t| - 1
      ensures LinkAt(align, t, i)
    {
      if i > 0 {
        assert LinkAt(align, u, i - 1);
        assert t[i] == u[i - 1] && t[i + 1] == u[i];
      }
    }
    forall i | 0 <= i < |t| - 2
      ensures Link3At(t, i)
    {
      if i > 0 {
        assert Link3At(u, i - 1);
        assert t[i] == u[i - 1] && t[i + 1] == u[i] && t[i + 2] == u[i + 1];
      }
    }
  }

  predicate FailedPoll(e: LoopEvent) {
    e.PollPacketSize? && Failed(e.hr)
  }

  /** A render buffer was handed out. */
  predicate Granted(e: LoopEvent) {
    e.RenderGetBuffer? && !Failed(e.hr)
  }

  /** A successful size query that reported a pending packet. */
  predicate ReportsPacket(e: LoopEvent) {
    (e.PollPacketSize? || e.NextPacketSize?) && !Failed(e.hr) && e.pending != 0
  }

  /** A failure inside the drain pass, other than a refused render buffer. */
  predicate InnerFailure(e: LoopEvent) {
    && (e.CaptureGetBuffer? || e.CaptureReleaseBuffer? || e.RenderReleaseBuffer? || e.NextPacketSize?)
    && Failed(e.hr)
  }

  /** A trace the loop can produce from the top: it opens with a poll and
      every pair and triple of neighbouring events is linked. */
  predicate LoopTrace(align: uint16, t: seq<LoopEvent>) {
    Begins(align, AtPoll, t) && Chained(align, t)
  }

  /** Every run of the loop from the top is such a trace, and a failed poll
      can only be its last event. */
  lemma RunIsLoopTrace(align: uint16, s: seq<Reply>)
    ensures LoopTrace(align, Run(align, AtPoll, s).events)
  {
    Adjacent(align, AtPoll, s);
  }

  /** A capture buffer is requested only right after a size query that
      reported a pending packet. */
  lemma CaptureFollowsReport(align: uint16, t: seq<LoopEvent>)
    requires LoopTrace(align, t)
    ensures forall i | 0 <= i < |t| && t[i].CaptureGetBuffer? :: i > 0 && ReportsPacket(t[i - 1])
  {
    forall i | 0 <= i < |t| && t[i].CaptureGetBuffer?
      ensures i > 0 && ReportsPacket(t[i - 1])
    {
      assert i > 0;
      assert LinkAt(align, t, i - 1);
    }
  }

  /** The render buffer is requested for exactly the frames just captured. */
  lemma RenderRequestMatchesCapture(align: uint16, t: seq<LoopEvent>)
    requires LoopTrace(align, t)
    ensures forall i | 0 <= i < |t| && t[i].RenderGetBuffer? ::
      i > 0 && t[i - 1].CaptureGetBuffer? && !Failed(t[i - 1].hr) && t[i - 1].frames == t[i].frames
  {
    forall i | 0 <= i < |t| && t[i].RenderGetBuffer?
      ensures i > 0 && t[i - 1].CaptureGetBuffer? && !Failed(t[i - 1].hr) && t[i - 1].frames == t[i].frames
    {
      assert i > 0;
      assert LinkAt(align, t, i - 1);
    }
  }

  /** Every copy goes into a render buffer just granted for the same frames,
      and moves the 32-bit product of the frames and the block alignment. */
  lemma CopyIntoGranted(align: uint16, t: seq<LoopEvent>)
    requires LoopTrace(align, t)
    ensures forall i | 0 <= i < |t| && t[i].Copy? ::
      i > 0 && Granted(t[i - 1]) && t[i - 1].frames == t[i].frames && t[i].bytes == CopySize(t[i].frames, align)
  {
    forall i | 0 <= i < |t| && t[i].Copy?
      ensures i > 0 && Granted(t[i - 1]) && t[i - 1].frames == t[i].frames && t[i].bytes == CopySize(t[i].frames, align)
    {
      assert i > 0;
      assert LinkAt(align, t, i - 1);
    }
  }

  /** Where the capture buffer released at `i` came from: either the copy
      into a granted render buffer, or the refused render request, directly
      follows the successful capture get, all for the same frames. */
  predicate CaptureReleaseBacked(t: seq<LoopEvent>, i: int)
    requires 0 <= i < |t| && t[i].CaptureReleaseBuffer?
  {
    var f := t[i].frames;
    if i > 2 && t[i - 1].Copy? then
      && t[i - 1].frames == f
      && Granted(t[i - 2]) && t[i - 2].frames == f
      && t[i - 3].CaptureGetBuffer? && !Failed(t[i - 3].hr) && t[i - 3].frames == f
    else
      && i > 1
      && t[i - 1].RenderGetBuffer? && Failed(t[i - 1].hr) && t[i - 1].frames == f
      && t[i - 2].CaptureGetBuffer? && !Failed(t[i - 2].hr) && t[i - 2].frames == f
  }

  /** The capture buffer is released with the count it was captured with:
      after the copy into a granted render buffer, or right after the render
      request was refused. */
  lemma CaptureReleasePaired(align: uint16, t: seq<LoopEvent>)
    requires LoopTrace(align, t)
    ensures forall i | 0 <= i < |t| && t[i].CaptureReleaseBuffer? :: CaptureReleaseBacked(t, i)
  {
    forall i | 0 <= i < |t| && t[i].CaptureReleaseBuffer?
      ensures CaptureReleaseBacked(t, i)
    {
      assert i > 0;
      assert LinkAt(align, t, i - 1);
      assert i > 1;
      assert LinkAt(align, t, i - 2);
      if t[i - 1].Copy? {
        assert i > 2;
        assert LinkAt(align, t, i - 3);
      }
    }
  }

  /** The render buffer is released with the count it was granted for, only
      after the copy into it and a successful capture release. */
  lemma RenderReleasePaired(align: uint16, t: seq<LoopEvent>)
    requires LoopTrace(align, t)
    ensures forall i | 0 <= i < |t| && t[i].RenderReleaseBuffer? ::
      && i > 2 && t[i - 1].CaptureReleaseBuffer? && !Failed(t[i - 1].hr)
      && t[i - 2].Copy? && t[i - 2].frames == t[i].frames && t[i - 1].frames == t[i].frames
      && Granted(t[i - 3]) && t[i - 3].frames == t[i].frames
  {
    forall i | 0 <= i < |t| && t[i].RenderReleaseBuffer?
      ensures && i > 2 && t[i - 1].CaptureReleaseBuffer? && !Failed(t[i - 1].hr)
              && t[i - 2].Copy? && t[i - 2].frames == t[i].frames && t[i - 1].frames == t[i].frames
              && Granted(t[i - 3]) && t[i - 3].frames == t[i].frames
    {
      assert i > 0;
      assert LinkAt(align, t, i - 1);
      assert i > 1;
      assert LinkAt(align, t, i - 2);
      assert Link3At(t, i - 2);
      assert i > 2;
      assert LinkAt(align, t, i - 3);
    }
  }

  /** After a successful capture get the render buffer is requested for the
      captured frames. */
  lemma RequestFollowsCapture(align: uint16, t: seq<LoopEvent>)
    requires LoopTrace(align, t)
    ensures forall i | 0 <= i < |t| - 1 && t[i].CaptureGetBuffer? && !Failed(t[i].hr) ::
      t[i + 1].RenderGetBuffer? && t[i + 1].frames == t[i].frames
  {
    forall i | 0 <= i < |t| - 1 && t[i].CaptureGetBuffer? && !Failed(t[i].hr)
      ensures t[i + 1].RenderGetBuffer? && t[i + 1].frames == t[i].frames
    {
      assert LinkAt(align, t, i);
    }
  }

  /** A refused render request releases the capture buffer for the same
      frames and then goes to sleep. */
  lemma RefusalReleasesCapture(align: uint16, t: seq<LoopEvent>)
    requires LoopTrace(align, t)
    ensures forall i | 0 <= i < |t| - 1 && t[i].RenderGetBuffer? && Failed(t[i].hr) ::
      && t[i + 1].CaptureReleaseBuffer? && t[i + 1].frames == t[i].frames
      && (i + 2 < |t| ==> IsSleep(t[i + 2]))
  {
    forall i | 0 <= i < |t| - 1 && t[i].RenderGetBuffer? && Failed(t[i].hr)
      ensures t[i + 1].CaptureReleaseBuffer? && t[i + 1].frames == t[i].frames
      ensures i + 2 < |t| ==> IsSleep(t[i + 2])
    {
      assert LinkAt(align, t, i);
      if i + 2 < |t| {
        assert Link3At(t, i);
      }
    }
  }

  /** A granted render buffer is copied into at once, with the 32-bit byte
      count for its frames. */
  lemma GrantedIsCopied(align: uint16, t: seq<LoopEvent>)
    requires LoopTrace(align, t)
    ensures forall i | 0 <= i < |t| - 1 && Granted(t[i]) ::
      t[i + 1] == Copy(t[i].frames, CopySize(t[i].frames, align))
  {
    forall i | 0 <= i < |t| - 1 && Granted(t[i])
      ensures t[i + 1] == Copy(t[i].frames, CopySize(t[i].frames, align))
    {
      assert LinkAt(align, t, i);
    }
  }

  /** After the copy the capture buffer is released for the same frames; the
      render buffer is released next, for the same frames, exactly when that
      capture release succeeded, and when it failed the loop sleeps instead,
      leaving the render buffer unreleased. */
  lemma ReleasesAfterCopy(align: uint16, t: seq<LoopEvent>)
    requires LoopTrace(align, t)
    ensures forall i | 0 <= i < |t| - 1 && t[i].Copy? ::
      t[i + 1].CaptureReleaseBuffer? && t[i + 1].frames == t[i].frames
    ensures forall i | 0 <= i < |t| - 2 && t[i].Copy? ::
      && (t[i + 2].RenderReleaseBuffer? <==> !Failed(t[i + 1].hr))
      && (IsSleep(t[i + 2]) <==> Failed(t[i + 1].hr))
      && (t[i + 2].RenderReleaseBuffer? ==> t[i + 2].frames == t[i].frames)
  {
    forall i | 0 <= i < |t| - 1 && t[i].Copy?
      ensures t[i + 1].CaptureReleaseBuffer? && t[i + 1].frames == t[i].frames
    {
      assert LinkAt(align, t, i);
    }
    forall i | 0 <= i < |t| - 2 && t[i].Copy?
      ensures t[i + 2].RenderReleaseBuffer? <==> !Failed(t[i + 1].hr)
      ensures IsSleep(t[i + 2]) <==> Failed(t[i + 1].hr)
      ensures t[i + 2].RenderReleaseBuffer? ==> t[i + 2].frames == t[i].frames
    {
      assert LinkAt(align, t, i);
      assert LinkAt(align, t, i + 1);
      assert Link3At(t, i);
    }
  }

  /** The top of the loop: a failed poll is the last thing the loop does, the
      sleep is always followed by a poll, and every poll but the first comes
      right after the sleep. */
  lemma PollPolicy(align: uint16, t: seq<LoopEvent>)
    requires LoopTrace(align, t)
    ensures forall i | 0 <= i < |t| - 1 :: !FailedPoll(t[i])
    ensures forall i | 0 <= i < |t| - 1 && IsSleep(t[i]) :: t[i + 1].PollPacketSize?
    ensures forall i | 0 < i < |t| && t[i].PollPacketSize? :: IsSleep(t[i - 1])
  {
    forall i | 0 <= i < |t| - 1
      ensures !FailedPoll(t[i])
      ensures IsSleep(t[i]) ==> t[i + 1].PollPacketSize?
    {
      assert LinkAt(align, t, i);
    }
    forall i | 0 < i < |t| && t[i].PollPacketSize?
      ensures IsSleep(t[i - 1])
    {
      assert LinkAt(align, t, i - 1);
    }
  }

  /** Why the loop sleeps: an idle poll, a requery that found the queue
      drained, a failure inside the pass (a failed requery among them), or
      the capture release that followed a refused render request. */
  predicate SleepReason(t: seq<LoopEvent>, i: int)
    requires 0 <= i < |t|
  {
    var e := t[i];
    || (e.PollPacketSize? && !Failed(e.hr) && e.pending == 0)
    || (e.NextPacketSize? && !Failed(e.hr) && e.pending == 0)
    || InnerFailure(e)
    || (e.CaptureReleaseBuffer? && i > 0 && t[i - 1].RenderGetBuffer? && Failed(t[i - 1].hr))
  }

  /** The idle poll and the inner failure policy: each reason above leads
      straight to the sleep, and the loop sleeps for no other reason. */
  lemma SleepPolicy(align: uint16, t: seq<LoopEvent>)
    requires LoopTrace(align, t)
    ensures forall i | 0 <= i < |t| - 1 :: SleepReason(t, i) ==> IsSleep(t[i + 1])
    ensures forall i | 0 < i < |t| && IsSleep(t[i]) :: SleepReason(t, i - 1)
    ensures |t| > 0 ==> !IsSleep(t[0])
  {
    forall i | 0 <= i < |t| - 1
      ensures SleepReason(t, i) ==> IsSleep(t[i + 1])
    {
      assert LinkAt(align, t, i);
      if i > 0 {
        assert Link3At(t, i - 1);
      }
    }
    forall i | 0 < i < |t| && IsSleep(t[i])
      ensures SleepReason(t, i - 1)
    {
      assert LinkAt(align, t, i - 1);
      if t[i - 1].CaptureReleaseBuffer? {
        assert i > 1;
        assert LinkAt(align, t, i - 2) && Link3At(t, i - 2);
      }
    }
  }

  // What the loop forwards: every granted render buffer receives exactly one
  // copy, of the frames it was granted for.

  /** The frames and byte counts of the copies, in order. */
  function Copies(t: seq<LoopEvent>): seq<(uint32, uint32)> {
    if t == [] then []
    else (if t[0].Copy? then [(t[0].frames, t[0].bytes)] else []) + Copies(t[1..])
  }

  /** The frame counts of the granted render buffers, in order. */
  function Grants(t: seq<LoopEvent>): seq<uint32> {
    if t == [] then []
    else (if Granted(t[0]) then [t[0].frames] else []) + Grants(t[1..])
  }

  /** Each frame count paired with the bytes a copy of it moves. */
  function Expected(frames: seq<uint32>, align: uint16): (r: seq<(uint32, uint32)>)
    ensures |r| == |frames|
    ensures forall k | 0 <= k < |r| :: r[k] == (frames[k], CopySize(frames[k], align))
  {
    if frames == [] then [] else [(frames[0], CopySize(frames[0], align))] + Expected(frames[1..], align)
  }

  /** The copy still owed by a run that starts at phase `ph`. */
  function Owed(align: uint16, ph: Phase): seq<(uint32, uint32)> {
    if ph.AtCopy? then [(ph.frames, CopySize(ph.frames, align))] else []
  }

  lemma CopiesGrantsCons(e: LoopEvent, u: seq<LoopEvent>)
    ensures Copies([e] + u) == (if e.Copy? then [(e.frames, e.bytes)] else []) + Copies(u)
    ensures Grants([e] + u) == (if Granted(e) then [e.frames] else []) + Grants(u)
  {
    assert ([e] + u)[0] == e && ([e] + u)[1..] == u;
  }

  /** One step keeps the account: the copy it makes and the copy its
      successor owes are the copy owed before plus the copy due to a buffer it
      was granted. */
  lemma StepForwards(align: uint16, ph: Phase, s: seq<Reply>)
    requires Consumes(ph) ==> |s| > 0
    ensures var st := Step(align, ph, s);
      var e := st.event;
      && (st.next.Some? ==>
            (if e.Copy? then [(e.frames, e.bytes)] else []) + Owed(align, st.next.value)
            == Owed(align, ph) + Expected(if Granted(e) then [e.frames] else [], align))
      && (st.next.None? ==> !e.Copy? && Owed(align, ph) == [])
  {
  }

  /** From any phase, the copies a run makes are the one it owes followed by
      one per render buffer it is granted, with the bytes that buffer takes. */
  lemma {:induction false} ForwardsFrom(align: uint16, ph: Phase, s: seq<Reply>)
    decreases |s|, Rank(ph)
    ensures var t := Run(align, ph, s).events;
      Copies(t) == Owed(align, ph) + Expected(Grants(t), align)
  {
    if !(Consumes(ph) && |s| == 0) {
      var st := Step(align, ph, s);
      var e := st.event;
      if st.next.Some? {
        var u := Run(align, st.next.value, st.rest).events;
        assert Run(align, ph, s).events == [e] + u;
        ForwardsFrom(align, st.next.value, st.rest);
        ForwardsCons(align, ph, s, u);
      } else {
        assert Run(align, ph, s).events == [e];
        StepForwards(align, ph, s);
        CopiesGrantsCons(e, []);
      }
    }
  }

  /** A step in front of a run that keeps the account keeps it too. */
  lemma ForwardsCons(align: uint16, ph: Phase, s: seq<Reply>, u: seq<LoopEvent>)
    requires Consumes(ph) ==> |s| > 0
    requires Step(align, ph, s).next.Some?
    requires Copies(u) == Owed(align, Step(align, ph, s).next.value) + Expected(Grants(u), align)
    ensures var e := Step(align, ph, s).event;
      Copies([e] + u) == Owed(align, ph) + Expected(Grants([e] + u), align)
  {
    var e := Step(align, ph, s).event;
    StepForwards(align, ph, s);
    CopiesGrantsCons(e, u);
    var g: seq<uint32> := if Granted(e) then [e.frames] else [];
    ExpectedAppend(g, Grants(u), align);
  }

  lemma ExpectedAppend(a: seq<uint32>, b: seq<uint32>, align: uint16)
    ensures Expected(a + b, align) == Expected(a, align) + Expected(b, align)
  {
  }

  /** Over a run from the top of the loop, the copies are exactly one per
      granted render buffer, in order, each moving the 32-bit product of its
      frames and the block alignment. */
  lemma Forwarding(align: uint16, s: seq<Reply>)
    ensures var t := Run(align, AtPoll, s).events;
      Copies(t) == Expected(Grants(t), align)
  {
    ForwardsFrom(align, AtPoll, s);
  }

  // Two runs of the loop, worked through.

  /** One call of the loop, answered by `r`, followed by the rest of the run. */
  lemma UnfoldCall(align: uint16, ph: Phase, r: Reply, rest: seq<Reply>, u: seq<LoopEvent>, stop: Stop)
    requires Consumes(ph) && Step(align, ph, [r] + rest).next.Some?
    requires Run(align, Step(align, ph, [r] + rest).next.value, rest) == LoopRun(u, stop)
    ensures Run(align, ph, [r] + rest) == LoopRun([Step(align, ph, [r] + rest).event] + u, stop)
  {
  }

  /** A step that makes no call (the copy, the sleep) followed by the rest of the run. */
  lemma UnfoldLocal(align: uint16, ph: Phase, s: seq<Reply>, u: seq<LoopEvent>, stop: Stop)
    requires !Consumes(ph)
    requires Run(align, Step(align, ph, s).next.value, s) == LoopRun(u, stop)
    ensures Run(align, ph, s) == LoopRun([Step(align, ph, s).event] + u, stop)
  {
  }

  /** One packet forwarded in full: the size query reports it, the capture
      and render buffers are obtained for its frames, the copy moves the 32-bit
      byte count, both buffers are released, the drained queue sends the loop
      to sleep, and a failed poll then ends the run. */
  lemma OnePacket(align: uint16, pending: uint32, f: uint32, stop: HResult)
    requires pending != 0 && Failed(stop)
    ensures Run(align, AtPoll,
      [ Reply(SOk, pending), Reply(SOk, f), Reply(SOk, 0), Reply(SOk, 0), Reply(SOk, 0),
        Reply(SOk, 0), Reply(stop, 0) ])
      == LoopRun(
      [ PollPacketSize(SOk, pending), CaptureGetBuffer(SOk, f), RenderGetBuffer(f, SOk), Copy(f, CopySize(f, align)),
        CaptureReleaseBuffer(f, SOk), RenderReleaseBuffer(f, SOk), NextPacketSize(SOk, 0),
        Sleep(IDLE_SLEEP_MS), PollPacketSize(stop, 0) ], TornDown)
  {
    var s1 := [Reply(SOk, f), Reply(SOk, 0), Reply(SOk, 0), Reply(SOk, 0), Reply(SOk, 0), Reply(stop, 0)];
    var u := [ CaptureGetBuffer(SOk, f), RenderGetBuffer(f, SOk), Copy(f, CopySize(f, align)),
               CaptureReleaseBuffer(f, SOk), RenderReleaseBuffer(f, SOk), NextPacketSize(SOk, 0),
               Sleep(IDLE_SLEEP_MS), PollPacketSize(stop, 0) ];
    assert Run(align, AtPoll, [Reply(SOk, pending)] + s1) == LoopRun([PollPacketSize(SOk, pending)] + u, TornDown) by {
      FullPass(align, f, stop);
      UnfoldCall(align, AtPoll, Reply(SOk, pending), s1, u, TornDown);
    }
    assert [Reply(SOk, pending)] + s1 == [ Reply(SOk, pending), Reply(SOk, f), Reply(SOk, 0), Reply(SOk, 0), Reply(SOk, 0),
                                           Reply(SOk, 0), Reply(stop, 0) ];
    assert [PollPacketSize(SOk, pending)] + u ==
      [ PollPacketSize(SOk, pending), CaptureGetBuffer(SOk, f), RenderGetBuffer(f, SOk), Copy(f, CopySize(f, align)),
        CaptureReleaseBuffer(f, SOk), RenderReleaseBuffer(f, SOk), NextPacketSize(SOk, 0),
        Sleep(IDLE_SLEEP_MS), PollPacketSize(stop, 0) ];
  }

  /** A pass over one packet that drains the queue, then the sleep and a failed poll. */
  lemma FullPass(align: uint16, f: uint32, stop: HResult)
    requires Failed(stop)
    ensures Run(align, AtCaptureGet,
      [Reply(SOk, f), Reply(SOk, 0), Reply(SOk, 0), Reply(SOk, 0), Reply(SOk, 0), Reply(stop, 0)])
      == LoopRun(
      [ CaptureGetBuffer(SOk, f), RenderGetBuffer(f, SOk), Copy(f, CopySize(f, align)),
        CaptureReleaseBuffer(f, SOk), RenderReleaseBuffer(f, SOk), NextPacketSize(SOk, 0),
        Sleep(IDLE_SLEEP_MS), PollPacketSize(stop, 0) ], TornDown)
  {
    var tail: seq<Reply> := [Reply(SOk, 0), Reply(SOk, 0), Reply(SOk, 0), Reply(stop, 0)];
    var u := [ CaptureReleaseBuffer(f, SOk), RenderReleaseBuffer(f, SOk), NextPacketSize(SOk, 0),
               Sleep(IDLE_SLEEP_MS), PollPacketSize(stop, 0) ];
    ReleaseThenIdle(align, f, stop);
    CaptureAndCopy(align, f, tail, u, TornDown);
    assert [Reply(SOk, f)] + ([Reply(SOk, 0)] + tail)
      == [Reply(SOk, f), Reply(SOk, 0), Reply(SOk, 0), Reply(SOk, 0), Reply(SOk, 0), Reply(stop, 0)];
    assert [CaptureGetBuffer(SOk, f)] + ([RenderGetBuffer(f, SOk), Copy(f, CopySize(f, align))] + u)
      == [ CaptureGetBuffer(SOk, f), RenderGetBuffer(f, SOk), Copy(f, CopySize(f, align)),
           CaptureReleaseBuffer(f, SOk), RenderReleaseBuffer(f, SOk), NextPacketSize(SOk, 0),
           Sleep(IDLE_SLEEP_MS), PollPacketSize(stop, 0) ];
  }

  /** The start of a pass: the capture buffer and then a render buffer for
      its frames are granted, and the copy is made. */
  lemma CaptureAndCopy(align: uint16, f: uint32, tail: seq<Reply>, u: seq<LoopEvent>, stop: Stop)
    requires Run(align, AtCaptureRelease(f, false), tail) == LoopRun(u, stop)
    ensures Run(align, AtCaptureGet, [Reply(SOk, f)] + ([Reply(SOk, 0)] + tail))
      == LoopRun([CaptureGetBuffer(SOk, f)] + ([RenderGetBuffer(f, SOk), Copy(f, CopySize(f, align))] + u), stop)
  {
    GrantAndCopy(align, f, tail, u, stop);
    UnfoldCall(align, AtCaptureGet, Reply(SOk, f), [Reply(SOk, 0)] + tail,
               [RenderGetBuffer(f, SOk), Copy(f, CopySize(f, align))] + u, stop);
  }

  /** A render buffer granted for `f` frames is copied into at once. */
  lemma GrantAndCopy(align: uint16, f: uint32, tail: seq<Reply>, u: seq<LoopEvent>, stop: Stop)
    requires Run(align, AtCaptureRelease(f, false), tail) == LoopRun(u, stop)
    ensures Run(align, AtRenderGet(f), [Reply(SOk, 0)] + tail)
      == LoopRun([RenderGetBuffer(f, SOk), Copy(f, CopySize(f, align))] + u, stop)
  {
    var copied := [Copy(f, CopySize(f, align))] + u;
    assert Run(align, AtCopy(f), tail) == LoopRun(copied, stop) by {
      UnfoldLocal(align, AtCopy(f), tail, u, stop);
    }
    assert Run(align, AtRenderGet(f), [Reply(SOk, 0)] + tail) == LoopRun([RenderGetBuffer(f, SOk)] + copied, stop) by {
      UnfoldCall(align, AtRenderGet(f), Reply(SOk, 0), tail, copied, stop);
    }
    assert [RenderGetBuffer(f, SOk)] + copied == [RenderGetBuffer(f, SOk), Copy(f, CopySize(f, align))] + u;
  }

  /** The end of a pass that drains the queue: both releases succeed, the
      requery finds nothing, and the loop sleeps and polls again. */
  lemma ReleaseThenIdle(align: uint16, f: uint32, stop: HResult)
    requires Failed(stop)
    ensures Run(align, AtCaptureRelease(f, false), [Reply(SOk, 0), Reply(SOk, 0), Reply(SOk, 0), Reply(stop, 0)])
      == LoopRun([ CaptureReleaseBuffer(f, SOk), RenderReleaseBuffer(f, SOk), NextPacketSize(SOk, 0),
                   Sleep(IDLE_SLEEP_MS), PollPacketSize(stop, 0) ], TornDown)
  {
    var ok := Reply(SOk, 0);
    var s3: seq<Reply> := [Reply(stop, 0)];
    var s2 := [ok] + s3;
    var s1 := [ok] + s2;
    var u := [PollPacketSize(stop, 0)];
    assert Run(align, AtPoll, s3) == LoopRun(u, TornDown);
    UnfoldLocal(align, AtSleep, s3, u, TornDown);
    u := [Sleep(IDLE_SLEEP_MS)] + u;
    UnfoldCall(align, AtRequery, ok, s3, u, TornDown);
    u := [NextPacketSize(SOk, 0)] + u;
    UnfoldCall(align, AtRenderRelease(f), ok, s2, u, TornDown);
    u := [RenderReleaseBuffer(f, SOk)] + u;
    UnfoldCall(align, AtCaptureRelease(f, false), ok, s1, u, TornDown);
    assert [ok] + s1 == [Reply(SOk, 0), Reply(SOk, 0), Reply(SOk, 0), Reply(stop, 0)];
    assert [CaptureReleaseBuffer(f, SOk)] + u ==
      [ CaptureReleaseBuffer(f, SOk), RenderReleaseBuffer(f, SOk), NextPacketSize(SOk, 0),
        Sleep(IDLE_SLEEP_MS), PollPacketSize(stop, 0) ];
  }

  /** When the capture release after a copy fails, the loop sleeps and polls
      again: the render buffer it was granted is never released. */
  lemma FailedCaptureRelease(align: uint16, pending: uint32, f: uint32, hr: HResult, stop: HResult)
    requires pending != 0 && Failed(hr) && Failed(stop)
    ensures Run(align, AtPoll,
      [ Reply(SOk, pending), Reply(SOk, f), Reply(SOk, 0), Reply(hr, 0), Reply(stop, 0) ])
      == LoopRun(
      [ PollPacketSize(SOk, pending), CaptureGetBuffer(SOk, f), RenderGetBuffer(f, SOk), Copy(f, CopySize(f, align)),
        CaptureReleaseBuffer(f, hr), Sleep(IDLE_SLEEP_MS), PollPacketSize(stop, 0) ], TornDown)
  {
    var s1 := [Reply(SOk, f), Reply(SOk, 0), Reply(hr, 0), Reply(stop, 0)];
    var v := [ CaptureGetBuffer(SOk, f), RenderGetBuffer(f, SOk), Copy(f, CopySize(f, align)),
               CaptureReleaseBuffer(f, hr), Sleep(IDLE_SLEEP_MS), PollPacketSize(stop, 0) ];
    assert Run(align, AtPoll, [Reply(SOk, pending)] + s1) == LoopRun([PollPacketSize(SOk, pending)] + v, TornDown) by {
      FailedPass(align, f, hr, stop);
      UnfoldCall(align, AtPoll, Reply(SOk, pending), s1, v, TornDown);
    }
    assert [Reply(SOk, pending)] + s1 == [ Reply(SOk, pending), Reply(SOk, f), Reply(SOk, 0), Reply(hr, 0), Reply(stop, 0) ];
    assert [PollPacketSize(SOk, pending)] + v ==
      [ PollPacketSize(SOk, pending), CaptureGetBuffer(SOk, f), RenderGetBuffer(f, SOk), Copy(f, CopySize(f, align)),
        CaptureReleaseBuffer(f, hr), Sleep(IDLE_SLEEP_MS), PollPacketSize(stop, 0) ];
  }

  /** A pass whose capture release fails after the copy, then the sleep and a failed poll. */
  lemma FailedPass(align: uint16, f: uint32, hr: HResult, stop: HResult)
    requires Failed(hr) && Failed(stop)
    ensures Run(align, AtCaptureGet, [Reply(SOk, f), Reply(SOk, 0), Reply(hr, 0), Reply(stop, 0)])
      == LoopRun(
      [ CaptureGetBuffer(SOk, f), RenderGetBuffer(f, SOk), Copy(f, CopySize(f, align)),
        CaptureReleaseBuffer(f, hr), Sleep(IDLE_SLEEP_MS), PollPacketSize(stop, 0) ], TornDown)
  {
    var tail := [Reply(hr, 0), Reply(stop, 0)];
    var u := [CaptureReleaseBuffer(f, hr), Sleep(IDLE_SLEEP_MS), PollPacketSize(stop, 0)];
    assert Run(align, AtCaptureRelease(f, false), tail) == LoopRun(u, TornDown) by {
      FailedReleaseThenIdle(align, f, hr, stop);
    }
    CaptureAndCopy(align, f, tail, u, TornDown);
    assert [Reply(SOk, f)] + ([Reply(SOk, 0)] + tail) == [Reply(SOk, f), Reply(SOk, 0), Reply(hr, 0), Reply(stop, 0)];
    assert [CaptureGetBuffer(SOk, f)] + ([RenderGetBuffer(f, SOk), Copy(f, CopySize(f, align))] + u)
      == [ CaptureGetBuffer(SOk, f), RenderGetBuffer(f, SOk), Copy(f, CopySize(f, align)),
           CaptureReleaseBuffer(f, hr), Sleep(IDLE_SLEEP_MS), PollPacketSize(stop, 0) ];
  }

  /** A failed capture release sends the loop to sleep and then to the poll. */
  lemma FailedReleaseThenIdle(align: uint16, f: uint32, hr: HResult, stop: HResult)
    requires Failed(hr) && Failed(stop)
    ensures Run(align, AtCaptureRelease(f, false), [Reply(hr, 0), Reply(stop, 0)])
      == LoopRun([CaptureReleaseBuffer(f, hr), Sleep(IDLE_SLEEP_MS), PollPacketSize(stop, 0)], TornDown)
  {
    var s4: seq<Reply> := [Reply(stop, 0)];
    var u := [PollPacketSize(stop, 0)];
    assert Run(align, AtPoll, s4) == LoopRun(u, TornDown);
    UnfoldLocal(align, AtSleep, s4, u, TornDown);
    u := [Sleep(IDLE_SLEEP_MS)] + u;
    UnfoldCall(align, AtCaptureRelease(f, false), Reply(hr, 0), s4, u, TornDown);
    assert [Reply(hr, 0)] + s4 == [Reply(hr, 0), Reply(stop, 0)];
  }
}
