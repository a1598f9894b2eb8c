/** The set-up sequence of the process: platform initialisation, endpoint
    discovery, format negotiation and stream preparation, in that order, where
    the first failure ends the process with status 1. */
module Setup {
  import opened Platform
  import opened Formats
  import opened Api
  import opened Negotiation
  import Devices

  /** How the process ends: `exit` from the status check, `return` from main,
      or not at all because it is still routing audio. */
  datatype Status = Exit(code: int) | Return(code: int) | StillRouting

  /** A finished set-up: ready to route with the agreed format (`swapped` when
      it is the fallback header rather than the mix format), or aborted. */
  datatype SetupRun =
    | Ready(format: WaveFormat, swapped: bool, events: seq<Event>)
    | Aborted(status: Status, events: seq<Event>)

  const PRELUDE: seq<Call> := [CoInitialize, CreateEnumerator, GetDefaultEndpoint]
  const ACTIVATION: seq<Call> := [Activate(Loopback), GetMixFormat, Activate(Cable)]

  /** Both clients are initialised with the same format and the same one-second
      buffer (only the default device's in loopback mode), both services are
      obtained, and only then are the two streams started. */
  function StreamCalls(f: WaveFormat): seq<Call> {
    [ Initialize(Loopback, f, true, REFTIMES_PER_SEC), Initialize(Cable, f, false, REFTIMES_PER_SEC),
      GetService(Loopback), GetService(Cable),
      Start(Loopback), Start(Cable) ]
  }

  /** The lookup's outcome and the clean-up on the "cable not found" path. */
  const NOT_FOUND_TRACE: seq<Event> := [CableLookup(None), Release(Enumerator), Release(ComLibrary)]

  /** The clean-up on the fallback-allocation failure path. */
  const ALLOCATION_FAILURE_CLEANUP: seq<Event> :=
    [ Release(Client(Cable)), Release(Client(Loopback)), Release(DefaultDevice),
      Release(CableDevice), Release(Enumerator), Release(ComLibrary) ]

  /** What the process holds while it routes audio. */
  function HeldWhileRouting(swapped: bool): set<Resource> {
    { ComLibrary, Enumerator, DefaultDevice, CableDevice, Client(Loopback), Client(Cable),
      FormatBlock(swapped), Service(Loopback), Service(Cable) }
  }

  datatype Checked = Checked(failedAt: Option<nat>, events: seq<Event>)

  /** A run of calls each followed by the status check: it stops at the first
      failure, which exits the process. */
  function RunChecked(calls: seq<Call>, result: Call -> HResult): (r: Checked)
    ensures |r.events| <= |calls|
    ensures forall k | 0 <= k < |r.events| :: r.events[k] == Invoked(calls[k], result(calls[k]))
    ensures r.failedAt.None? ==> |r.events| == |calls| && forall k | 0 <= k < |calls| :: !Failed(result(calls[k]))
    ensures r.failedAt.Some? ==>
      && r.failedAt.value == |r.events| - 1
      && Failed(result(calls[r.failedAt.value]))
      && forall k | 0 <= k < r.failedAt.value :: !Failed(result(calls[k]))
  {
    if calls == [] then Checked(None, [])
    else
      var hr := result(calls[0]);
      if Failed(hr) then Checked(Some(0), [Invoked(calls[0], hr)])
      else
        var rest := RunChecked(calls[1..], result);
        Checked(if rest.failedAt.Some? then Some(rest.failedAt.value + 1) else None, [Invoked(calls[0], hr)] + rest.events)
  }

  /** The last recorded event is a call whose status check failed. */
  predicate EndsInFailedCall(t: seq<Event>) {
    |t| > 0 && t[|t| - 1].Invoked? && Failed(t[|t| - 1].hr)
  }

  /** `r`, with the events `t` recorded before it. */
  function Prefix(t: seq<Event>, r: SetupRun): (p: SetupRun)
    ensures p.events == t + r.events
    ensures r.events != [] ==> (EndsInFailedCall(p.events) <==> EndsInFailedCall(r.events))
  {
    var u := t + r.events;
    assert r.events != [] ==> u[|u| - 1] == r.events[|r.events| - 1];
    match r
    case Ready(f, swapped, _) => Ready(f, swapped, u)
    case Aborted(status, _) => Aborted(status, u)
  }

  /** The set-up sequence of main, from COM initialisation to the start of
      both streams. */
  function Setup(h: Host): (r: SetupRun)
    ensures r.Aborted? ==> r.status == Exit(1) || r.status == Return(1)
    ensures r.Aborted? ==> (r.status == Exit(1) <==> EndsInFailedCall(r.events))
  {
    var prelude := RunChecked(PRELUDE, h.result);
    if prelude.failedAt.Some? then Aborted(Exit(1), prelude.events)
    else Prefix(prelude.events, Discover(h))
  }

  /** The virtual-cable lookup; not finding one releases the enumerator and
      COM, and returns 1. */
  function Discover(h: Host): (r: SetupRun)
    ensures r.Aborted? ==> r.status == Exit(1) || r.status == Return(1)
    ensures r.Aborted? ==> (r.status == Exit(1) <==> EndsInFailedCall(r.events))
    ensures Devices.FindVirtualCable(h.catalog).found.None? ==> r == Aborted(Return(1), NOT_FOUND_TRACE)
  {
    var lookup := Devices.FindVirtualCable(h.catalog);
    if lookup.found.None? then Aborted(Return(1), NOT_FOUND_TRACE)
    else Prefix([CableLookup(lookup.found)], Activation(h))
  }

  /** Both clients are activated and the mix format read before negotiation. */
  function Activation(h: Host): (r: SetupRun)
    ensures r.Aborted? ==> r.status == Exit(1) || r.status == Return(1)
    ensures r.Aborted? ==> (r.status == Exit(1) <==> EndsInFailedCall(r.events))
  {
    var activation := RunChecked(ACTIVATION, h.result);
    if activation.failedAt.Some? then Aborted(Exit(1), activation.events)
    else Prefix(activation.events, Agreement(h))
  }

  /** The cable's answer to the mix format triggers the fallback. */
  predicate Swaps(h: Host) {
    h.result(IsFormatSupported(h.mixFormat)) == UnsupportedFormat
  }

  /** The negotiation block: a failed fallback allocation releases everything
      held so far and returns 1; a refused fallback exits. */
  function Agreement(h: Host): (r: SetupRun)
    ensures r.Aborted? ==> r.status == Exit(1) || r.status == Return(1)
    ensures r.Aborted? ==> (r.status == Exit(1) <==> EndsInFailedCall(r.events))
    ensures r.Aborted? && r.status == Return(1) <==>
      Negotiate(h.mixFormat, h.result, h.fallbackAllocates).outcome.AllocationFailed?
  {
    var negotiation := Negotiate(h.mixFormat, h.result, h.fallbackAllocates);
    match negotiation.outcome
    case AllocationFailed => Aborted(Return(1), negotiation.events + ALLOCATION_FAILURE_CLEANUP)
    case Refused => Aborted(Exit(1), negotiation.events)
    case Agreed(format) =>
      Prefix(negotiation.events, Streams(h, format, Swaps(h)))
  }

  /** Stream initialisation, service lookup and start, all with the agreed format. */
  function Streams(h: Host, f: WaveFormat, swapped: bool): (r: SetupRun)
    ensures r.Aborted? ==> r.status == Exit(1) && EndsInFailedCall(r.events)
    ensures r.Ready? ==> r.format == f && r.swapped == swapped
  {
    var streams := RunChecked(StreamCalls(f), h.result);
    if streams.failedAt.Some? then Aborted(Exit(1), streams.events) else Ready(f, swapped, streams.events)
  }

  // Ordering of the stream calls.

  predicate IsStart(e: Event) {
    e.Invoked? && e.call.Start?
  }

  predicate NoStart(t: seq<Event>) {
    forall i | 0 <= i < |t| :: !IsStart(t[i])
  }

  /** The events of the six stream calls for format `f`: each call with its result. */
  function StreamEvents(f: WaveFormat, result: Call -> HResult): seq<Event> {
    var c := StreamCalls(f);
    seq(|c|, k requires 0 <= k < |c| => Invoked(c[k], result(c[k])))
  }

  /** `t` ends with the six stream calls for format `f`, each of which
      succeeded, and no stream is started anywhere before the last two events. */
  predicate StreamsStartedLast(t: seq<Event>, f: WaveFormat, result: Call -> HResult) {
    && |t| >= 6
    && t[|t| - 6..] == StreamEvents(f, result)
    && (forall k | 0 <= k < 6 :: !Failed(result(StreamCalls(f)[k])))
    && NoStart(t[..|t| - 2])
  }

  lemma CheckedNoStart(calls: seq<Call>, result: Call -> HResult)
    requires forall k | 0 <= k < |calls| :: !calls[k].Start?
    ensures NoStart(RunChecked(calls, result).events)
  {
  }

  lemma NoStartInPrelude()
    ensures forall k | 0 <= k < |PRELUDE| :: !PRELUDE[k].Start?
    ensures forall k | 0 <= k < |ACTIVATION| :: !ACTIVATION[k].Start?
  {
  }

  lemma NoStartAppend(a: seq<Event>, b: seq<Event>)
    requires NoStart(a) && NoStart(b)
    ensures NoStart(a + b)
  {
    forall i | 0 <= i < |a + b|
      ensures !IsStart((a + b)[i])
    {
      if i < |a| {
        assert (a + b)[i] == a[i];
      } else {
        assert (a + b)[i] == b[i - |a|];
      }
    }
  }

  /** Every check of the set-up passed and the negotiation agreed on a format. */
  predicate AllChecksPass(h: Host) {
    && RunChecked(PRELUDE, h.result).failedAt.None?
    && Devices.FindVirtualCable(h.catalog).found.Some?
    && RunChecked(ACTIVATION, h.result).failedAt.None?
    && Negotiate(h.mixFormat, h.result, h.fallbackAllocates).outcome.Agreed?
    && RunChecked(StreamCalls(Negotiate(h.mixFormat, h.result, h.fallbackAllocates).outcome.format), h.result).failedAt.None?
  }

  /** main returns 1 exactly on its two explicit error paths: no virtual
      cable among the render endpoints, or no memory for the fallback format. */
  lemma ReturnsOne(h: Host)
    ensures var r := Setup(h);
      r.Aborted? && r.status == Return(1) <==>
        && RunChecked(PRELUDE, h.result).failedAt.None?
        && (|| Devices.FindVirtualCable(h.catalog).found.None?
            || (RunChecked(ACTIVATION, h.result).failedAt.None? && Swaps(h) && !h.fallbackAllocates))
  {
    var p := RunChecked(PRELUDE, h.result);
    if p.failedAt.None? {
      DiscoverReturnsOne(h);
      assert Setup(h) == Prefix(p.events, Discover(h));
    }
  }

  lemma DiscoverReturnsOne(h: Host)
    ensures var r := Discover(h);
      r.Aborted? && r.status == Return(1) <==>
        || Devices.FindVirtualCable(h.catalog).found.None?
        || (RunChecked(ACTIVATION, h.result).failedAt.None? && Swaps(h) && !h.fallbackAllocates)
  {
    var found := Devices.FindVirtualCable(h.catalog).found;
    if found.Some? {
      ActivationReturnsOne(h);
      assert Discover(h) == Prefix([CableLookup(found)], Activation(h));
    }
  }

  lemma ActivationReturnsOne(h: Host)
    ensures var r := Activation(h);
      r.Aborted? && r.status == Return(1) <==>
        RunChecked(ACTIVATION, h.result).failedAt.None? && Swaps(h) && !h.fallbackAllocates
  {
    var a := RunChecked(ACTIVATION, h.result);
    if a.failedAt.None? {
      assert Activation(h) == Prefix(a.events, Agreement(h));
      var n := Negotiate(h.mixFormat, h.result, h.fallbackAllocates);
      assert Agreement(h).Aborted? && Agreement(h).status == Return(1) <==> n.outcome.AllocationFailed?;
    }
  }

  /** The trace of a set-up in which every check passes: each stage's events in turn. */
  function ReadyEvents(h: Host): seq<Event>
    requires AllChecksPass(h)
  {
    var n := Negotiate(h.mixFormat, h.result, h.fallbackAllocates);
    RunChecked(PRELUDE, h.result).events
    + ([CableLookup(Devices.FindVirtualCable(h.catalog).found)]
    + (RunChecked(ACTIVATION, h.result).events
    + (n.events + RunChecked(StreamCalls(n.outcome.format), h.result).events)))
  }

  /** The set-up is ready to route exactly when every check passes; its trace
      is then the trace of each stage in turn, and its format the agreed one. */
  lemma ReadyShape(h: Host)
    ensures Setup(h).Ready? <==> AllChecksPass(h)
    ensures Setup(h).Ready? ==>
      && Setup(h).format == Negotiate(h.mixFormat, h.result, h.fallbackAllocates).outcome.format
      && Setup(h).swapped == Swaps(h)
      && Setup(h).events == ReadyEvents(h)
  {
  }

  /** Routing begins only once both clients are initialised with the agreed
      format, both services are obtained and both streams started, in that
      order; nothing earlier starts a stream. */
  lemma StartsLast(h: Host)
    requires Setup(h).Ready?
    ensures StreamsStartedLast(Setup(h).events, Setup(h).format, h.result)
  {
    ReadyShape(h);
    ReadyStartsLast(h);
  }

  lemma ReadyStartsLast(h: Host)
    requires AllChecksPass(h)
    ensures StreamsStartedLast(ReadyEvents(h), Negotiate(h.mixFormat, h.result, h.fallbackAllocates).outcome.format, h.result)
  {
    var p := RunChecked(PRELUDE, h.result);
    var found := Devices.FindVirtualCable(h.catalog).found;
    var a := RunChecked(ACTIVATION, h.result);
    var n := Negotiate(h.mixFormat, h.result, h.fallbackAllocates);
    var f := n.outcome.format;
    var s := RunChecked(StreamCalls(f), h.result);
    assert NoStart(p.events) && NoStart(a.events) by {
      EarlyStagesNoStart(h.result);
    }
    assert NoStart(n.events) by {
      NegotiationNoStart(h.mixFormat, h.result, h.fallbackAllocates);
    }
    assert NoStart([CableLookup(found)]);
    assert s.events == StreamEvents(f, h.result) && forall k | 0 <= k < 6 :: !Failed(h.result(StreamCalls(f)[k])) by {
      StreamRun(f, h.result);
    }
    StartsLastTrace(p.events, [CableLookup(found)], a.events, n.events, s.events, f, h.result);
  }

  lemma EarlyStagesNoStart(result: Call -> HResult)
    ensures NoStart(RunChecked(PRELUDE, result).events)
    ensures NoStart(RunChecked(ACTIVATION, result).events)
  {
    NoStartInPrelude();
    CheckedNoStart(PRELUDE, result);
    CheckedNoStart(ACTIVATION, result);
  }

  lemma NegotiationNoStart(mix: WaveFormat, result: Call -> HResult, allocates: bool)
    ensures NoStart(Negotiate(mix, result, allocates).events)
  {
    var t := Negotiate(mix, result, allocates).events;
    forall i | 0 <= i < |t|
      ensures !IsStart(t[i])
    {
      assert t[i] in t;
    }
  }

  lemma StartsLastTrace(p: seq<Event>, l: seq<Event>, a: seq<Event>, n: seq<Event>, s: seq<Event>,
                        f: WaveFormat, result: Call -> HResult)
    requires NoStart(p) && NoStart(l) && NoStart(a) && NoStart(n)
    requires s == StreamEvents(f, result)
    requires forall k | 0 <= k < 6 :: !Failed(result(StreamCalls(f)[k]))
    ensures StreamsStartedLast(p + (l + (a + (n + s))), f, result)
  {
    NoStartAppend(p, l);
    NoStartAppend(p + l, a);
    NoStartAppend(p + l + a, n);
    var before := p + l + a + n;
    assert p + (l + (a + (n + s))) == before + s;
    var t := before + s;
    assert t[|t| - 6..] == s;
    assert NoStart(s[..4]);
    NoStartAppend(before, s[..4]);
    assert t[..|t| - 2] == before + s[..4];
  }

  /** A stream stage in which no check failed made exactly the six stream calls. */
  lemma StreamRun(f: WaveFormat, result: Call -> HResult)
    requires RunChecked(StreamCalls(f), result).failedAt.None?
    ensures RunChecked(StreamCalls(f), result).events == StreamEvents(f, result)
    ensures forall k | 0 <= k < 6 :: !Failed(result(StreamCalls(f)[k]))
  {
    var s := RunChecked(StreamCalls(f), result);
    assert |s.events| == 6;
    forall k | 0 <= k < 6
      ensures s.events[k] == StreamEvents(f, result)[k]
    {
    }
  }
}
