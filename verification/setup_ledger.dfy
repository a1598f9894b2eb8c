/** The resource ledger of the set-up sequence: what each way of ending it
    leaves the process holding. */
module SetupLedger {
  import opened Platform
  import opened Formats
  import opened Api
  import opened Negotiation
  import opened Setup
  import Devices

  /** The resources a run of calls hands out when every call succeeds. */
  function Yields(calls: seq<Call>): set<Resource> {
    if calls == [] then {} else Yield(calls[0]) + Yields(calls[1..])
  }

  /** A checked run of calls releases nothing, and holds exactly what the
      calls before the failing one handed out: everything the calls yield
      when none failed. */
  lemma {:induction false} CheckedLedger(calls: seq<Call>, result: Call -> HResult)
    ensures var r := RunChecked(calls, result);
      && Released(r.events) == {}
      && Acquired(r.events) <= Yields(calls)
      && (r.failedAt.None? ==> Acquired(r.events) == Yields(calls))
    ensures var r := RunChecked(calls, result);
      var n := if r.failedAt.Some? then r.failedAt.value else |calls|;
      n <= |calls| && Acquired(r.events) == Yields(calls[..n])
  {
    if calls != [] {
      var hr := result(calls[0]);
      var e := Invoked(calls[0], hr);
      if Failed(hr) {
        AcquiredCons(e, []);
        ReleasedCons(e, []);
        assert [e] + [] == [e];
      } else {
        var rest := RunChecked(calls[1..], result);
        CheckedLedger(calls[1..], result);
        AcquiredCons(e, rest.events);
        ReleasedCons(e, rest.events);
      }
    }
    CheckedHoldings(calls, result);
  }

  /** What a checked run holds is the yield of the calls before the failing one. */
  lemma {:induction false} CheckedHoldings(calls: seq<Call>, result: Call -> HResult)
    ensures var r := RunChecked(calls, result);
      var n := if r.failedAt.Some? then r.failedAt.value else |calls|;
      n <= |calls| && Acquired(r.events) == Yields(calls[..n])
  {
    if calls == [] {
      assert calls[..0] == [];
    } else {
      var hr := result(calls[0]);
      var e := Invoked(calls[0], hr);
      if Failed(hr) {
        AcquiredCons(e, []);
        assert [e] + [] == [e];
        assert calls[..0] == [];
      } else {
        var rest := RunChecked(calls[1..], result);
        CheckedHoldings(calls[1..], result);
        AcquiredCons(e, rest.events);
        YieldsPrefix(calls, if rest.failedAt.Some? then rest.failedAt.value else |calls[1..]|);
      }
    }
  }

  /** The yield of a prefix one call longer than a prefix of the tail. */
  lemma YieldsPrefix(calls: seq<Call>, m: nat)
    requires m < |calls|
    ensures Yields(calls[..m + 1]) == Yield(calls[0]) + Yields(calls[1..][..m])
  {
    assert calls[..m + 1][1..] == calls[1..][..m];
  }

  const PRELUDE_YIELDS: set<Resource> := {ComLibrary, Enumerator, DefaultDevice}
  const ACTIVATION_YIELDS: set<Resource> := {Client(Loopback), FormatBlock(false), Client(Cable)}
  const STREAM_YIELDS: set<Resource> := {Service(Loopback), Service(Cable)}

  lemma PreludeYields()
    ensures Yields(PRELUDE) == PRELUDE_YIELDS
  {
    var c := PRELUDE;
    assert Yields(c[3..]) == {};
    assert Yields(c[2..]) == {DefaultDevice} by { assert c[2..][1..] == c[3..]; }
    assert Yields(c[1..]) == {Enumerator, DefaultDevice} by { assert c[1..][1..] == c[2..]; }
  }

  lemma ActivationYields()
    ensures Yields(ACTIVATION) == ACTIVATION_YIELDS
  {
    var c := ACTIVATION;
    assert Yields(c[3..]) == {};
    assert Yields(c[2..]) == {Client(Cable)} by { assert c[2..][1..] == c[3..]; }
    assert Yields(c[1..]) == {FormatBlock(false), Client(Cable)} by { assert c[1..][1..] == c[2..]; }
  }

  lemma StreamYields(f: WaveFormat)
    ensures Yields(StreamCalls(f)) == STREAM_YIELDS
  {
    var c := StreamCalls(f);
    assert Yields(c[6..]) == {};
    assert Yields(c[5..]) == {} by { assert c[5..][1..] == c[6..]; }
    assert Yields(c[4..]) == {} by { assert c[4..][1..] == c[5..]; }
    assert Yields(c[3..]) == {Service(Cable)} by { assert c[3..][1..] == c[4..]; }
    assert Yields(c[2..]) == STREAM_YIELDS by { assert c[2..][1..] == c[3..]; }
    assert Yields(c[1..]) == STREAM_YIELDS by { assert c[1..][1..] == c[2..]; }
  }

  const ALLOCATION_FAILURE_RELEASES: set<Resource> :=
    {Client(Cable), Client(Loopback), DefaultDevice, CableDevice, Enumerator, ComLibrary}

  lemma AllocationFailureCleanup()
    ensures Released(ALLOCATION_FAILURE_CLEANUP) == ALLOCATION_FAILURE_RELEASES
    ensures Acquired(ALLOCATION_FAILURE_CLEANUP) == {}
  {
    var t := ALLOCATION_FAILURE_CLEANUP;
    assert Released(t[6..]) == {} && Acquired(t[6..]) == {};
    assert Released(t[5..]) == {ComLibrary} && Acquired(t[5..]) == {} by { assert t[5..][1..] == t[6..]; }
    assert Released(t[4..]) == {Enumerator, ComLibrary} && Acquired(t[4..]) == {} by { assert t[4..][1..] == t[5..]; }
    assert Released(t[3..]) == {CableDevice, Enumerator, ComLibrary} && Acquired(t[3..]) == {} by { assert t[3..][1..] == t[4..]; }
    assert Released(t[2..]) == {DefaultDevice, CableDevice, Enumerator, ComLibrary} && Acquired(t[2..]) == {} by { assert t[2..][1..] == t[3..]; }
    assert Released(t[1..]) == {Client(Loopback), DefaultDevice, CableDevice, Enumerator, ComLibrary} && Acquired(t[1..]) == {} by { assert t[1..][1..] == t[2..]; }
  }

  /** Routing starts holding exactly the resources it needs: everything set-up
      acquired, minus the mix format block when the fallback replaced it. */
  lemma WhenReady(h: Host)
    requires Setup.Setup(h).Ready?
    ensures var r := Setup.Setup(h);
      && Released(r.events) <= Acquired(r.events)
      && Acquired(r.events) - Released(r.events) == HeldWhileRouting(r.swapped)
  {
    ReadyShape(h);
    ReadyLedger(h);
  }

  lemma ReadyLedger(h: Host)
    requires AllChecksPass(h)
    ensures
      var t := ReadyEvents(h);
      && Released(t) <= Acquired(t)
      && Acquired(t) - Released(t) == HeldWhileRouting(Swaps(h))
  {
    var p := RunChecked(PRELUDE, h.result);
    var found := Devices.FindVirtualCable(h.catalog).found;
    var a := RunChecked(ACTIVATION, h.result);
    var n := Negotiate(h.mixFormat, h.result, h.fallbackAllocates);
    var s := RunChecked(StreamCalls(n.outcome.format), h.result);
    CheckedLedger(PRELUDE, h.result);
    PreludeYields();
    CheckedLedger(ACTIVATION, h.result);
    ActivationYields();
    NegotiationAccounting(h.mixFormat, h.result, h.fallbackAllocates);
    CheckedLedger(StreamCalls(n.outcome.format), h.result);
    StreamYields(n.outcome.format);
    ReadyTrace(p.events, found.value, a.events, n.events, s.events, Swaps(h));
  }

  /** The ready trace, stage by stage: prelude, lookup, activation,
      negotiation, streams. */
  lemma ReadyTrace(p: seq<Event>, k: nat, a: seq<Event>, n: seq<Event>, s: seq<Event>, swapped: bool)
    requires Acquired(p) == PRELUDE_YIELDS && Released(p) == {}
    requires Acquired(a) == ACTIVATION_YIELDS && Released(a) == {}
    requires Acquired(n) == (if swapped then {FormatBlock(true)} else {})
    requires Released(n) == (if swapped then {FormatBlock(false)} else {})
    requires Acquired(s) == STREAM_YIELDS && Released(s) == {}
    ensures var t := p + ([CableLookup(Some(k))] + (a + (n + s)));
      && Released(t) <= Acquired(t)
      && Acquired(t) - Released(t) == HeldWhileRouting(swapped)
  {
    var tail := n + s;
    var middle := a + tail;
    var rest := [CableLookup(Some(k))] + middle;
    AcquiredAppend(n, s);
    ReleasedAppend(n, s);
    AcquiredAppend(a, tail);
    ReleasedAppend(a, tail);
    AcquiredCons(CableLookup(Some(k)), middle);
    ReleasedCons(CableLookup(Some(k)), middle);
    AcquiredAppend(p, rest);
    ReleasedAppend(p, rest);
    var gained: set<Resource> := if swapped then {FormatBlock(true)} else {};
    var lost: set<Resource> := if swapped then {FormatBlock(false)} else {};
    assert Acquired(p + rest) == PRELUDE_YIELDS + {CableDevice} + ACTIVATION_YIELDS + gained + STREAM_YIELDS;
    assert Released(p + rest) == lost;
    HeldAfterSwap(Acquired(p + rest), Released(p + rest), swapped);
  }

  lemma HeldAfterSwap(acquired: set<Resource>, released: set<Resource>, swapped: bool)
    requires acquired ==
      PRELUDE_YIELDS + {CableDevice} + ACTIVATION_YIELDS + (if swapped then {FormatBlock(true)} else {}) + STREAM_YIELDS
    requires released == if swapped then {FormatBlock(false)} else {}
    ensures released <= acquired && acquired - released == HeldWhileRouting(swapped)
  {
    forall x: Resource
      ensures x in acquired - released <==> x in HeldWhileRouting(swapped)
    {
      match x
      case FormatBlock(fallback) =>
      case _ =>
    }
  }

  /** A missing virtual cable returns 1 having released the enumerator and COM
      but not the default render device. */
  lemma WhenCableMissing(h: Host)
    requires RunChecked(PRELUDE, h.result).failedAt.None?
    requires Devices.FindVirtualCable(h.catalog).found.None?
    ensures var r := Setup.Setup(h);
      && r == Aborted(Return(1), r.events)
      && Released(r.events) <= Acquired(r.events)
      && Acquired(r.events) - Released(r.events) == {DefaultDevice}
  {
    var p := RunChecked(PRELUDE, h.result);
    assert Setup.Setup(h) == Aborted(Return(1), p.events + NOT_FOUND_TRACE);
    CheckedLedger(PRELUDE, h.result);
    PreludeYields();
    CableMissingTrace(p.events);
  }

  lemma CableMissingTrace(p: seq<Event>)
    requires Acquired(p) == PRELUDE_YIELDS && Released(p) == {}
    ensures var t := p + NOT_FOUND_TRACE;
      && Released(t) <= Acquired(t)
      && Acquired(t) - Released(t) == {DefaultDevice}
  {
    var t := NOT_FOUND_TRACE;
    assert Released(t[3..]) == {} && Acquired(t[3..]) == {};
    assert Released(t[2..]) == {ComLibrary} && Acquired(t[2..]) == {} by { assert t[2..][1..] == t[3..]; }
    assert Released(t[1..]) == {Enumerator, ComLibrary} && Acquired(t[1..]) == {} by { assert t[1..][1..] == t[2..]; }
    AcquiredAppend(p, t);
    ReleasedAppend(p, t);
    assert Acquired(p + t) == PRELUDE_YIELDS;
    assert Released(p + t) == {Enumerator, ComLibrary};
    LeakAfterNotFound(Acquired(p + t), Released(p + t));
  }

  lemma LeakAfterNotFound(acquired: set<Resource>, released: set<Resource>)
    requires acquired == PRELUDE_YIELDS
    requires released == {Enumerator, ComLibrary}
    ensures released <= acquired && acquired - released == {DefaultDevice}
  {
    forall x: Resource
      ensures x in acquired - released <==> x == DefaultDevice
    {
    }
  }

  /** A failed fallback allocation returns 1 having released everything the
      set-up acquired. */
  lemma WhenAllocationFails(h: Host)
    requires RunChecked(PRELUDE, h.result).failedAt.None?
    requires Devices.FindVirtualCable(h.catalog).found.Some?
    requires RunChecked(ACTIVATION, h.result).failedAt.None?
    requires Swaps(h) && !h.fallbackAllocates
    ensures var r := Setup.Setup(h);
      && r == Aborted(Return(1), r.events)
      && Acquired(r.events) == Released(r.events)
  {
    var p := RunChecked(PRELUDE, h.result);
    var found := Devices.FindVirtualCable(h.catalog).found;
    var a := RunChecked(ACTIVATION, h.result);
    var n := Negotiate(h.mixFormat, h.result, h.fallbackAllocates);
    assert Setup.Setup(h) ==
      Aborted(Return(1), p.events + ([CableLookup(found)] + (a.events + (n.events + ALLOCATION_FAILURE_CLEANUP))));
    CheckedLedger(PRELUDE, h.result);
    PreludeYields();
    CheckedLedger(ACTIVATION, h.result);
    ActivationYields();
    NegotiationAccounting(h.mixFormat, h.result, h.fallbackAllocates);
    AllocationFailureTrace(p.events, found.value, a.events, n.events);
  }

  lemma AllocationFailureTrace(p: seq<Event>, k: nat, a: seq<Event>, n: seq<Event>)
    requires Acquired(p) == PRELUDE_YIELDS && Released(p) == {}
    requires Acquired(a) == ACTIVATION_YIELDS && Released(a) == {}
    requires Acquired(n) == {} && Released(n) == {FormatBlock(false)}
    ensures var t := p + ([CableLookup(Some(k))] + (a + (n + ALLOCATION_FAILURE_CLEANUP)));
      Acquired(t) == Released(t)
  {
    var tail := n + ALLOCATION_FAILURE_CLEANUP;
    var middle := a + tail;
    var rest := [CableLookup(Some(k))] + middle;
    AllocationFailureCleanup();
    AcquiredAppend(n, ALLOCATION_FAILURE_CLEANUP);
    ReleasedAppend(n, ALLOCATION_FAILURE_CLEANUP);
    AcquiredAppend(a, tail);
    ReleasedAppend(a, tail);
    AcquiredCons(CableLookup(Some(k)), middle);
    ReleasedCons(CableLookup(Some(k)), middle);
    AcquiredAppend(p, rest);
    ReleasedAppend(p, rest);
    assert Acquired(p + rest) == PRELUDE_YIELDS + {CableDevice} + ACTIVATION_YIELDS;
    assert Released(p + rest) == {FormatBlock(false)} + ALLOCATION_FAILURE_RELEASES;
    Balanced(Acquired(p + rest), Released(p + rest));
  }

  lemma Balanced(acquired: set<Resource>, released: set<Resource>)
    requires acquired == PRELUDE_YIELDS + {CableDevice} + ACTIVATION_YIELDS
    requires released == {FormatBlock(false)} + ALLOCATION_FAILURE_RELEASES
    ensures acquired == released
  {
    forall x: Resource
      ensures x in acquired <==> x in released
    {
      match x
      case FormatBlock(fallback) =>
      case _ =>
    }
  }

  /** A failed status check exits at once: the only resource released before
      it is a mix format block the fallback replaced. */
  lemma WhenCheckFails(h: Host)
    requires Setup.Setup(h).Aborted? && Setup.Setup(h).status == Exit(1)
    ensures Released(Setup.Setup(h).events) <= {FormatBlock(false)}
  {
    var p := RunChecked(PRELUDE, h.result);
    CheckedLedger(PRELUDE, h.result);
    if p.failedAt.None? {
      var d := Discover(h);
      DiscoverExitReleases(h);
      ReleasedAppend(p.events, d.events);
    }
  }

  lemma DiscoverExitReleases(h: Host)
    requires Discover(h).Aborted? && Discover(h).status == Exit(1)
    ensures Released(Discover(h).events) <= {FormatBlock(false)}
  {
    var found := Devices.FindVirtualCable(h.catalog).found;
    var a := Activation(h);
    ActivationExitReleases(h);
    ReleasedCons(CableLookup(found), a.events);
  }

  lemma ActivationExitReleases(h: Host)
    requires Activation(h).Aborted? && Activation(h).status == Exit(1)
    ensures Released(Activation(h).events) <= {FormatBlock(false)}
  {
    var a := RunChecked(ACTIVATION, h.result);
    CheckedLedger(ACTIVATION, h.result);
    if a.failedAt.None? {
      var g := Agreement(h);
      AgreementExitReleases(h);
      ReleasedAppend(a.events, g.events);
    }
  }

  lemma AgreementExitReleases(h: Host)
    requires Agreement(h).Aborted? && Agreement(h).status == Exit(1)
    ensures Released(Agreement(h).events) <= {FormatBlock(false)}
  {
    var n := Negotiate(h.mixFormat, h.result, h.fallbackAllocates);
    NegotiationAccounting(h.mixFormat, h.result, h.fallbackAllocates);
    if n.outcome.Agreed? {
      var s := RunChecked(StreamCalls(n.outcome.format), h.result);
      CheckedLedger(StreamCalls(n.outcome.format), h.result);
      ReleasedAppend(n.events, s.events);
    }
  }
}
