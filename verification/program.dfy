/** The process as a whole: set-up, then the routing loop, then — only when
    the poll at the top of the loop fails — the teardown and `return 0`. */
module Program {
  import opened Platform
  import opened Api
  import Setup
  import SetupLedger
  import Routing

  /** Both streams are stopped, then every interface is released in the order
      the program lists them, the format block is freed and the COM library
      is uninitialised. */
  function Teardown(swapped: bool): (t: seq<Event>)
    ensures |t| > 2 && t[0] == Stop(Loopback) && t[1] == Stop(Cable)
    ensures forall i | 2 <= i < |t| :: t[i].Release?
    ensures Release(FormatBlock(swapped)) in t
    ensures t[|t| - 1] == Release(ComLibrary)
  {
    [ Stop(Loopback), Stop(Cable),
      Release(Service(Loopback)), Release(Service(Cable)),
      Release(Client(Loopback)), Release(Client(Cable)),
      Release(DefaultDevice), Release(CableDevice), Release(Enumerator),
      Release(FormatBlock(swapped)), Release(ComLibrary) ]
  }

  /** Everything the process did: its status, the set-up events, the loop's
      events and the teardown events. */
  datatype Process = Process(
    status: Setup.Status,
    setup: seq<Event>,
    loop: seq<Routing.LoopEvent>,
    teardown: seq<Event>)

  /** The process on host `h`, with the loop answered by `script`. */
  function RunProgram(h: Host, script: seq<Routing.Reply>): (p: Process)
    ensures p.status in {Setup.Exit(1), Setup.Return(1), Setup.Return(0), Setup.StillRouting}
    ensures p.status.Exit? ==> p.loop == []
    ensures p.status == Setup.Return(1) ==> p.loop == []
    ensures p.loop != [] ==> Setup.Setup(h).Ready?
    ensures p.teardown != [] <==> p.status == Setup.Return(0)
  {
    Finish(Setup.Setup(h), script)
  }

  /** What follows the set-up outcome `r`: an aborted set-up ends the process
      with its status; a completed one routes audio until the loop stops, with
      the copy size computed from the block alignment of the agreed format,
      and then tears down. */
  function Finish(r: Setup.SetupRun, script: seq<Routing.Reply>): (p: Process)
    ensures p.setup == r.events
    ensures r.Aborted? ==> p.status == r.status && p.loop == [] && p.teardown == []
    ensures r.Ready? ==> p.status == Setup.Return(0) || p.status == Setup.StillRouting
    ensures r.Ready? ==> (p.status == Setup.Return(0) <==> p.teardown == Teardown(r.swapped))
  {
    if r.Aborted? then Process(r.status, r.events, [], [])
    else
      var run := Routing.Run(r.format.blockAlign, Routing.AtPoll, script);
      if run.stop.TornDown? then Process(Setup.Return(0), r.events, run.events, Teardown(r.swapped))
      else Process(Setup.StillRouting, r.events, run.events, [])
  }

  /** After a completed set-up the process returns 0 exactly when a poll at
      the top of the loop failed, and then that poll is the loop's last event;
      otherwise it keeps routing. */
  lemma Outcome(r: Setup.SetupRun, script: seq<Routing.Reply>)
    requires r.Ready?
    ensures var p := Finish(r, script);
      && (p.status == Setup.Return(0) || p.status == Setup.StillRouting)
      && (p.status == Setup.Return(0) <==> exists i | 0 <= i < |p.loop| :: Routing.FailedPoll(p.loop[i]))
      && (p.status == Setup.Return(0) ==> Routing.FailedPoll(p.loop[|p.loop| - 1]))
  {
    var p := Finish(r, script);
    var align := r.format.blockAlign;
    if p.loop != [] {
      Routing.LastIsFinal(p.loop);
    }
    Routing.RunIsLoopTrace(align, script);
    Routing.PollPolicy(align, p.loop);
    if exists i | 0 <= i < |p.loop| :: Routing.FailedPoll(p.loop[i]) {
      var i :| 0 <= i < |p.loop| && Routing.FailedPoll(p.loop[i]);
      assert i == |p.loop| - 1;
    }
  }

  /** The teardown acquires nothing and releases exactly what routing holds. */
  lemma TeardownLedger(swapped: bool)
    ensures Acquired(Teardown(swapped)) == {}
    ensures Released(Teardown(swapped)) == Setup.HeldWhileRouting(swapped)
  {
    AcquiresNothing(Teardown(swapped));
    forall x: Resource
      ensures x in Released(Teardown(swapped)) <==> x in Setup.HeldWhileRouting(swapped)
    {
      TeardownReleases(swapped, x);
    }
  }

  lemma TeardownReleases(swapped: bool, x: Resource)
    ensures x in Released(Teardown(swapped)) <==> x in Setup.HeldWhileRouting(swapped)
  {
    var t := Teardown(swapped);
    ReleasedIff(t, x);
    if x in Setup.HeldWhileRouting(swapped) {
      match x
      case ComLibrary => assert t[10] == Release(x);
      case Enumerator => assert t[8] == Release(x);
      case DefaultDevice => assert t[6] == Release(x);
      case CableDevice => assert t[7] == Release(x);
      case Client(role) => assert t[if role.Loopback? then 4 else 5] == Release(x);
      case Service(role) => assert t[if role.Loopback? then 2 else 3] == Release(x);
      case FormatBlock(_) => assert t[9] == Release(x);
    }
  }

  /** Set-up events that leave exactly the routing resources held, followed by
      the teardown, release everything they acquire. */
  lemma ShutdownTrace(a: seq<Event>, swapped: bool)
    requires Released(a) <= Acquired(a)
    requires Acquired(a) - Released(a) == Setup.HeldWhileRouting(swapped)
    ensures Released(a + Teardown(swapped)) == Acquired(a + Teardown(swapped))
  {
    var t := Teardown(swapped);
    TeardownLedger(swapped);
    AcquiredAppend(a, t);
    ReleasedAppend(a, t);
    forall x: Resource
      ensures x in Released(a + t) <==> x in Acquired(a + t)
    {
    }
  }

  /** A completed set-up that left exactly the routing resources held, whose
      process returns 0, has released everything it acquired. */
  lemma ReadyShutdown(r: Setup.SetupRun, script: seq<Routing.Reply>)
    requires r.Ready?
    requires Released(r.events) <= Acquired(r.events)
    requires Acquired(r.events) - Released(r.events) == Setup.HeldWhileRouting(r.swapped)
    requires Finish(r, script).status == Setup.Return(0)
    ensures var p := Finish(r, script);
      Released(p.setup + p.teardown) == Acquired(p.setup + p.teardown)
  {
    ShutdownTrace(r.events, r.swapped);
  }

  /** A process that returns 0 has released everything it acquired: the
      teardown releases exactly what set-up left held. */
  lemma CleanShutdown(h: Host, script: seq<Routing.Reply>)
    requires RunProgram(h, script).status == Setup.Return(0)
    ensures var p := RunProgram(h, script);
      Released(p.setup + p.teardown) == Acquired(p.setup + p.teardown)
  {
    var r := Setup.Setup(h);
    assert RunProgram(h, script) == Finish(r, script);
    SetupLedger.WhenReady(h);
    ReadyShutdown(r, script);
  }
}
