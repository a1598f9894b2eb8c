/** The platform calls the set-up sequence makes, the resources they hand out,
    and the events a run records. */
module Api {
  import opened Platform
  import opened Formats
  import Devices

  /** 100-nanosecond reference-time units per second: the buffer duration of both streams. */
  const REFTIMES_PER_SEC: nat := 10000000

  /** The two audio clients: the default render device's, captured in loopback,
      and the virtual cable's, rendered into. */
  datatype Role = Loopback | Cable

  datatype Call =
    | CoInitialize
    | CreateEnumerator
    | GetDefaultEndpoint
    | Activate(role: Role)
    | GetMixFormat
    | IsFormatSupported(format: WaveFormat)
    | Initialize(role: Role, format: WaveFormat, loopback: bool, bufferDuration: nat)
    | GetService(role: Role)
    | Start(role: Role)

  datatype Resource =
    | ComLibrary
    | Enumerator
    | DefaultDevice
    | CableDevice
    | Client(role: Role)
    | Service(role: Role)
    | FormatBlock(fallback: bool)    // the mix format returned by the platform, or the fallback header

  /** One observable step of the process outside the routing loop. */
  datatype Event =
    | Invoked(call: Call, hr: HResult)
    | CableLookup(found: Option<nat>)
    | Allocate(ok: bool)
    | Release(resource: Resource)
    | Stop(role: Role)

  /** The resource a successful call hands to the program, if any. */
  function Yield(c: Call): set<Resource> {
    if c.CoInitialize? then {ComLibrary}
    else if c.CreateEnumerator? then {Enumerator}
    else if c.GetDefaultEndpoint? then {DefaultDevice}
    else if c.Activate? then {Client(c.role)}
    else if c.GetMixFormat? then {FormatBlock(false)}
    else if c.GetService? then {Service(c.role)}
    else {}
  }

  /** The resources an event leaves the program holding. */
  function AcquiredBy(e: Event): set<Resource> {
    if e.Invoked? then (if Failed(e.hr) then {} else Yield(e.call))
    else if e.CableLookup? then (if e.found.Some? then {CableDevice} else {})
    else if e.Allocate? then (if e.ok then {FormatBlock(true)} else {})
    else {}
  }

  function ReleasedBy(e: Event): set<Resource> {
    if e.Release? then {e.resource} else {}
  }

  /** Everything a sequence of events acquires. */
  function Acquired(t: seq<Event>): set<Resource> {
    if t == [] then {} else AcquiredBy(t[0]) + Acquired(t[1..])
  }

  /** Everything a sequence of events releases. */
  function Released(t: seq<Event>): set<Resource> {
    if t == [] then {} else ReleasedBy(t[0]) + Released(t[1..])
  }

  lemma AcquiredCons(e: Event, t: seq<Event>)
    ensures Acquired([e] + t) == AcquiredBy(e) + Acquired(t)
  {
    assert ([e] + t)[0] == e && ([e] + t)[1..] == t;
  }

  lemma ReleasedCons(e: Event, t: seq<Event>)
    ensures Released([e] + t) == ReleasedBy(e) + Released(t)
  {
    assert ([e] + t)[0] == e && ([e] + t)[1..] == t;
  }

  lemma {:induction false} AcquiredAppend(a: seq<Event>, b: seq<Event>)
    ensures Acquired(a + b) == Acquired(a) + Acquired(b)
  {
    if a == [] {
      assert a + b == b;
    } else {
      assert (a + b)[1..] == a[1..] + b;
      AcquiredAppend(a[1..], b);
    }
  }

  lemma {:induction false} ReleasedAppend(a: seq<Event>, b: seq<Event>)
    ensures Released(a + b) == Released(a) + Released(b)
  {
    if a == [] {
      assert a + b == b;
    } else {
      assert (a + b)[1..] == a[1..] + b;
      ReleasedAppend(a[1..], b);
    }
  }

  /** A resource counts as released exactly when the events hold its release. */
  lemma {:induction false} ReleasedIff(t: seq<Event>, x: Resource)
    ensures x in Released(t) <==> Release(x) in t
  {
    if t != [] {
      ReleasedIff(t[1..], x);
      assert t == [t[0]] + t[1..];
    }
  }

  /** Releases and stops acquire nothing. */
  lemma {:induction false} AcquiresNothing(t: seq<Event>)
    requires forall i | 0 <= i < |t| :: t[i].Release? || t[i].Stop?
    ensures Acquired(t) == {}
  {
    if t != [] {
      AcquiresNothing(t[1..]);
    }
  }

  /** The platform as the set-up sequence sees it: the status every call
      returns, the render catalogue, the native mix format, and whether the
      allocation of the fallback header succeeds. */
  datatype Host = Host(
    result: Call -> HResult,
    catalog: Devices.Catalog,
    mixFormat: WaveFormat,
    fallbackAllocates: bool)
}
