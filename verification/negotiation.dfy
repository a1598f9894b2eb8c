/** Choosing the one format both streams are initialised with. */
module Negotiation {
  import opened Platform
  import opened Formats
  import opened Api

  datatype Negotiated = Agreed(format: WaveFormat) | Refused | AllocationFailed

  datatype NegotiationRun = NegotiationRun(outcome: Negotiated, events: seq<Event>)

  /** Asks the cable whether it takes the native mix format in shared mode. Only
      the exact answer "unsupported format" makes the program free the mix
      format, allocate the fallback header and ask again; every other answer,
      failures included, keeps the mix format. */
  function Negotiate(mix: WaveFormat, result: Call -> HResult, allocates: bool): (r: NegotiationRun)
    ensures |r.events| > 0 && r.events[0] == Invoked(IsFormatSupported(mix), result(IsFormatSupported(mix)))
    ensures result(IsFormatSupported(mix)) != UnsupportedFormat ==> r.outcome == Agreed(mix) && |r.events| == 1
    ensures (Allocate(true) in r.events || Allocate(false) in r.events) <==>
      result(IsFormatSupported(mix)) == UnsupportedFormat
    ensures r.outcome.AllocationFailed? <==> result(IsFormatSupported(mix)) == UnsupportedFormat && !allocates
    ensures r.outcome.Refused? <==>
      && result(IsFormatSupported(mix)) == UnsupportedFormat && allocates
      && Failed(result(IsFormatSupported(Fallback())))
    ensures r.outcome.Agreed? && result(IsFormatSupported(mix)) == UnsupportedFormat ==>
      r.outcome.format == Fallback() && !Failed(result(IsFormatSupported(Fallback())))
    ensures forall e | e in r.events :: e.Invoked? ==> e.call.IsFormatSupported?
    ensures r.outcome.Refused? ==> r.events[|r.events| - 1] == Invoked(IsFormatSupported(Fallback()), result(IsFormatSupported(Fallback())))
  {
    var first := result(IsFormatSupported(mix));
    var probe := [Invoked(IsFormatSupported(mix), first)];
    if first != UnsupportedFormat then NegotiationRun(Agreed(mix), probe)
    else if !allocates then NegotiationRun(AllocationFailed, probe + [Release(FormatBlock(false)), Allocate(false)])
    else
      var fallback := Fallback();
      var second := result(IsFormatSupported(fallback));
      var t := probe + [Release(FormatBlock(false)), Allocate(true), Invoked(IsFormatSupported(fallback), second)];
      if Failed(second) then NegotiationRun(Refused, t) else NegotiationRun(Agreed(fallback), t)
  }

  /** Ledger of the swap: the probe moves no resource, the mix format block is
      freed and, when the allocation succeeds, a new one is held. */
  lemma SwapLedger(mix: WaveFormat, hr: HResult, ok: bool)
    ensures var t := [Invoked(IsFormatSupported(mix), hr), Release(FormatBlock(false)), Allocate(ok)];
      && Released(t) == {FormatBlock(false)}
      && Acquired(t) == (if ok then {FormatBlock(true)} else {})
  {
    var first := Invoked(IsFormatSupported(mix), hr);
    var alloc := Allocate(ok);
    var t2 := [alloc];
    var t1 := [Release(FormatBlock(false))] + t2;
    ReleasedCons(alloc, []);
    ReleasedCons(Release(FormatBlock(false)), t2);
    ReleasedCons(first, t1);
    AcquiredCons(alloc, []);
    AcquiredCons(Release(FormatBlock(false)), t2);
    AcquiredCons(first, t1);
    assert [alloc] + [] == t2;
    assert [first] + t1 == [first, Release(FormatBlock(false)), alloc];
  }

  /** A further probe after the swap moves no resource either. */
  lemma ReprobeLedger(mix: WaveFormat, hr: HResult, second: HResult)
    ensures var t := [Invoked(IsFormatSupported(mix), hr), Release(FormatBlock(false)), Allocate(true),
                      Invoked(IsFormatSupported(Fallback()), second)];
      Released(t) == {FormatBlock(false)} && Acquired(t) == {FormatBlock(true)}
  {
    var probe := Invoked(IsFormatSupported(Fallback()), second);
    var swap := [Invoked(IsFormatSupported(mix), hr), Release(FormatBlock(false)), Allocate(true)];
    SwapLedger(mix, hr, true);
    ReleasedCons(probe, []);
    AcquiredCons(probe, []);
    AcquiredAppend(swap, [probe]);
    ReleasedAppend(swap, [probe]);
    assert [probe] + [] == [probe];
    assert swap + [probe] == [Invoked(IsFormatSupported(mix), hr), Release(FormatBlock(false)), Allocate(true), probe];
  }

  /** The format block is swapped, never lost: negotiation releases the mix
      format exactly when it allocates (or tries to allocate) the fallback,
      and holds a new block exactly when that allocation succeeds. */
  lemma NegotiationAccounting(mix: WaveFormat, result: Call -> HResult, allocates: bool)
    ensures var r := Negotiate(mix, result, allocates);
      var swapped := result(IsFormatSupported(mix)) == UnsupportedFormat;
      && Released(r.events) == (if swapped then {FormatBlock(false)} else {})
      && Acquired(r.events) == (if swapped && allocates then {FormatBlock(true)} else {})
  {
    var r := Negotiate(mix, result, allocates);
    var hr := result(IsFormatSupported(mix));
    var first := Invoked(IsFormatSupported(mix), hr);
    if hr != UnsupportedFormat {
      AcquiredCons(first, []);
      ReleasedCons(first, []);
      assert [first] + [] == [first] == r.events;
    } else if allocates {
      ReprobeLedger(mix, hr, result(IsFormatSupported(Fallback())));
    } else {
      SwapLedger(mix, hr, false);
    }
  }
}
