# Loopback-to-virtual-cable audio router, modelled in Dafny

The program (`main.cpp`) captures whatever the default render endpoint plays,
in WASAPI loopback mode. It copies each captured packet for which the cable
grants a render buffer into the render stream of the first render endpoint
whose name contains "VB-Audio" or "CABLE"; a packet whose render request is
refused is dropped. This project models the decision logic of
that program and proves properties about it. The platform (COM, the MMDevice
API, the audio clients) is not modelled. It is replaced by an oracle that
answers each call with an `HRESULT`.

The model covers:

- **Device naming and cable lookup** (`devices.dfy`). `GetDeviceName` degrades
  to `"Unknown"` on every failure path. `FindVirtualCable` scans the render
  endpoints in order and picks the first non-null device whose friendly name
  contains `"VB-Audio"` or `"CABLE"` (case-sensitive). It releases every device
  it inspected and rejected, and then the collection.
- **Formats** (`formats.dfy`). A `WAVEFORMATEX` header at its fields' own
  widths, and the fixed PCM fallback whose block alignment and byte rate are
  derived from the other fields.
- **Negotiation** (`negotiation.dfy`). The cable is asked whether it takes the
  mix format. Only the exact answer `AUDCLNT_E_UNSUPPORTED_FORMAT` frees the
  mix format, allocates the fallback header and asks again.
- **Set-up** (`setup.dfy`, `setup_ledger.dfy`). The ordered calls of `main`:
  - every status check exits with 1 on failure;
  - the two explicit error paths return 1;
  - both clients are initialised and both services obtained before either
    stream is started.

  A resource ledger states what each outcome leaves held or released.
- **Routing loop** (`routing.dfy`). The two nested polling loops are a step
  function over a script of platform replies. One event is recorded per
  call, copy or sleep. The contracts state how the calls pair up, what is
  copied, and the failure policy.
- **The whole process** (`program.dfy`). Set-up, then the loop, then (when the
  poll at the top of the loop fails) the teardown and `return 0`. The exit
  codes are stated here, and so is the balance of the resources set-up
  acquires: COM, the enumerator, both devices, both clients, both services
  and the format block.

`platform.dfy` holds the shared vocabulary: the abstract `HRESULT`, the
`FAILED` test, and the 16- and 32-bit unsigned widths.

Where the program's behaviour is easy to misread, the model follows the code:

- The support check is an equality test against `AUDCLNT_E_UNSUPPORTED_FORMAT`.
  `S_FALSE` and every other failure keep the mix format and go on to
  `Initialize`.
- A failed enumeration and a scan without a match are handled identically:
  both report "not found".
- The "cable not found" path releases only the enumerator and COM. The default
  render device stays referenced (`SetupLedger.WhenCableMissing`).
- The status check exits without releasing anything.
- A failed capture `ReleaseBuffer` ends the drain pass and leaves the render
  buffer it was granted unreleased (`Routing.ReleasesAfterCopy`,
  `Routing.FailedCaptureRelease`).
- A failure of the poll at the top of the loop leaves the loop, runs the full
  teardown and returns 0.

## Model

| member | source | states |
|---|---|---|
| Devices.GetDeviceName | main.cpp:20-43 | The friendly name is returned exactly when the id lookup and the property-store open succeed and the value is a wide string; every other path yields "Unknown". |
| Devices.Find | main.cpp:63 | The wide-string find reports a position exactly when the pattern occurs, and then it is the first occurrence. |
| Devices.IsCableName | main.cpp:63 | A name is a cable name exactly when it contains "VB-Audio" or "CABLE", case-sensitively. |
| Devices.Scan | main.cpp:57-69 | From index i, the scan finds a matching non-null item with no match before it, or reports none when no item from i on matches. |
| Devices.FindVirtualCable | main.cpp:45-72 | The result is the first matching device in enumeration order. None is returned when nothing matches or enumeration fails, and a failed enumeration makes no calls. |
| Devices.ScanFetches | main.cpp:57-66 | Item k is fetched exactly when k lies at or before the match (or anywhere, when there is none): never after the match. |
| Devices.ScanReleases | main.cpp:60-68 | Each inspected non-null, non-matching device is released exactly once. The match and null items are never released, and the scan never releases the collection. |
| Devices.LookupEvents | main.cpp:45-72 | The whole lookup releases the collection exactly once, fetches exactly the items up to the match, and releases devices as the scan does. |
| Formats.Build | main.cpp:129-135 | The built header is PCM with the requested base fields. When the derived values fit their fields, nBlockAlign = channels*bits/8 and nAvgBytesPerSec = rate*nBlockAlign. |
| Formats.Fallback | main.cpp:129-135 | The fallback is PCM, 2 channels, 44100 Hz, 16 bits, with block alignment 4 and 176400 bytes per second, consistently derived. |
| Negotiation.Negotiate | main.cpp:111-139 | The mix format is kept, with no allocation, unless the check answers exactly "unsupported format". Then allocation failure, rejection of the fallback and agreement on the fallback occur under exactly their conditions. |
| Negotiation.NegotiationAccounting | main.cpp:113-128 | Negotiation frees the mix format block exactly when it swaps, and holds a new block exactly when the fallback allocation succeeds. |
| Setup.RunChecked | main.cpp:13-18 | A run of checked calls records each call with its result and stops at the first failure, which is its last event; with no failure every call succeeded. |
| Setup.Setup | main.cpp:74-159 | An aborted set-up ends with status 1, and it is an exit (rather than a return) exactly when its last event is a failed call. |
| Setup.Discover | main.cpp:88-95 | Without a cable the process returns 1 having released only the enumerator and COM. From the cable lookup on, every abort has status 1, and it is an exit exactly when its last event is a failed check. |
| Setup.Activation | main.cpp:97-109 | From the activation of the default device's client on, every abort has status 1, and it is an exit exactly when its last event is a failed check. |
| Setup.Agreement | main.cpp:111-139 | From the support check on, every abort has status 1. It is a return exactly when the fallback allocation failed, and otherwise an exit on a failed check. |
| Setup.Streams | main.cpp:140-159 | The stream stage can only exit on a failed check, and when ready it routes with the negotiated format. |
| Setup.ReturnsOne | main.cpp:88-128 | main returns 1 exactly when the prelude succeeded and either no cable was found, or activation succeeded, the mix format was unsupported and the fallback allocation failed. |
| Setup.ReadyShape | main.cpp:74-159 | Set-up is ready exactly when every check passes. Its trace is then the stage traces in order, and its format is the negotiated one. |
| Setup.StartsLast | main.cpp:140-159 | When ready, the trace ends with both Initialize calls (same format, one-second buffer), both GetService calls and both Start calls, all successful; no earlier event starts a stream. |
| SetupLedger.CheckedLedger | main.cpp:13-18 | Checked calls release nothing and hold exactly what the calls before the first failing one hand out (every call's yield when none fails); nothing a later call would have yielded is held. |
| SetupLedger.CheckedHoldings | main.cpp:13-18 | Because the process exits at the first failed check, the resources held are exactly the yield of the calls before it. |
| SetupLedger.ReadyTrace | main.cpp:74-159 | The stage ledgers compose: the prelude's COM, enumerator and default device, the cable device, both clients and the mix block, the negotiation's swap of format blocks and both services leave exactly the routing resources held. |
| SetupLedger.WhenReady | main.cpp:74-159 | Routing starts holding exactly COM, the enumerator, both devices, both clients, both services and the agreed format block, with nothing released that was not acquired. |
| SetupLedger.WhenCableMissing | main.cpp:88-94 | Without a cable, main returns 1 having released the enumerator and COM; the default render device is left held. |
| SetupLedger.WhenAllocationFails | main.cpp:118-128 | When the fallback cannot be allocated, main returns 1 having released everything it acquired. |
| SetupLedger.AllocationFailureTrace | main.cpp:118-128 | The prelude, the cable lookup, activation, the freed mix block and the clean-up releases of the allocation-failure path balance exactly. |
| SetupLedger.WhenCheckFails | main.cpp:13-18 | An exit from a failed check has released nothing except, possibly, the freed mix format block. |
| Routing.CopySize | main.cpp:189 | The copy length is frames*nBlockAlign in 32-bit unsigned arithmetic: equal to the product when it fits, and congruent to it modulo 2^32 always. |
| Routing.Step | main.cpp:163-210 | One call of the loop consumes one reply (the copy and the sleep consume none). The loop is left only by a failed poll at the top. |
| Routing.Adjacent | main.cpp:163-210 | Every run of the loop from any phase begins as that phase dictates, and each pair and triple of neighbouring events obeys the loop's control flow. |
| Routing.Run | main.cpp:163-210 | A run of the loop is torn down exactly when its last event is a failed poll at the top. It is empty only when the script is exhausted at a call, and it never stops between a granted render buffer and its copy. |
| Routing.RunIsLoopTrace | main.cpp:163-210 | Every run from the top of the loop starts with a poll and is a chain of linked events. |
| Routing.CaptureFollowsReport | main.cpp:171-175 | A capture buffer is requested only right after a successful size query that reported a pending packet. |
| Routing.RenderRequestMatchesCapture | main.cpp:175-182 | The render buffer is requested right after a successful capture, for exactly the captured frame count. |
| Routing.CopyIntoGranted | main.cpp:182-189 | Every copy goes into a render buffer just granted for the same frames, and moves exactly the 32-bit frames*nBlockAlign bytes. |
| Routing.CaptureReleasePaired | main.cpp:175-191 | Every capture release has the count of the successful capture it pairs with, after the copy into a granted render buffer or right after a refused render request. So a failed capture get is never released. |
| Routing.RenderReleasePaired | main.cpp:181-196 | Every render release is preceded, in order, by the grant of the render buffer for the same frame count, the copy into it and a successful capture release of those frames. |
| Routing.RequestFollowsCapture | main.cpp:175-182 | A successful capture is always followed by the render request for its frames. |
| Routing.RefusalReleasesCapture | main.cpp:182-186 | A refused render request is followed by the release of the capture buffer for the same frames, and then by the sleep. |
| Routing.GrantedIsCopied | main.cpp:182-189 | A granted render buffer is followed at once by the copy of its frames. |
| Routing.ReleasesAfterCopy | main.cpp:189-200 | After a copy the capture buffer is released for the same frames. The render buffer is released next exactly when that release succeeded; when it failed the loop sleeps with the render buffer unreleased. |
| Routing.PollPolicy | main.cpp:163-169 | A failed top poll is the last event; every sleep is followed by a poll, and every poll but the first comes right after a sleep. |
| Routing.SleepPolicy | main.cpp:171-209 | The loop sleeps exactly after an idle poll, an exhausted or failed requery, a failed capture get, capture release or render release, or the capture release after a refused render request. |
| Routing.Forwarding | main.cpp:171-207 | The copies of a run are exactly one per granted render buffer, in grant order, each of frames*nBlockAlign bytes: packets are forwarded one at a time in capture order. |
| Routing.OnePacket | main.cpp:163-210 | One reported packet is captured, requested, copied, released on both sides and requeried; the drained queue leads to the sleep, and a failed poll ends the run. |
| Routing.FailedCaptureRelease | main.cpp:189-194 | A failed capture release after a copy leads to the sleep and the next poll with no render release at all. |
| Program.RunProgram | main.cpp:74-225 | The process exits 1, returns 1, returns 0, or is still routing. Only set-up exits, returns of 1 route nothing, looping requires a completed set-up, and the teardown runs exactly when the process returns 0. |
| Program.Finish | main.cpp:161-224 | An aborted set-up ends the process with its own status, routing nothing and tearing nothing down. After a completed one the process keeps routing or returns 0, and it returns 0 exactly when it ran the teardown for the format block it holds. |
| Program.Outcome | main.cpp:163-224 | After a completed set-up the process either returns 0 or keeps routing. It returns 0 exactly when some poll at the top of the loop failed, and that poll is then the loop's last event. |
| Program.Teardown | main.cpp:212-222 | Both streams are stopped first, every later step is a release, the format block that is held is freed, and COM is uninitialised last. |
| Program.TeardownLedger | main.cpp:212-222 | The teardown acquires nothing and releases exactly what routing holds, including whichever format block was agreed. |
| Program.TeardownReleases | main.cpp:212-222 | A resource is released by the teardown exactly when routing holds it. |
| Program.ShutdownTrace | main.cpp:212-222 | Any set-up trace that leaves exactly the routing resources held, followed by the teardown, has released every resource that trace acquired. |
| Program.ReadyShutdown | main.cpp:163-224 | After a completed set-up that left exactly the routing resources held, a process that returns 0 releases every set-up resource: COM, the enumerator, both devices, both clients, both services and the agreed format block. |
| Program.CleanShutdown | main.cpp:74-224 | A process that returns 0 releases every set-up resource: COM, the enumerator, both devices, both clients, both services and the agreed format block. |

## Left out

- COM and WASAPI calls are not modelled. Their results come from an oracle
  `Call -> HResult`, and the loop's replies from a finite script. `HRESULT` is
  abstracted to success, `S_FALSE`, `AUDCLNT_E_UNSUPPORTED_FORMAT` and any
  other failure.
- The unbounded `while (true)` is modelled by a finite script. A run that
  exhausts the script stops with the phase it was about to enter, and the
  process then counts as still routing.
- Buffer contents and `memcpy` are not modelled; only frame and byte counts
  and the order of packets are. The capture flags, the device position and the
  QPC position that `GetBuffer` can return are ignored, because the program
  ignores them too.
- `Sleep` timing is not modelled. The sleep is an event that carries its
  10 ms argument.
- Console and wide-console logging, and the hex formatting of `HRESULT`s, are
  not modelled. Names are plain strings, with no encoding.
- The two `GetDeviceName` calls at main.cpp:86 and main.cpp:95 only feed
  logging, so the set-up model leaves them out. The naming inside the lookup
  is modelled.
- The memory handling inside `GetDeviceName` is not modelled. This covers
  `CoTaskMemFree` of the id string, releasing the property store, and
  `PropVariantInit`/`PropVariantClear`. The value read is abstracted to
  "a wide string" or "anything else", so a failed `GetValue` is "anything
  else".
- `GetCount` on the collection is assumed to succeed. A null item from `Item`
  is modelled as a null entry in the catalogue.
- The ledger uses sets of resources, so multiplicity is not tracked. No
  resource is acquired twice in any trace: the two format blocks are distinct
  resources, and the loop's buffers are accounted for by the trace lemmas
  rather than the ledger.
- Program.CleanShutdown: the balance covers the set-up resources only. The
  loop's capture and render buffers are accounted for by the trace lemmas, and
  a failed capture `ReleaseBuffer` leaves a render buffer unreleased even when
  the process later returns 0 (`Routing.FailedCaptureRelease`). The device
  collection and the devices the lookup rejects are balanced separately by
  `Devices.LookupEvents`.
- Only the six `WAVEFORMATEX` fields the program reads or sets are modelled.
  `cbSize`, which the fallback zeroes, is not, and neither is the
  `WAVEFORMATEXTENSIBLE` tail that `GetMixFormat` may return. The oracle
  therefore gives the same support answer to two headers that differ only in
  those parts.
- Devices.FindVirtualCable: does not state that enumeration asks only for
  active render endpoints, because the catalogue is given already filtered.
- Ctrl+C is not modelled. The program installs no handler for it, so an
  interrupted process never reaches the teardown; in the model such a process
  is simply still routing.
