/** The device catalogue: friendly-name lookup with its "Unknown" sentinel, the
    case-sensitive substring search, and the first-match scan for a virtual cable. */
module Devices {
  import opened Platform

  const UNKNOWN_NAME: string := "Unknown"
  const VB_AUDIO_SIGNATURE: string := "VB-Audio"
  const CABLE_SIGNATURE: string := "CABLE"

  /** The friendly-name property as read from a property store: either a wide
      string, or a variant of any other type (including the empty variant that a
      failed read leaves behind). */
  datatype PropValue = WideString(text: string) | OtherVariant

  /** An endpoint, seen through the three platform answers that naming depends on. */
  datatype Device = Device(getId: HResult, openStore: HResult, friendlyName: PropValue)

  /** The name lookup can produce the friendly name itself. */
  predicate NameResolves(d: Device) {
    !Failed(d.getId) && !Failed(d.openStore) && d.friendlyName.WideString?
  }

  /** The friendly name of `d`, degrading to the sentinel on every failure path. */
  function GetDeviceName(d: Device): (name: string)
    ensures NameResolves(d) ==> name == d.friendlyName.text
    ensures !NameResolves(d) ==> name == UNKNOWN_NAME
  {
    if Failed(d.getId) then UNKNOWN_NAME
    else if Failed(d.openStore) then UNKNOWN_NAME
    else match d.friendlyName
      case WideString(text) => text
      case OtherVariant => UNKNOWN_NAME
  }

  /** `pat` occurs in `s` starting at position `i`. */
  ghost predicate OccursAt(s: string, pat: string, i: int) {
    0 <= i && i + |pat| <= |s| && s[i..i + |pat|] == pat
  }

  ghost predicate HasSubstring(s: string, pat: string) {
    exists i :: OccursAt(s, pat, i)
  }

  /** Position of the first occurrence of `pat` in `s` at or after `from`. */
  function FindFrom(s: string, pat: string, from: nat): (r: Option<nat>)
    decreases |s| - from
    ensures r.Some? ==> from <= r.value && OccursAt(s, pat, r.value)
    ensures r.Some? ==> forall j | from <= j < r.value :: !OccursAt(s, pat, j)
    ensures r.None? ==> forall j | from <= j :: !OccursAt(s, pat, j)
  {
    if from + |pat| > |s| then None
    else if s[from..from + |pat|] == pat then Some(from)
    else FindFrom(s, pat, from + 1)
  }

  /** The wide-string `find`: the first position of `pat` in `s`, or none (npos). */
  function Find(s: string, pat: string): (r: Option<nat>)
    ensures r.Some? <==> HasSubstring(s, pat)
    ensures r.Some? ==> OccursAt(s, pat, r.value) && forall j | 0 <= j < r.value :: !OccursAt(s, pat, j)
  {
    FindFrom(s, pat, 0)
  }

  /** A name identifies a virtual cable when it contains either signature. */
  function IsCableName(name: string): (b: bool)
    ensures b <==> HasSubstring(name, VB_AUDIO_SIGNATURE) || HasSubstring(name, CABLE_SIGNATURE)
  {
    Find(name, VB_AUDIO_SIGNATURE).Some? || Find(name, CABLE_SIGNATURE).Some?
  }

  /** The render-direction catalogue: enumeration either fails, or yields a
      collection whose items may be null. */
  datatype Catalog = EnumerationFailed | Collection(items: seq<Option<Device>>)

  /** Calls the scan makes on the collection and on the devices it holds. */
  datatype LookupEvent = FetchItem(index: nat) | ReleaseItem(index: nat) | ReleaseCollection

  datatype Lookup = Lookup(found: Option<nat>, events: seq<LookupEvent>)

  /** Item `i` is a non-null device whose name carries a cable signature. */
  predicate Matches(items: seq<Option<Device>>, i: int)
    requires 0 <= i < |items|
  {
    items[i].Some? && IsCableName(GetDeviceName(items[i].value))
  }

  ghost predicate IsFirstCable(items: seq<Option<Device>>, k: int) {
    0 <= k < |items| && Matches(items, k) && forall j | 0 <= j < k :: !Matches(items, j)
  }

  /** One past the last index the scan fetched. */
  function ScanEnd(items: seq<Option<Device>>, found: Option<nat>): nat {
    if found.Some? then found.value + 1 else |items|
  }

  /** The loop over the collection, from index `i` on. */
  function Scan(items: seq<Option<Device>>, i: nat): (r: Lookup)
    requires i <= |items|
    decreases |items| - i
    ensures r.found.Some? ==> i <= r.found.value < |items| && Matches(items, r.found.value)
    ensures r.found.Some? ==> forall j | i <= j < r.found.value :: !Matches(items, j)
    ensures r.found.None? ==> forall j | i <= j < |items| :: !Matches(items, j)
  {
    if i == |items| then Lookup(None, [])
    else if Matches(items, i) then Lookup(Some(i), [FetchItem(i)])
    else
      var rest := Scan(items, i + 1);
      Lookup(rest.found, Inspect(items, i) + rest.events)
  }

  /** The calls made on a non-matching item: it is fetched and, unless null,
      released again. */
  function Inspect(items: seq<Option<Device>>, i: nat): seq<LookupEvent>
    requires i < |items|
  {
    if items[i].Some? then [FetchItem(i), ReleaseItem(i)] else [FetchItem(i)]
  }

  /** Looks the virtual cable up in the catalogue; the collection is released
      once the scan is over. */
  function FindVirtualCable(c: Catalog): (r: Lookup)
    ensures r.found.Some? ==> c.Collection? && IsFirstCable(c.items, r.found.value)
    ensures r.found.None? ==> c.EnumerationFailed? || forall j | 0 <= j < |c.items| :: !Matches(c.items, j)
    ensures c.EnumerationFailed? ==> r.events == []
  {
    match c
    case EnumerationFailed => Lookup(None, [])
    case Collection(items) =>
      var r := Scan(items, 0);
      Lookup(r.found, r.events + [ReleaseCollection])
  }

  /** Occurrences of `x` in `s`. */
  function Count<T(==)>(s: seq<T>, x: T): nat {
    if s == [] then 0 else (if s[0] == x then 1 else 0) + Count(s[1..], x)
  }

  lemma CountAppend<T>(a: seq<T>, b: seq<T>, x: T)
    ensures Count(a + b, x) == Count(a, x) + Count(b, x)
  {
    if a == [] {
      assert a + b == b;
    } else {
      assert (a + b)[1..] == a[1..] + b;
      CountAppend(a[1..], b, x);
    }
  }

  lemma CountSingleton<T>(a: T, x: T)
    ensures Count([a], x) == if a == x then 1 else 0
  {
    assert [a][1..] == [];
  }

  /** How many times the scan releases item `k`: once for every inspected,
      non-null, non-matching device, never otherwise. */
  function ExpectedReleases(items: seq<Option<Device>>, from: nat, found: Option<nat>, k: nat): nat {
    if from <= k < ScanEnd(items, found) && k < |items| && items[k].Some? && found != Some(k) then 1 else 0
  }

  /** The scan fetches exactly the items up to the match (or all of them), and
      never one after the match. */
  lemma {:induction false} ScanFetches(items: seq<Option<Device>>, i: nat, k: nat)
    requires i <= |items|
    decreases |items| - i
    ensures var r := Scan(items, i);
      FetchItem(k) in r.events <==> i <= k < ScanEnd(items, r.found)
  {
    if i < |items| {
      var r := Scan(items, i);
      var rest := Scan(items, i + 1);
      ScanFetches(items, i + 1, k);
      if !Matches(items, i) {
        assert r.events == Inspect(items, i) + rest.events;
        assert FetchItem(k) in Inspect(items, i) <==> k == i;
      }
    }
  }

  /** The scan releases each inspected non-matching device exactly once, keeps
      the matching one, and leaves the collection to its caller. */
  lemma ScanReleases(items: seq<Option<Device>>, i: nat, x: LookupEvent)
    requires i <= |items|
    ensures var r := Scan(items, i);
      && (x.ReleaseItem? ==> Count(r.events, x) == ExpectedReleases(items, i, r.found, x.index))
      && (x.ReleaseCollection? ==> Count(r.events, x) == 0)
  {
    if x.ReleaseItem? {
      ScanReleasesItem(items, i, x.index);
    } else if x.ReleaseCollection? {
      ScanKeepsCollection(items, i);
    }
  }

  /** What inspecting one non-matching item releases: that item, unless it is null. */
  lemma InspectReleases(items: seq<Option<Device>>, i: nat, x: LookupEvent)
    requires i < |items|
    ensures x.ReleaseItem? ==> Count(Inspect(items, i), x) == (if x.index == i && items[i].Some? then 1 else 0)
    ensures x.ReleaseCollection? ==> Count(Inspect(items, i), x) == 0
  {
    CountSingleton(FetchItem(i), x);
    if items[i].Some? {
      CountSingleton(ReleaseItem(i), x);
      CountAppend([FetchItem(i)], [ReleaseItem(i)], x);
      assert Inspect(items, i) == [FetchItem(i)] + [ReleaseItem(i)];
    }
  }

  lemma {:induction false} ScanReleasesItem(items: seq<Option<Device>>, i: nat, k: nat)
    requires i <= |items|
    decreases |items| - i
    ensures var r := Scan(items, i);
      Count(r.events, ReleaseItem(k)) == ExpectedReleases(items, i, r.found, k)
  {
    if i < |items| {
      var x := ReleaseItem(k);
      if Matches(items, i) {
        CountSingleton(FetchItem(i), x);
      } else {
        var rest := Scan(items, i + 1);
        ScanReleasesItem(items, i + 1, k);
        InspectReleases(items, i, x);
        CountAppend(Inspect(items, i), rest.events, x);
      }
    }
  }

  lemma {:induction false} ScanKeepsCollection(items: seq<Option<Device>>, i: nat)
    requires i <= |items|
    decreases |items| - i
    ensures Count(Scan(items, i).events, ReleaseCollection) == 0
  {
    if i < |items| {
      if Matches(items, i) {
        CountSingleton(FetchItem(i), ReleaseCollection);
      } else {
        var rest := Scan(items, i + 1);
        ScanKeepsCollection(items, i + 1);
        InspectReleases(items, i, ReleaseCollection);
        CountAppend(Inspect(items, i), rest.events, ReleaseCollection);
      }
    }
  }

  /** Accounting of the whole lookup: the collection is released exactly once,
      and the devices are fetched and released as the scan lemmas state. */
  lemma LookupEvents(c: Catalog)
    requires c.Collection?
    ensures var r := FindVirtualCable(c);
      && Count(r.events, ReleaseCollection) == 1
      && (forall k: nat :: FetchItem(k) in r.events <==> k < ScanEnd(c.items, r.found))
      && (forall k: nat :: Count(r.events, ReleaseItem(k)) == ExpectedReleases(c.items, 0, r.found, k))
  {
    var s := Scan(c.items, 0);
    var r := FindVirtualCable(c);
    assert r.events == s.events + [ReleaseCollection] && r.found == s.found;
    forall k: nat
      ensures FetchItem(k) in r.events <==> k < ScanEnd(c.items, r.found)
    {
      ScanFetches(c.items, 0, k);
    }
    forall k: nat
      ensures Count(r.events, ReleaseItem(k)) == ExpectedReleases(c.items, 0, r.found, k)
    {
      CountAppend(s.events, [ReleaseCollection], ReleaseItem(k));
      CountSingleton(ReleaseCollection, ReleaseItem(k));
      ScanReleases(c.items, 0, ReleaseItem(k));
    }
    CountAppend(s.events, [ReleaseCollection], ReleaseCollection);
    CountSingleton(ReleaseCollection, ReleaseCollection);
    ScanReleases(c.items, 0, ReleaseCollection);
  }
}
