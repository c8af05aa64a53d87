/**
 * The pure helpers of the device list: `formatDate`, which turns a missing
 * time stamp into an empty string, and `filterDevices`, the search behind
 * the sidebar, which keeps the devices whose lower-cased name or whose id
 * contains the lower-cased query.
 */
module Helpers {
  import opened Wrappers
  import opened Collections
  import opened Text
  import opened Devices

  // ---------------------------------------------------------------------------
  // formatDate
  // ---------------------------------------------------------------------------

  /**
   * `formatDate(dateString)`: a missing or empty time stamp becomes the empty
   * string; any other string is shown as it is, without reformatting.
   */
  function FormatDate(date: Option<string>): (r: string)
    ensures date.None? ==> r == ""
    ensures date.Some? ==> r == date.value
  {
    if date.None? || date.value == "" then "" else date.value
  }

  /** Formatting an already formatted time stamp changes nothing. */
  lemma FormatDateIdempotent(date: Option<string>)
    ensures FormatDate(Some(FormatDate(date))) == FormatDate(date)
  {
  }

  // ---------------------------------------------------------------------------
  // The match test
  // ---------------------------------------------------------------------------

  /**
   * A device matches a lower-cased query when its lower-cased name, or its
   * `id` field written in decimal, contains the query. The `id` field is
   * read from the device record, not from the key it is stored under.
   */
  predicate Matches(device: Device, lowerQuery: string)
    ensures lowerQuery == "" ==> Matches(device, lowerQuery)
    ensures lowerQuery == Lower(device.name) ==> Matches(device, lowerQuery)
    ensures lowerQuery == IntToString(device.id) ==> Matches(device, lowerQuery)
  {
    assert OccursAt(lowerQuery, lowerQuery, 0);
    Contains(Lower(device.name), lowerQuery) || Contains(IntToString(device.id), lowerQuery)
  }

  /** `const device = devices[deviceId]; return device && (...)`: a known device that matches. */
  predicate IdMatches(devices: map<int, Device>, id: int, lowerQuery: string)
    ensures IdMatches(devices, id, lowerQuery) ==> id in devices
    ensures lowerQuery == "" ==> (IdMatches(devices, id, lowerQuery) <==> id in devices)
  {
    id in devices && Matches(devices[id], lowerQuery)
  }

  /**
   * The match does not depend on the case the device's name is written in:
   * upper-casing the name changes no answer.
   */
  lemma MatchIgnoresNameCase(device: Device, lowerQuery: string)
    ensures Matches(device.(name := Upper(device.name)), lowerQuery) == Matches(device, lowerQuery)
  {
    LowerOfUpper(device.name);
  }


  /** The keys of the devices that match: the reference the filters are compared with. */
  function MatchingIds(devices: map<int, Device>, lowerQuery: string): (ids: set<int>)
    ensures forall x :: x in ids <==> IdMatches(devices, x, lowerQuery)
  {
    set x | x in devices.Keys && Matches(devices[x], lowerQuery)
  }

  /** `ids.filter(deviceId => device && matches(device))`, in the order of `ids`. */
  function KeepMatching(ids: seq<int>, devices: map<int, Device>, lowerQuery: string): (r: seq<int>)
    ensures forall x :: x in r <==> x in ids && IdMatches(devices, x, lowerQuery)
  {
    if ids == [] then []
    else if IdMatches(devices, ids[0], lowerQuery) then [ids[0]] + KeepMatching(ids[1..], devices, lowerQuery)
    else KeepMatching(ids[1..], devices, lowerQuery)
  }

  /**
   * The filter keeps exactly the matching ids, in their order: it is the
   * membership filter against the set of matching keys.
   */
  lemma {:induction false} KeepMatchingIsOnly(ids: seq<int>, devices: map<int, Device>, lowerQuery: string)
    ensures KeepMatching(ids, devices, lowerQuery) == Only(ids, MatchingIds(devices, lowerQuery))
  {
    if ids != [] {
      KeepMatchingIsOnly(ids[1..], devices, lowerQuery);
    }
  }

  /** Filtering a strictly ascending list of ids leaves it strictly ascending. */
  lemma KeepMatchingAscending(ids: seq<int>, devices: map<int, Device>, lowerQuery: string)
    ensures StrictlyAscending(ids) ==> StrictlyAscending(KeepMatching(ids, devices, lowerQuery))
  {
    KeepMatchingIsOnly(ids, devices, lowerQuery);
  }

  // ---------------------------------------------------------------------------
  // Narrowing the groups
  // ---------------------------------------------------------------------------

  /**
   * `{ ...group, deviceIds: group.deviceIds.filter(...) }`: the group's ids
   * become its matching ids, in their order and with their repeats.
   */
  function Narrow(group: Group, devices: map<int, Device>, lowerQuery: string): (r: Group)
    ensures r.id == group.id && r.name == group.name
    ensures forall x :: x in r.deviceIds <==> x in group.deviceIds && IdMatches(devices, x, lowerQuery)
    ensures r.deviceIds == Only(group.deviceIds, MatchingIds(devices, lowerQuery))
  {
    KeepMatchingIsOnly(group.deviceIds, devices, lowerQuery);
    group.(deviceIds := KeepMatching(group.deviceIds, devices, lowerQuery))
  }

  /** `groups.map(narrow).filter(group => group.deviceIds.length > 0)` */
  function NarrowGroups(groups: seq<Group>, devices: map<int, Device>, lowerQuery: string): (r: seq<Group>)
    ensures |r| <= |groups|
  {
    if groups == [] then []
    else
      var g := Narrow(groups[0], devices, lowerQuery);
      if g.deviceIds != [] then [g] + NarrowGroups(groups[1..], devices, lowerQuery)
      else NarrowGroups(groups[1..], devices, lowerQuery)
  }

  /** Every group kept is non-empty and is an input group narrowed to its matching devices. */
  lemma {:induction false} NarrowGroupsSound(groups: seq<Group>, devices: map<int, Device>, lowerQuery: string, i: nat)
    requires i < |NarrowGroups(groups, devices, lowerQuery)|
    ensures var g := NarrowGroups(groups, devices, lowerQuery)[i];
      && g.deviceIds != []
      && exists j :: 0 <= j < |groups| && g == Narrow(groups[j], devices, lowerQuery)
  {
    var r, rest := NarrowGroups(groups, devices, lowerQuery), NarrowGroups(groups[1..], devices, lowerQuery);
    var g := Narrow(groups[0], devices, lowerQuery);
    if g.deviceIds != [] && i == 0 {
      assert r[0] == Narrow(groups[0], devices, lowerQuery);
    } else {
      var k := if g.deviceIds != [] then i - 1 else i;
      assert r[i] == rest[k];
      NarrowGroupsSound(groups[1..], devices, lowerQuery, k);
      var j :| 0 <= j < |groups[1..]| && rest[k] == Narrow(groups[1..][j], devices, lowerQuery);
      assert groups[1..][j] == groups[j + 1];
    }
  }

  /** Every input group with a matching device is kept, narrowed to those devices. */
  lemma {:induction false} NarrowGroupsComplete(groups: seq<Group>, devices: map<int, Device>, lowerQuery: string, j: nat)
    requires j < |groups| && Narrow(groups[j], devices, lowerQuery).deviceIds != []
    ensures Narrow(groups[j], devices, lowerQuery) in NarrowGroups(groups, devices, lowerQuery)
  {
    if j > 0 {
      assert groups[1..][j - 1] == groups[j];
      NarrowGroupsComplete(groups[1..], devices, lowerQuery, j - 1);
    }
  }

  /** When no device matches, the filter keeps no id. */
  lemma {:induction false} KeepMatchingNone(ids: seq<int>, devices: map<int, Device>, lowerQuery: string)
    requires forall x :: x in devices ==> !Matches(devices[x], lowerQuery)
    ensures KeepMatching(ids, devices, lowerQuery) == []
  {
    if ids != [] {
      KeepMatchingNone(ids[1..], devices, lowerQuery);
    }
  }

  /** When no device matches, every group is left empty and dropped. */
  lemma {:induction false} NarrowGroupsNone(groups: seq<Group>, devices: map<int, Device>, lowerQuery: string)
    requires forall x :: x in devices ==> !Matches(devices[x], lowerQuery)
    ensures NarrowGroups(groups, devices, lowerQuery) == []
  {
    if groups != [] {
      KeepMatchingNone(groups[0].deviceIds, devices, lowerQuery);
      NarrowGroupsNone(groups[1..], devices, lowerQuery);
    }
  }

  /** Narrowing works group by group, so the groups keep their order. */
  lemma {:induction false} NarrowGroupsAppend(a: seq<Group>, b: seq<Group>, devices: map<int, Device>, lowerQuery: string)
    ensures NarrowGroups(a + b, devices, lowerQuery)
         == NarrowGroups(a, devices, lowerQuery) + NarrowGroups(b, devices, lowerQuery)
  {
    if a != [] {
      assert (a + b)[1..] == a[1..] + b;
      NarrowGroupsAppend(a[1..], b, devices, lowerQuery);
    } else {
      assert a + b == b;
    }
  }

  // ---------------------------------------------------------------------------
  // filterDevices
  // ---------------------------------------------------------------------------

  /** `{ filteredGroups, filteredUngrouped }` */
  datatype FilterResult = FilterResult(filteredGroups: seq<Group>, filteredUngrouped: seq<int>)

  /**
   * `filterDevices(devices, groups, query)`. An empty query returns the
   * groups untouched and no ungrouped devices at all. Otherwise the groups
   * are narrowed to their matching devices, and the ungrouped devices (the
   * device keys no group lists, in key order) are filtered the same way.
   */
  function FilterDevices(devices: map<int, Device>, groups: seq<Group>, query: string): (r: FilterResult)
    ensures query == "" ==> r == FilterResult(groups, [])
    ensures query != "" ==>
      && (forall x :: x in r.filteredUngrouped <==>
            x in devices && x !in GroupedIds(groups) && Matches(devices[x], Lower(query)))
      && StrictlyAscending(r.filteredUngrouped)
      && r.filteredGroups == NarrowGroups(groups, devices, Lower(query))
  {
    var lowerQuery := Lower(query);
    if lowerQuery == "" then FilterResult(groups, [])
    else
      var ungrouped := UngroupedIds(devices, groups);
      KeepMatchingAscending(ungrouped, devices, lowerQuery);
      FilterResult(NarrowGroups(groups, devices, lowerQuery), KeepMatching(ungrouped, devices, lowerQuery))
  }

  /**
   * Every id the filter returns was listed by a group or is a device key, and
   * for a non-empty query it names a device that matches the query.
   */
  lemma FilterSound(devices: map<int, Device>, groups: seq<Group>, query: string)
    ensures var r := FilterDevices(devices, groups, query);
      && (forall i, x :: 0 <= i < |r.filteredGroups| && x in r.filteredGroups[i].deviceIds ==>
            x in GroupedIds(groups) && (query != "" ==> IdMatches(devices, x, Lower(query))))
      && (forall x :: x in r.filteredUngrouped ==> x in devices)
  {
    var r := FilterDevices(devices, groups, query);
    forall i, x | 0 <= i < |r.filteredGroups| && x in r.filteredGroups[i].deviceIds
      ensures x in GroupedIds(groups) && (query != "" ==> IdMatches(devices, x, Lower(query)))
    {
      if query == "" {
        assert x in groups[i].deviceIds;
      } else {
        NarrowedIdSound(groups, devices, Lower(query), i, x);
      }
    }
  }

  /** An id of the `i`-th narrowed group was listed by some group and names a matching device. */
  lemma NarrowedIdSound(groups: seq<Group>, devices: map<int, Device>, lowerQuery: string, i: nat, x: int)
    requires i < |NarrowGroups(groups, devices, lowerQuery)|
    requires x in NarrowGroups(groups, devices, lowerQuery)[i].deviceIds
    ensures x in GroupedIds(groups) && IdMatches(devices, x, lowerQuery)
  {
    NarrowGroupsSound(groups, devices, lowerQuery, i);
    var j :| 0 <= j < |groups| && NarrowGroups(groups, devices, lowerQuery)[i] == Narrow(groups[j], devices, lowerQuery);
    assert x in groups[j].deviceIds;
  }

  /** A non-empty query that no device matches leaves nothing at all. */
  lemma FilterNoMatch(devices: map<int, Device>, groups: seq<Group>, query: string)
    requires query != ""
    requires forall x :: x in devices ==> !Matches(devices[x], Lower(query))
    ensures FilterDevices(devices, groups, query) == FilterResult([], [])
  {
    NarrowGroupsNone(groups, devices, Lower(query));
    KeepMatchingNone(UngroupedIds(devices, groups), devices, Lower(query));
  }

  /** For a non-empty query, every group with a matching device is kept, narrowed to those devices. */
  lemma FilterKeepsMatchingGroups(devices: map<int, Device>, groups: seq<Group>, query: string, j: nat, x: int)
    requires query != ""
    requires j < |groups| && x in groups[j].deviceIds && IdMatches(devices, x, Lower(query))
    ensures Narrow(groups[j], devices, Lower(query)) in FilterDevices(devices, groups, query).filteredGroups
  {
    assert x in Narrow(groups[j], devices, Lower(query)).deviceIds;
    NarrowGroupsComplete(groups, devices, Lower(query), j);
  }

  /** The search ignores case: upper-casing letters of the query changes nothing. */
  lemma FilterIgnoresCase(devices: map<int, Device>, groups: seq<Group>, query: string)
    ensures FilterDevices(devices, groups, query) == FilterDevices(devices, groups, Lower(query))
  {
    LowerIdempotent(query);
  }

  /** A decimal numeral has no upper-case letter, so lower-casing leaves it alone. */
  lemma LowerNumeral(n: int)
    ensures Lower(IntToString(n)) == IntToString(n)
  {
    var s := IntToString(n);
    if n < 0 {
      assert forall i :: 1 <= i < |s| ==> s[i] == NatToString(-n)[i - 1];
    }
  }

  /** Searching for a device's own id finds it among the ungrouped devices. */
  lemma FilterFindsOwnId(devices: map<int, Device>, groups: seq<Group>, key: int)
    requires key in devices && key !in GroupedIds(groups)
    ensures key in FilterDevices(devices, groups, IntToString(devices[key].id)).filteredUngrouped
  {
    var q := IntToString(devices[key].id);
    LowerNumeral(devices[key].id);
    assert OccursAt(q, q, 0);
  }
}
