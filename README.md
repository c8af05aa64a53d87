# camera_manager: a Dafny model of the client-side state

camera_manager is a Vue/Pinia front end for watching surveillance devices.
Each device has a number of camera channels, a position and an alarm flag,
and devices can be arranged in groups. This project models the part of the
client that holds and transforms that state:

- **The device registry** (`useDevicesStore`). It holds the devices keyed by
  id, the groups, the derived list of ungrouped ids, and two camera
  selections: a free multi-device selection for the live ("online") view and
  a single-device selection for the archive view. The projection it hands to
  the map is modelled too. This is module `Devices`, class
  `Devices.DevicesStore`.
- **The search helpers** (`filterDevices`, `formatDate`). These are module
  `Helpers`.
- **The map view store** (`useMapStore`). It covers fitting the map to the
  selected devices and drawing one placemark per device. This is module
  `MapState`, class `MapState.MapStore`. The third-party map and its object
  manager are two small classes that record the calls made on them.
- **The interface store** (`useAppStore`). It holds the display mode, the
  collapsed groups and devices, and the open context menu. This is module
  `AppState`, class `AppState.AppStore`.

Module `Collections` models the JavaScript built-ins the stores rely on:
- the `filter`s;
- `Object.keys` on integer-keyed objects, which lists the keys in ascending
  order;
- the numeric `sort`.

Module `Text` models `toLowerCase`, `includes` and the decimal writing of an
id. Module `Wrappers` holds `Option`.

The registry's class invariant is `Devices.Consistent`. It has three parts:
- the ungrouped list is always the one derived from the devices and groups;
- the archive selection holds at most one device;
- every camera list is strictly ascending.

Every mutator of the registry keeps this invariant.

## Model

| member | source | states |
|---|---|---|
| Collections.Except | src/stores/useDevicesStore.js:83 | filtering ids out keeps exactly the other elements and keeps a strictly ascending list strictly ascending |
| Collections.Only | src/stores/useDevicesStore.js:104-113 | filtering against a set keeps exactly the elements in the set and keeps strict ascent |
| Collections.OnlyAppend | src/utils/helpers.js:11-17 | filtering a concatenation is filtering each part in place, so kept elements stay in their original order |
| Collections.ExceptAppend | src/stores/useDevicesStore.js:79-83 | filtering a concatenation is filtering each part in place, so kept elements stay in their original order |
| Collections.FilterSingle | src/stores/useDevicesStore.js:81 | a single element is kept exactly when it passes the test; with the append lemmas this fixes the filtered list completely |
| Collections.FilterCounts | src/utils/helpers.js:11-17 | a kept value occurs in the result exactly as often as in the input, so repeats are kept; a dropped value does not occur |
| Collections.Least | src/stores/useDevicesStore.js:19 | the result is a member of the set and no larger than any member |
| Collections.SortedKeys | src/stores/useDevicesStore.js:15 | `Object.keys(...).map(Number)` lists every key exactly once, strictly ascending, and nothing else |
| Collections.AscendingUnique | src/stores/useDevicesStore.js:15 | two strictly ascending lists with the same elements are equal, so a key listing is determined by its key set |
| Collections.SortedKeysOnly | src/stores/useDevicesStore.js:102-113 | filtering a key listing by a set is the listing of the intersected key set |
| Collections.SortedKeysExcept | src/stores/useDevicesStore.js:35-37 | filtering a key listing against a set is the listing of the key set difference |
| Collections.Insert | src/stores/useDevicesStore.js:71 | inserting adds the value and keeps ascent, and keeps strict ascent when the value is new |
| Collections.InsertPermutes | src/stores/useDevicesStore.js:71 | inserting adds exactly one occurrence of the value and keeps every other element |
| Collections.SortAscending | src/stores/useDevicesStore.js:71 | `sort((a, b) => a - b)` returns an ascending permutation of its input |
| Collections.SortAscendingFixes | src/stores/useDevicesStore.js:71 | sorting an already ascending list returns it unchanged |
| Collections.SortAfterAppend | src/stores/useDevicesStore.js:71 | appending a value to an ascending list and sorting is inserting the value in place |
| Text.LowerChar | src/utils/helpers.js:6 | an upper-case Latin or Russian letter becomes the letter at the same place of the lower-case alphabet; other characters are unchanged |
| Text.UpperChar | src/utils/helpers.js:14 | upper-casing and then lower-casing gives back any character that is not upper-case |
| Text.Upper | src/utils/helpers.js:14 | keeps the length and upper-cases each character in place |
| Text.LowerOfUpper | src/utils/helpers.js:14 | lower-casing an upper-cased string gives the same as lower-casing the string |
| Text.Lower | src/utils/helpers.js:6 | `toLowerCase` keeps the length and lower-cases each character in place |
| Text.LowerIdempotent | src/utils/helpers.js:14 | lower-casing twice is lower-casing once |
| Text.Contains | src/utils/helpers.js:14-15 | `includes` holds iff the needle occurs as a contiguous piece at some position |
| Text.ContainsEmpty | src/utils/helpers.js:8 | the empty query is contained in every string |
| Text.NatToString | src/utils/helpers.js:15 | a natural number is written as non-empty decimal digits without a leading zero |
| Text.IntToString | src/utils/helpers.js:15 | an integer is written with a leading minus sign exactly when it is negative |
| Text.ParseIntToString | src/utils/helpers.js:15 | reading the decimal form of an id back gives the id |
| Text.IntToStringInjective | src/utils/helpers.js:15 | two different ids never have the same decimal form |
| Devices.Merge | src/stores/useDevicesStore.js:87-90 | each field the update carries takes the new value; every other field keeps the stored one |
| Devices.MergeIdentityAndIdempotence | src/stores/useDevicesStore.js:87-90 | an empty update changes nothing, and applying an update twice equals applying it once |
| Devices.MergeCombine | src/stores/useDevicesStore.js:87-90 | two updates in a row are one combined update in which the later fields win |
| Devices.GroupedIds | src/stores/useDevicesStore.js:36 | an id is grouped iff some group lists it |
| Devices.UngroupedIds | src/stores/useDevicesStore.js:35-37 | the ungrouped ids are exactly the device keys no group lists, strictly ascending |
| Devices.UngroupedIdsListDifference | src/stores/useDevicesStore.js:35-37 | the ungrouped list is the ascending listing of the device keys minus the grouped ids |
| Devices.StripDevice | src/stores/useDevicesStore.js:79-82 | the same groups in the same order, with the same ids and names, each with the device filtered out |
| Devices.StripDeviceGrouped | src/stores/useDevicesStore.js:79-82 | after stripping, the grouped ids are the old ones minus the removed device |
| Devices.UngroupedAfterRemoval | src/stores/useDevicesStore.js:75-83 | filtering the removed id out of the ungrouped list gives the list derived afresh from the reduced devices and groups |
| Devices.FirstKey | src/stores/useDevicesStore.js:17-20 | the first key is absent iff the selection is empty; otherwise it is a selected id no larger than any other |
| Devices.FirstKeyOfSingle | src/stores/useDevicesStore.js:17-20 | in a selection of at most one device, the first key is the only key |
| Devices.CamerasOf | src/stores/useDevicesStore.js:25-28 | a selected device's camera list, or none when it is not selected; ascending when every list is |
| Devices.ToggleOnline | src/stores/useDevicesStore.js:51-57 | the device becomes selected with no cameras iff it was unselected; every other entry is unchanged |
| Devices.ToggleOnlineTwice | src/stores/useDevicesStore.js:51-57 | toggling twice restores the selection when the device was unselected; a selected device comes back with no cameras |
| Devices.ToggleArchive | src/stores/useDevicesStore.js:40-49 | the archive toggle keeps "at most one selected device" and keeps camera lists ascending |
| Devices.ToggleArchiveCases | src/stores/useDevicesStore.js:41-48 | toggling the selected device empties the selection; toggling another leaves only it selected, with the previous device's cameras or none |
| Devices.ToggleCamera | src/stores/useDevicesStore.js:66-72 | the camera ends up chosen iff it was not; other cameras are unchanged; an added camera gives an ascending permutation; strict ascent is kept |
| Devices.SortedInsert | src/stores/useDevicesStore.js:71 | on a strictly ascending list, append-then-sort inserts the camera in place |
| Devices.ToggleCameraTwice | src/stores/useDevicesStore.js:68-72 | toggling the same camera twice on a strictly ascending list restores it |
| Devices.EntryFor | src/stores/useDevicesStore.js:108-112 | the entry copies the device and its cameras; the alarm shows only in online mode |
| Devices.Project | src/stores/useDevicesStore.js:104-113 | the projection has one entry per id that names a known device |
| Devices.ProjectAt | src/stores/useDevicesStore.js:104-113 | entry `j` is built from the `j`-th id that names a known device |
| Devices.ProjectEntries | src/stores/useDevicesStore.js:104-113 | all entries of the projection, in the order of the ids |
| Devices.Deselect | src/stores/useDevicesStore.js:77-78 | deleting a key keeps "at most one selected device" and keeps camera lists ascending |
| Devices.RemovalConsistent | src/stores/useDevicesStore.js:75-83 | removing a device from every structure keeps the registry's invariant |
| Devices.DevicesStore.constructor | src/stores/useDevicesStore.js:5-9 | the registry starts empty and satisfies its invariant |
| Devices.DevicesStore.SelectedDeviceIds | src/stores/useDevicesStore.js:13-16 | the selected ids of a mode: every selected id once, strictly ascending |
| Devices.DevicesStore.ArchiveSelectedDeviceId | src/stores/useDevicesStore.js:17-20 | the id is absent iff nothing is archive-selected; otherwise it is selected, and under the invariant it is the only one |
| Devices.DevicesStore.IsDeviceSelected | src/stores/useDevicesStore.js:21-24 | true iff the device is selected in that mode |
| Devices.DevicesStore.SelectedCameras | src/stores/useDevicesStore.js:25-28 | the selected device's cameras, or none when it is not selected; strictly ascending under the invariant |
| Devices.DevicesStore.DevicesForMapByMode | src/stores/useDevicesStore.js:101-114 | one entry per selected id with a known device, in ascending id order; each entry is that device with its cameras; the alarm is cleared in archive mode |
| Devices.DevicesStore.SetDevicesData | src/stores/useDevicesStore.js:32-38 | devices and groups are the inputs; the ungrouped list is the ascending listing of the keys no group lists; selections are untouched; the invariant holds |
| Devices.DevicesStore.ToggleDeviceSelection | src/stores/useDevicesStore.js:39-59 | the mode's selection is toggled as described above; the other selection and the devices are untouched; the invariant holds |
| Devices.DevicesStore.ToggleCameraSelection | src/stores/useDevicesStore.js:60-73 | nothing changes unless the device is selected in that mode; then only its camera list is toggled; the invariant holds |
| Devices.DevicesStore.RemoveDevice | src/stores/useDevicesStore.js:75-84 | the device leaves the devices, both selections, every group and the ungrouped list; everything else, including group count and order, is kept; the invariant holds |
| Devices.DevicesStore.UpdateDevice | src/stores/useDevicesStore.js:85-92 | an unknown id changes nothing; a known device is merged with the update; nothing else changes |
| Devices.DevicesStore.ClearOnlineSelection | src/stores/useDevicesStore.js:93-95 | the online selection is emptied and nothing else changes |
| Devices.DevicesStore.ClearArchiveSelection | src/stores/useDevicesStore.js:97-99 | the archive selection is emptied and nothing else changes |
| Helpers.FormatDate | src/utils/helpers.js:1-4 | a missing or empty time stamp gives the empty string; any other string is returned unchanged |
| Helpers.FormatDateIdempotent | src/utils/helpers.js:1-4 | formatting a formatted time stamp changes nothing |
| Helpers.MatchingIds | src/utils/helpers.js:12-16 | the keys of the known devices whose name or id matches the query |
| Helpers.Matches | src/utils/helpers.js:13-16 | the empty query matches every device, and so does the lower-cased name of the device or the decimal form of its id |
| Helpers.IdMatches | src/utils/helpers.js:12-16 | only a known device can match; for the empty query every known device matches |
| Helpers.MatchIgnoresNameCase | src/utils/helpers.js:14 | upper-casing a device's name never changes whether it matches |
| Helpers.KeepMatching | src/utils/helpers.js:11-17 | an id is kept iff it is listed, its device exists, and the device matches; order and repeats follow from KeepMatchingIsOnly |
| Helpers.KeepMatchingIsOnly | src/utils/helpers.js:11-17 | the match filter is the order-preserving filter against the set of matching keys |
| Helpers.KeepMatchingAscending | src/utils/helpers.js:23-29 | filtering a strictly ascending id list keeps it strictly ascending |
| Helpers.KeepMatchingNone | src/utils/helpers.js:11-17 | when no device matches, no id is kept |
| Helpers.Narrow | src/utils/helpers.js:9-17 | the group keeps its id and name, and its ids become its matching ids, in their order and with their repeats |
| Helpers.NarrowGroups | src/utils/helpers.js:9-18 | narrowing never returns more groups than it was given |
| Helpers.NarrowGroupsSound | src/utils/helpers.js:9-18 | every group returned is non-empty and is some input group narrowed to its matches |
| Helpers.NarrowedIdSound | src/utils/helpers.js:9-18 | every id of a narrowed group was listed by some group and names a known device that matches |
| Helpers.NarrowGroupsComplete | src/utils/helpers.js:9-18 | every input group with a match is returned, narrowed |
| Helpers.NarrowGroupsAppend | src/utils/helpers.js:9-18 | narrowing works group by group, so returned groups keep their relative order |
| Helpers.NarrowGroupsNone | src/utils/helpers.js:9-18 | when no device matches, no group is returned |
| Helpers.FilterDevices | src/utils/helpers.js:5-32 | an empty query returns the groups untouched and no ungrouped ids; otherwise the ungrouped result is exactly the matching ungrouped device keys, strictly ascending, and the groups are narrowed |
| Helpers.FilterSound | src/utils/helpers.js:9-29 | no output id is invented: grouped results were listed by a group and ungrouped results are device keys; for a non-empty query every grouped result names a matching device |
| Helpers.FilterNoMatch | src/utils/helpers.js:9-31 | a non-empty query that no device matches returns empty groups and an empty ungrouped list |
| Helpers.FilterKeepsMatchingGroups | src/utils/helpers.js:9-18 | a group with a matching device appears in the result, narrowed to its matches |
| Helpers.FilterIgnoresCase | src/utils/helpers.js:6 | filtering by a query and by its lower-cased form gives the same result |
| Helpers.LowerNumeral | src/utils/helpers.js:15 | lower-casing the decimal form of an id leaves it unchanged |
| Helpers.FilterFindsOwnId | src/utils/helpers.js:19-29 | searching for an ungrouped device's own id finds that device |
| MapState.MinOf | src/stores/useMapStore.js:31 | `Math.min` returns an element no larger than any other |
| MapState.MaxOf | src/stores/useMapStore.js:32 | `Math.max` returns an element no smaller than any other |
| MapState.Latitudes | src/stores/useMapStore.js:29 | the latitudes of the devices, in order |
| MapState.Longitudes | src/stores/useMapStore.js:30 | the longitudes of the devices, in order |
| MapState.BoundingBox | src/stores/useMapStore.js:29-35 | the box corners are ordered and every device lies inside |
| MapState.BoundingBoxTight | src/stores/useMapStore.js:29-35 | each side of the box is attained by some device |
| MapState.Placemark | src/stores/useMapStore.js:52-71 | the feature has the device's id and coordinates in `[lon, lat]` order, and is red iff the device is in alarm |
| MapState.Placemarks | src/stores/useMapStore.js:51-73 | one feature per device, in the order of the devices |
| MapState.MapStore.constructor | src/stores/useMapStore.js:5-9 | no map and no object manager yet; centred on Moscow at zoom 10; no bounds |
| MapState.MapStore.SetMapInstance | src/stores/useMapStore.js:10-12 | only the map instance changes |
| MapState.MapStore.SetObjectManager | src/stores/useMapStore.js:13-15 | only the object manager changes |
| MapState.MapStore.SetBounds | src/stores/useMapStore.js:16-18 | only the bounds change |
| MapState.MapStore.FitToDevices | src/stores/useMapStore.js:19-42 | nothing happens without a map or without devices; one device sets centre and zoom 15 and makes the same `setCenter` call, leaving bounds alone; several devices set the bounds to their bounding box and make the same `setBounds` call with the zoom range check, leaving centre and zoom alone |
| MapState.MapStore.ClearAllPlacemarks | src/stores/useMapStore.js:43-47 | the collection is emptied when there is an object manager; nothing happens otherwise, so a second call changes nothing |
| MapState.MapStore.AddDevicePlacemarks | src/stores/useMapStore.js:48-74 | nothing happens without an object manager; otherwise the collection ends up holding exactly one feature per device, in order |
| AppState.Toggled | src/stores/useAppStore.js:13-15 | the new mode is one of the two known modes, and it is archive iff the old mode was online |
| AppState.ToggledTwice | src/stores/useAppStore.js:13-15 | toggling twice restores either known mode |
| AppState.ToggledRecovers | src/stores/useAppStore.js:13-15 | any other mode value is replaced by online, then archive |
| AppState.Flip | src/stores/useAppStore.js:16-21 | the entry reads as the negation of what it read as before; every other entry is unchanged |
| AppState.FlipTwice | src/stores/useAppStore.js:16-21 | flipping twice restores what every entry reads as; a missing entry comes back as present and false |
| AppState.FlipCommutes | src/stores/useAppStore.js:16-21 | flips of two entries may be done in either order |
| AppState.AppStore.constructor | src/stores/useAppStore.js:6-10 | starts online, with nothing collapsed, no open menu and an empty search |
| AppState.AppStore.IsOnlineMode | src/stores/useAppStore.js:11 | when it holds the mode is a known one; in a valid store, when it fails the mode is archive |
| AppState.AppStore.IsArchiveMode | src/stores/useAppStore.js:12 | when it holds the mode is a known one; in a valid store, when it fails the mode is online |
| AppState.AppStore.ExactlyOneMode | src/stores/useAppStore.js:11-12 | in a valid store exactly one of `isOnlineMode` and `isArchiveMode` holds |
| AppState.AppStore.ToggleMode | src/stores/useAppStore.js:13-15 | online becomes archive and archive becomes online; the store stays valid; nothing else changes |
| AppState.AppStore.ToggleGroup | src/stores/useAppStore.js:16-18 | the group's collapsed flag is flipped; nothing else changes |
| AppState.AppStore.ToggleDevice | src/stores/useAppStore.js:19-21 | the device's collapsed flag is flipped; nothing else changes |
| AppState.AppStore.OpenMenu | src/stores/useAppStore.js:22-24 | the given device becomes the only active menu id; nothing else changes |
| AppState.AppStore.CloseMenu | src/stores/useAppStore.js:25-27 | there is no active menu afterwards; nothing else changes |

## Left out

- Key order. JavaScript's `Object.keys` lists array-index keys (the integers 0 to 2^32 − 2) in ascending order and every other key in insertion order. The model lists every key in ascending order. So negative ids, and ids of 4294967295 (2^32 − 1) or more, are not ordered as JavaScript would order them.
- Ids. Ids are integers throughout. The string keys of the JSON objects and the `parseInt`/`Number` conversions are not modelled, and neither is an id passed as a string, which JavaScript's `===` and `includes` would never match.
- Text.LowerChar: lower-cases only Basic Latin and the Cyrillic capitals U+0400 to U+042F (the Russian alphabet and Ѐ to Џ). Other scripts' case mappings are not modelled.
- Text.IntToString: covers integer ids only. The exponent form `toString` uses from 1e21 on is not modelled, nor are non-integer ids.
- Filtering a blank query. The search tests only for the empty string. A query made of spaces runs the filter and matches only names that contain spaces. The model follows the code here, not the wider reading that a blank query also means "no filter".
- Devices.ToggleOnlineTwice: toggling twice is not the identity for a device that was already selected with cameras. The second toggle selects it again with no cameras, because that is what the code does.
- `getDevicesForMap` (src/stores/useDevicesStore.js:29-31) is a placeholder that always yields an empty list. It is not modelled.
- `getSelectedDevices` is `Devices.DevicesStore.Selected`. It has no contract of its own because it only picks one of the two fields.
- Camera lists. `deviceSelection.cameras || []` assumes a selection entry may lack a camera list. In the model every entry has a list, since every path that creates an entry gives it one.
- In-place update. `toggleCameraSelection` mutates the nested selection object in place, which any other holder of that object would see. The model reassigns the map entry, so aliasing of selection objects is not captured.
- Writes from outside. The stores expose their fields as reactive references that components may also write directly. The model changes state only through the store's operations, which is what lets the invariants `Devices.DevicesStore.Valid` and `AppState.AppStore.Valid` hold.
- Reactivity. Vue/Pinia reactivity (`ref`, `computed`) is not modelled. Computed values are functions of the fields.
- The map objects. The third-party map and its object manager are `MapState.MapSurface` and `MapState.ObjectManager`, which only record the calls made on them. Map rendering is not modelled.
- Tooltips. The tooltip HTML and the `toFixed(6)` rounding of coordinates are not modelled. A feature keeps the tooltip's data as a `MapState.Hint` record.
- Coordinates. Coordinates are mathematical reals. Floating-point effects and `Math.min`/`Math.max` on `NaN` are not modelled.
- `searchQuery` is a plain field of `AppState.AppStore`. Components write it directly, and the store has no operation on it.
- Not part of this model:
  - src/services/websocket.js, the mock data feed driven by timers;
  - src/composables/useWebSoket.js, the feed wiring, whose only logic is that an `INITIAL_DATA` message calls `setDevicesData`;
  - src/services/yandexMaps.js, the map script loader;
  - src/stores/index.js, the local-storage persistence;
  - src/main.js, the application bootstrap.
