/**
 * The interface store: the display mode (live view or archive), which groups
 * and devices are collapsed in the sidebar, which device's context menu is
 * open, and the search text.
 */
module AppState {
  import opened Wrappers

  const Online := "online"
  const Archive := "archive"

  /** `mode === 'online' ? 'archive' : 'online'` */
  function Toggled(mode: string): (r: string)
    ensures r == Online || r == Archive
    ensures r == Archive <==> mode == Online
  {
    if mode == Online then Archive else Online
  }

  /** Toggling twice from either mode comes back to it. */
  lemma ToggledTwice(mode: string)
    requires mode == Online || mode == Archive
    ensures Toggled(Toggled(mode)) == mode
  {
  }

  /** Any other value is replaced by the live view on the first toggle. */
  lemma ToggledRecovers(mode: string)
    requires mode != Online && mode != Archive
    ensures Toggled(mode) == Online && Toggled(Toggled(mode)) == Archive
  {
  }

  /** A missing entry of a collapse map reads as `undefined`, which is falsy. */
  predicate IsCollapsed(collapsed: map<int, bool>, id: int) {
    id in collapsed && collapsed[id]
  }

  /** `collapsed[id] = !collapsed[id]`: the entry is written, every other entry kept. */
  function Flip(collapsed: map<int, bool>, id: int): (r: map<int, bool>)
    ensures r.Keys == collapsed.Keys + {id}
    ensures IsCollapsed(r, id) == !IsCollapsed(collapsed, id)
    ensures forall k :: k in collapsed && k != id ==> r[k] == collapsed[k]
  {
    collapsed[id := !IsCollapsed(collapsed, id)]
  }

  /**
   * Flipping an entry twice restores what every entry reads as. The map
   * itself may differ: an entry that was missing is now present and false.
   */
  lemma FlipTwice(collapsed: map<int, bool>, id: int)
    ensures forall k :: IsCollapsed(Flip(Flip(collapsed, id), id), k) == IsCollapsed(collapsed, k)
    ensures id in collapsed ==> Flip(Flip(collapsed, id), id) == collapsed
    ensures id !in collapsed ==> Flip(Flip(collapsed, id), id) == collapsed[id := false]
  {
  }

  /** Flips of different entries do not interfere. */
  lemma FlipCommutes(collapsed: map<int, bool>, a: int, b: int)
    ensures Flip(Flip(collapsed, a), b) == Flip(Flip(collapsed, b), a)
  {
    if a == b {
    } else {
      assert Flip(Flip(collapsed, a), b).Keys == Flip(Flip(collapsed, b), a).Keys;
    }
  }

  class AppStore {
    var mode: string
    var collapsedGroups: map<int, bool>
    var collapsedDevices: map<int, bool>
    var activeMenuDeviceId: Option<int>
    var searchQuery: string

    /** The mode is one of the two the interface knows. */
    ghost predicate Valid()
      reads this
    {
      mode == Online || mode == Archive
    }

    constructor ()
      ensures Valid() && mode == Online
      ensures collapsedGroups == map[] && collapsedDevices == map[]
      ensures activeMenuDeviceId == None && searchQuery == ""
    {
      mode := Online;
      collapsedGroups := map[];
      collapsedDevices := map[];
      activeMenuDeviceId := None;
      searchQuery := "";
    }

    /** `isOnlineMode`: when it holds the mode is a known one; in a valid store, off means archive. */
    function IsOnlineMode(): (b: bool)
      reads this
      ensures b ==> Valid()
      ensures Valid() && !b ==> mode == Archive
    {
      mode == Online
    }

    /** `isArchiveMode`: when it holds the mode is a known one; in a valid store, off means online. */
    function IsArchiveMode(): (b: bool)
      reads this
      ensures b ==> Valid()
      ensures Valid() && !b ==> mode == Online
    {
      mode == Archive
    }

    /** In a valid store exactly one of the two modes is on. */
    lemma ExactlyOneMode()
      requires Valid()
      ensures IsOnlineMode() != IsArchiveMode()
    {
    }

    /** `toggleMode`: switches between the live view and the archive. */
    method ToggleMode()
      modifies this
      ensures Valid()
      ensures mode == Toggled(old(mode))
      ensures old(IsOnlineMode()) ==> IsArchiveMode()
      ensures old(IsArchiveMode()) ==> IsOnlineMode()
      ensures collapsedGroups == old(collapsedGroups) && collapsedDevices == old(collapsedDevices)
      ensures activeMenuDeviceId == old(activeMenuDeviceId) && searchQuery == old(searchQuery)
    {
      mode := if mode == Online then Archive else Online;
    }

    /** `toggleGroup` */
    method ToggleGroup(groupId: int)
      modifies this
      ensures collapsedGroups == Flip(old(collapsedGroups), groupId)
      ensures mode == old(mode) && collapsedDevices == old(collapsedDevices)
      ensures activeMenuDeviceId == old(activeMenuDeviceId) && searchQuery == old(searchQuery)
    {
      collapsedGroups := collapsedGroups[groupId := !(groupId in collapsedGroups && collapsedGroups[groupId])];
    }

    /** `toggleDevice` */
    method ToggleDevice(deviceId: int)
      modifies this
      ensures collapsedDevices == Flip(old(collapsedDevices), deviceId)
      ensures mode == old(mode) && collapsedGroups == old(collapsedGroups)
      ensures activeMenuDeviceId == old(activeMenuDeviceId) && searchQuery == old(searchQuery)
    {
      collapsedDevices := collapsedDevices[deviceId := !(deviceId in collapsedDevices && collapsedDevices[deviceId])];
    }

    /** `openMenu` */
    method OpenMenu(deviceId: int)
      modifies this
      ensures activeMenuDeviceId == Some(deviceId)
      ensures mode == old(mode) && collapsedGroups == old(collapsedGroups) && collapsedDevices == old(collapsedDevices)
      ensures searchQuery == old(searchQuery)
    {
      activeMenuDeviceId := Some(deviceId);
    }

    /** `closeMenu` */
    method CloseMenu()
      modifies this
      ensures activeMenuDeviceId == None
      ensures mode == old(mode) && collapsedGroups == old(collapsedGroups) && collapsedDevices == old(collapsedDevices)
      ensures searchQuery == old(searchQuery)
    {
      activeMenuDeviceId := None;
    }
  }
}
