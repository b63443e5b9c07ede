/** The admin dashboard's menu: filtering by permission, the depth-first
    lookup of the active section's component, and the initial section. */
module AdminDashboard {
  import opened Common

  /** A menu entry; `component` is None where the entry has none (a parent
      that only opens a submenu), and an entry without a submenu has an empty
      one, which every use here treats alike. */
  datatype MenuItem = MenuItem(name: string, permission: Option<string>, component: Option<string>,
                               submenu: seq<MenuItem>)

  /** `hasPermission`: no permission (missing or empty) is always held. */
  predicate HasPermission(held: seq<string>, permission: Option<string>)
  {
    permission.None? || permission.value == "" || permission.value in held
  }

  /** The test an entry must pass to be shown. */
  predicate Allowed(held: seq<string>, item: MenuItem)
  {
    item.permission.None? || item.permission.value == "" || HasPermission(held, item.permission)
  }

  /** The entry as it is shown: its submenu is filtered by the parent's own test. */
  function Shown(held: seq<string>, item: MenuItem): (r: MenuItem)
    ensures Allowed(held, item) ==> r == item
  {
    item.(submenu := if Allowed(held, item) then item.submenu else [])
  }

  /** filterMenuItems: the allowed entries, in order. */
  function FilterMenuItems(items: seq<MenuItem>, held: seq<string>): (r: seq<MenuItem>)
    ensures |r| <= |items|
    ensures forall m :: m in r <==> m in items && Allowed(held, m)
  {
    if items == [] then []
    else if Allowed(held, items[0]) then [Shown(held, items[0])] + FilterMenuItems(items[1..], held)
    else FilterMenuItems(items[1..], held)
  }

  /** Filtering splits over concatenation, so the allowed entries keep their order. */
  lemma {:induction false} FilterAppend(a: seq<MenuItem>, b: seq<MenuItem>, held: seq<string>)
    ensures FilterMenuItems(a + b, held) == FilterMenuItems(a, held) + FilterMenuItems(b, held)
  {
    if a == [] {
      assert a + b == b;
    } else {
      assert (a + b)[1..] == a[1..] + b;
      FilterAppend(a[1..], b, held);
    }
  }

  /** The entries in depth-first order: each entry, then its submenu, then its siblings. */
  function Flatten(items: seq<MenuItem>): (r: seq<MenuItem>)
    ensures |r| >= |items|
    ensures items != [] ==> r[0] == items[0]
    decreases items
  {
    if items == [] then []
    else
      assert items[0] in items;
      [items[0]] + Flatten(items[0].submenu) + Flatten(items[1..])
  }

  /** The first entry of a flat list with the given name. */
  function FirstMatch(flat: seq<MenuItem>, name: string): (r: Option<MenuItem>)
    ensures r.Some? ==> r.value in flat && r.value.name == name
    ensures r.None? <==> forall m :: m in flat ==> m.name != name
  {
    if flat == [] then None
    else if flat[0].name == name then Some(flat[0])
    else FirstMatch(flat[1..], name)
  }

  lemma {:induction false} FirstMatchAppend(a: seq<MenuItem>, b: seq<MenuItem>, name: string)
    ensures FirstMatch(a + b, name) == if FirstMatch(a, name).Some? then FirstMatch(a, name) else FirstMatch(b, name)
  {
    if a == [] {
      assert a + b == b;
    } else {
      assert (a + b)[1..] == a[1..] + b;
      FirstMatchAppend(a[1..], b, name);
    }
  }

  /** findActiveComponent: the component of an entry named `active`; a
      submenu whose search comes back empty does not stop the search, but an
      entry with the right name does, even without a component. */
  function FindActive(items: seq<MenuItem>, active: string): (r: Option<string>)
    ensures r.Some? ==> exists m :: m in Flatten(items) && m.name == active && m.component == r
    decreases items
  {
    if items == [] then None
    else if items[0].name == active then
      assert items[0] in Flatten(items);
      items[0].component
    else
      assert items[0] in items;
      var sub := FindActive(items[0].submenu, active);
      var flat := Flatten(items);
      var subFlat := Flatten(items[0].submenu);
      assert flat == [items[0]] + subFlat + Flatten(items[1..]);
      assert forall m :: m in subFlat ==> m in flat;
      assert forall m :: m in Flatten(items[1..]) ==> m in flat;
      if sub.Some? then sub else FindActive(items[1..], active)
  }

  predicate AllHaveComponents(flat: seq<MenuItem>)
  {
    forall m :: m in flat ==> m.component.Some?
  }

  /** When every entry has a component, the lookup finds the first entry in
      depth-first order with the active name, and nothing when there is none. */
  lemma {:induction false} FindActiveIsFirstMatch(items: seq<MenuItem>, active: string)
    requires AllHaveComponents(Flatten(items))
    ensures FindActive(items, active) ==
              if FirstMatch(Flatten(items), active).Some? then FirstMatch(Flatten(items), active).value.component else None
    decreases items
  {
    if items != [] {
      assert items[0] in items;
      var subFlat := Flatten(items[0].submenu);
      var restFlat := Flatten(items[1..]);
      assert Flatten(items) == [items[0]] + (subFlat + restFlat);
      assert Flatten(items)[1..] == subFlat + restFlat;
      if items[0].name != active {
        FirstMatchAppend(subFlat, restFlat, active);
        FindActiveIsFirstMatch(items[0].submenu, active);
        FindActiveIsFirstMatch(items[1..], active);
      }
    }
  }

  /** Every entry of a submenu, at any depth, is among the flattened entries. */
  lemma {:induction false} SubtreeInFlatten(items: seq<MenuItem>, k: int)
    requires 0 <= k < |items|
    ensures items[k] in Flatten(items)
    ensures forall m :: m in Flatten(items[k].submenu) ==> m in Flatten(items)
    decreases items
  {
    assert items[0] in items;
    var subFlat := Flatten(items[0].submenu);
    assert Flatten(items) == [items[0]] + subFlat + Flatten(items[1..]);
    if k > 0 {
      SubtreeInFlatten(items[1..], k - 1);
    }
  }

  /** The initial-section effect: with no active section, the first allowed
      entry's first submenu entry, or that entry itself when its submenu is
      missing or empty. */
  function InitialSection(allowed: seq<MenuItem>, active: string): (r: string)
    ensures active != "" || allowed == [] ==> r == active
    ensures active == "" && allowed != [] ==> exists m :: m in Flatten(allowed) && m.name == r
  {
    if |allowed| > 0 && active == "" then
      var first := allowed[0];
      if |first.submenu| > 0 then
        SubtreeInFlatten(allowed, 0);
        assert first.submenu[0] in Flatten(first.submenu);
        first.submenu[0].name
      else
        assert first in Flatten(allowed);
        first.name
    else active
  }

  /** When every entry has a component and at least one entry is allowed,
      the section chosen at start has a component to show. */
  lemma InitialSectionShowsComponent(menu: seq<MenuItem>, held: seq<string>)
    requires AllHaveComponents(Flatten(menu))
    requires FilterMenuItems(menu, held) != []
    ensures FindActive(menu, InitialSection(FilterMenuItems(menu, held), "")).Some?
  {
    var allowed := FilterMenuItems(menu, held);
    var r := InitialSection(allowed, "");
    var first := allowed[0];
    assert first in menu;
    var k :| 0 <= k < |menu| && menu[k] == first;
    SubtreeInFlatten(menu, k);
    if |first.submenu| > 0 {
      assert first.submenu[0] in Flatten(first.submenu);
      assert first.submenu[0] in Flatten(menu);
    }
    FindActiveIsFirstMatch(menu, r);
  }

  /** The lookup runs over the whole menu: a section the role cannot see is
      still found by name. */
  lemma LookupIgnoresPermissions()
    ensures var menu := [MenuItem("Bàn", Some("manage_tables"), Some("TablesSection"), [])];
            FilterMenuItems(menu, []) == [] && FindActive(menu, "Bàn") == Some("TablesSection")
  {
    var menu := [MenuItem("Bàn", Some("manage_tables"), Some("TablesSection"), [])];
    assert !Allowed([], menu[0]);
  }

  class Dashboard {
    var activeSection: string
    const menu: seq<MenuItem>
    const permissions: seq<string>

    constructor (menu: seq<MenuItem>, permissions: seq<string>)
      ensures activeSection == "" && this.menu == menu && this.permissions == permissions
    {
      activeSection := "";
      this.menu := menu;
      this.permissions := permissions;
    }

    method SelectInitialSection()
      modifies this`activeSection
      ensures activeSection == InitialSection(FilterMenuItems(menu, permissions), old(activeSection))
    {
      var allowed := FilterMenuItems(menu, permissions);
      activeSection := InitialSection(allowed, activeSection);
    }

    /** What is rendered: the allowed entries in the sidebar, and the active
        component looked up in the whole menu. */
    method Render() returns (sidebar: seq<MenuItem>, component: Option<string>)
      ensures forall m :: m in sidebar <==> m in menu && Allowed(permissions, m)
      ensures sidebar == FilterMenuItems(menu, permissions)
      ensures component == FindActive(menu, activeSection)
    {
      sidebar := FilterMenuItems(menu, permissions);
      component := FindActive(menu, activeSection);
    }
  }
}
