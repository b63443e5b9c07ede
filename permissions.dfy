/** Role-based permission checks on the server, and the permission picker
    of the role editor. */
module Permissions {
  import opened Common

  /** The three roles a permission can be granted to. */
  const Roles: set<string> := {"owner", "sales_staff", "kitchen_staff"}

  /** `query_params.get('role') or data.get('role')`: a non-empty query
      parameter wins, otherwise a truthy body value, otherwise nothing. */
  function RequestRole(query: Option<string>, body: Option<Value>): (r: Option<Value>)
    ensures query.Some? && query.value != "" ==> r == Some(Text(query.value))
    ensures (query.None? || query.value == "") ==> r == (if body.Some? && !Falsy(body.value) then body else None)
    ensures r.Some? ==> !Falsy(r.value)
  {
    if query.Some? && query.value != "" then Some(Text(query.value))
    else if body.Some? && !Falsy(body.value) then body
    else None
  }

  /** The required codes the role does not hold, in the order they are required. */
  function Missing(required: seq<string>, held: set<string>): (r: seq<string>)
    ensures |r| <= |required|
    ensures forall c :: c in r <==> c in required && c !in held
  {
    if required == [] then []
    else if required[0] !in held then [required[0]] + Missing(required[1..], held)
    else Missing(required[1..], held)
  }

  /** Missing splits over concatenation, so it keeps the required order: it
      is the required list with the held codes struck out. */
  lemma {:induction false} MissingAppend(a: seq<string>, b: seq<string>, held: set<string>)
    ensures Missing(a + b, held) == Missing(a, held) + Missing(b, held)
  {
    if a == [] {
      assert a + b == b;
    } else {
      assert (a + b)[1..] == a[1..] + b;
      MissingAppend(a[1..], b, held);
    }
  }

  lemma MissingOne(c: string, held: set<string>)
    ensures Missing([c], held) == if c in held then [] else [c]
  {
  }

  /** The codes granted to a role; none when it has no grants. */
  function Held(grants: map<string, set<string>>, role: string): set<string>
  {
    if role in grants then grants[role] else {}
  }

  /** What the decorated view answers. */
  datatype Outcome =
    | MissingRole                                  // 400
    | UnknownRole(given: Value)                    // 400, listing the valid roles
    | Forbidden(role: string, missing: seq<string>, required: seq<string>)   // 403
    | Granted(role: string)                        // the view runs with `request.role` set

  /** required_permissions: the role must be given and valid before any
      lookup; the view runs exactly when no required code is missing. */
  function Check(grants: map<string, set<string>>, required: seq<string>,
                 query: Option<string>, body: Option<Value>): (o: Outcome)
    ensures RequestRole(query, body).None? <==> o == MissingRole
    ensures o.UnknownRole? <==>
              RequestRole(query, body).Some? &&
              !(RequestRole(query, body).value.Text? && RequestRole(query, body).value.s in Roles)
    ensures o.Granted? <==>
              && RequestRole(query, body).Some?
              && RequestRole(query, body).value.Text? && RequestRole(query, body).value.s in Roles
              && forall c :: c in required ==> c in Held(grants, RequestRole(query, body).value.s)
    ensures o.Granted? || o.Forbidden? ==> RequestRole(query, body) == Some(Text(o.role)) && o.role in Roles
    ensures o.Forbidden? ==>
              o.missing != [] && o.required == required &&
              o.missing == Missing(required, Held(grants, o.role))
  {
    var role := RequestRole(query, body);
    if role.None? then MissingRole
    else if !(role.value.Text? && role.value.s in Roles) then UnknownRole(role.value)
    else
      var missing := Missing(required, Held(grants, role.value.s));
      if missing == [] then Granted(role.value.s)
      else
        assert missing[0] in missing;
        Forbidden(role.value.s, missing, required)
  }

  /** The query parameter decides even when the body names a more privileged role. */
  lemma QueryRoleWins(grants: map<string, set<string>>, required: seq<string>, bodyRole: Value)
    requires "sales_staff" in grants && "owner" in grants
    requires exists c :: c in required && c !in grants["sales_staff"]
    ensures Check(grants, required, Some("sales_staff"), Some(bodyRole)).Forbidden?
  {
  }

  // ---------------------------------------------------------------------
  // The role editor's permission picker
  // ---------------------------------------------------------------------

  /** `prev.filter(id => id !== x)`. */
  function RemoveAll(s: seq<int>, x: int): (r: seq<int>)
    ensures x !in r
    ensures forall y :: y != x ==> (y in r <==> y in s)
    ensures x !in s ==> r == s
    ensures |r| <= |s|
  {
    if s == [] then []
    else if s[0] == x then RemoveAll(s[1..], x)
    else [s[0]] + RemoveAll(s[1..], x)
  }

  predicate NoDuplicates(s: seq<int>)
  {
    forall i, j :: 0 <= i < j < |s| ==> s[i] != s[j]
  }

  lemma {:induction false} RemoveAllNoDuplicates(s: seq<int>, x: int)
    requires NoDuplicates(s)
    ensures NoDuplicates(RemoveAll(s, x))
  {
    if s != [] {
      RemoveAllNoDuplicates(s[1..], x);
      if s[0] != x {
        assert s[0] !in s[1..];
        assert s[0] !in RemoveAll(s[1..], x);
      }
    }
  }

  /** handlePermissionChange on the selection: nothing in view mode; otherwise
      remove every occurrence of a selected id, or append an unselected one. */
  function Toggle(viewMode: bool, selected: seq<int>, id: int): (r: seq<int>)
    ensures viewMode ==> r == selected
    ensures !viewMode && id in selected ==> r == RemoveAll(selected, id) && id !in r
    ensures !viewMode && id !in selected ==> r == selected + [id]
  {
    if viewMode then selected
    else if id in selected then RemoveAll(selected, id)
    else selected + [id]
  }

  lemma ToggleNoDuplicates(viewMode: bool, selected: seq<int>, id: int)
    requires NoDuplicates(selected)
    ensures NoDuplicates(Toggle(viewMode, selected, id))
  {
    if !viewMode && id in selected {
      RemoveAllNoDuplicates(selected, id);
    }
  }

  /** Toggling an unselected id twice gives back the same list. */
  lemma ToggleTwiceAbsent(selected: seq<int>, id: int)
    requires id !in selected
    ensures Toggle(false, Toggle(false, selected, id), id) == selected
  {
    RemoveAllAppended(selected, id);
  }

  lemma {:induction false} RemoveAllAppended(s: seq<int>, x: int)
    requires x !in s
    ensures RemoveAll(s + [x], x) == s
  {
    if s == [] {
      assert [x][1..] == [];
    } else {
      assert (s + [x])[1..] == s[1..] + [x];
      RemoveAllAppended(s[1..], x);
    }
  }

  /** Toggling a selected id twice keeps the same set of ids (the id moves to the end). */
  lemma ToggleTwicePresent(selected: seq<int>, id: int)
    requires id in selected
    ensures forall y :: y in Toggle(false, Toggle(false, selected, id), id) <==> y in selected
  {
  }

  /** One role's permission entry, by the id in its `permission_details`. */
  datatype RolePermission = RolePermission(permissionId: int)

  function PermissionIds(entries: seq<RolePermission>): (ids: seq<int>)
    ensures |ids| == |entries|
    ensures forall i :: 0 <= i < |entries| ==> ids[i] == entries[i].permissionId
  {
    if entries == [] then [] else [entries[0].permissionId] + PermissionIds(entries[1..])
  }

  /** The picker's state in the role editor. */
  class PermissionPicker {
    var selected: seq<int>
    const viewMode: bool

    constructor (viewMode: bool)
      ensures selected == [] && this.viewMode == viewMode
    {
      selected := [];
      this.viewMode := viewMode;
    }

    /** The initialisation effect: the ids of the role's current permissions,
        when they were loaded. */
    method Init(permissions: Option<seq<RolePermission>>)
      modifies this`selected
      ensures selected == if permissions.Some? then PermissionIds(permissions.value) else old(selected)
    {
      if permissions.Some? {
        selected := PermissionIds(permissions.value);
      }
    }

    method HandlePermissionChange(id: int)
      modifies this`selected
      ensures selected == Toggle(viewMode, old(selected), id)
    {
      if viewMode {
        return;
      }
      if id in selected {
        selected := RemoveAll(selected, id);
      } else {
        selected := selected + [id];
      }
    }

    /** handleSubmit hands over the selection as it stands. */
    method HandleSubmit() returns (submitted: seq<int>)
      ensures submitted == selected
    {
      submitted := selected;
    }
  }
}
