/** The back-office sidebar (src/components/menu/sidebar.tsx): the role the
    user is shown as, the navigation items that role may see, which of them
    are highlighted for the current pathname, and the role label. */
module Sidebar {
  import opened Prelude
  import NavMain

  datatype NavItem = NavItem(name: string, href: string, roles: seq<string>)

  /** The navigation table; the items left commented out in the source are
      not part of it. */
  const NavItems: seq<NavItem> := [
    NavItem("Dashboard", "/main", ["SUPER_ADMIN", "GERENTE_SUCURSAL", "MESERO"]),
    NavItem("Sucursales", "/main/branches", ["SUPER_ADMIN", "GERENTE_SUCURSAL"]),
    NavItem("Inventario", "/main/inventory", ["SUPER_ADMIN", "GERENTE_SUCURSAL"]),
    NavItem("Empleados", "/main/employees", ["SUPER_ADMIN"])]

  /** `user.role || "USER"`: a missing or empty role counts as "USER". */
  function EffectiveRole(role: Option<string>): (r: string)
    ensures r != ""
    ensures (role.None? || role.value == "") ==> r == "USER"
    ensures (role.Some? && role.value != "") ==> r == role.value
  {
    match role
    case None => "USER"
    case Some(s) => if s == "" then "USER" else s
  }

  /** `navItems.filter(item => item.roles.includes(role))` */
  function Visible(items: seq<NavItem>, role: string): (r: seq<NavItem>)
    ensures forall x :: x in r <==> x in items && role in x.roles
    ensures |r| <= |items|
  {
    if items == [] then []
    else (if role in items[0].roles then [items[0]] else []) + Visible(items[1..], role)
  }

  /** `a` is `b` with some elements left out and the rest in their order. */
  predicate IsSubsequence<T(==)>(a: seq<T>, b: seq<T>)
    decreases |b|
  {
    a == [] ||
    (b != [] && ((a[0] == b[0] && IsSubsequence(a[1..], b[1..])) || IsSubsequence(a, b[1..])))
  }

  /** Filtering keeps the table's order. */
  lemma {:induction false} VisibleKeepsOrder(items: seq<NavItem>, role: string)
    ensures IsSubsequence(Visible(items, role), items)
  {
    if items != [] {
      VisibleKeepsOrder(items[1..], role);
      var rest := Visible(items[1..], role);
      if role in items[0].roles {
        assert Visible(items, role) == [items[0]] + rest;
        assert ([items[0]] + rest)[1..] == rest;
      } else {
        assert Visible(items, role) == rest;
      }
    }
  }

  function Names(items: seq<NavItem>): (r: seq<string>)
    ensures |r| == |items| && forall i :: 0 <= i < |items| ==> r[i] == items[i].name
  {
    if items == [] then [] else [items[0].name] + Names(items[1..])
  }

  /** An item whose roles all list the role survives the filter. */
  lemma {:induction false} VisibleWhenAllListed(items: seq<NavItem>, role: string)
    requires forall x :: x in items ==> role in x.roles
    ensures Visible(items, role) == items
  {
    if items != [] {
      assert items[0] in items;
      assert forall x :: x in items[1..] ==> x in items;
      VisibleWhenAllListed(items[1..], role);
    }
  }

  /** The menu each role gets. */
  lemma SuperAdminSeesEverything()
    ensures Visible(NavItems, "SUPER_ADMIN") == NavItems
  {
    forall x | x in NavItems ensures "SUPER_ADMIN" in x.roles { }
    VisibleWhenAllListed(NavItems, "SUPER_ADMIN");
  }

  lemma GerenteSeesThree()
    ensures Names(Visible(NavItems, "GERENTE_SUCURSAL")) == ["Dashboard", "Sucursales", "Inventario"]
  {
    var t := NavItems;
    assert t[1..][1..][1..][1..] == [];
    assert "GERENTE_SUCURSAL" in t[0].roles && "GERENTE_SUCURSAL" in t[1].roles;
    assert "GERENTE_SUCURSAL" in t[2].roles && "GERENTE_SUCURSAL" !in t[3].roles;
  }

  lemma MeseroSeesDashboard()
    ensures Names(Visible(NavItems, "MESERO")) == ["Dashboard"]
  {
    var t := NavItems;
    assert t[1..][1..][1..][1..] == [];
    assert "MESERO" in t[0].roles && "MESERO" !in t[1].roles;
    assert "MESERO" !in t[2].roles && "MESERO" !in t[3].roles;
  }

  /** A role that no item lists, "USER" among them, gets an empty menu; so
      does a user with no role. */
  lemma UnlistedRoleSeesNothing(role: Option<string>)
    requires EffectiveRole(role) !in {"SUPER_ADMIN", "GERENTE_SUCURSAL", "MESERO"}
    ensures Visible(NavItems, EffectiveRole(role)) == []
  {
    var r := EffectiveRole(role);
    forall x | x in NavItems ensures r !in x.roles { }
    if Visible(NavItems, r) != [] {
      assert Visible(NavItems, r)[0] in Visible(NavItems, r);
    }
  }

  /** The sidebar's highlight test: a bare prefix match. */
  predicate Highlighted(pathname: string, href: string)
  {
    StartsWith(pathname, href)
  }

  /** The highlighted items as written: every item whose href the pathname
      starts with. */
  function HighlightedAsWritten(items: seq<NavItem>, pathname: string): (r: seq<NavItem>)
    ensures forall x :: x in r <==> x in items && Highlighted(pathname, x.href)
  {
    if items == [] then []
    else (if Highlighted(pathname, items[0].href) then [items[0]] else []) + HighlightedAsWritten(items[1..], pathname)
  }

  /** Dashboard's href "/main" is a prefix of every page under it, so
      Dashboard is highlighted next to the page's own item ... */
  lemma DashboardAlwaysHighlightedAsWritten()
    ensures Names(HighlightedAsWritten(NavItems, "/main/branches")) == ["Dashboard", "Sucursales"]
  {
    var p, t := "/main/branches", NavItems;
    assert p[..5] == "/main" && p[..14] == "/main/branches";
    assert HighlightedAsWritten(t[1..][1..][1..][1..], p) == [];
    assert HighlightedAsWritten(t[1..][1..][1..], p) == [];
    assert HighlightedAsWritten(t[1..][1..], p) == [];
    assert HighlightedAsWritten(t[1..], p) == [t[1]];
    assert HighlightedAsWritten(t, p) == [t[0], t[1]];
  }

  /** ... and on "/mainframe", which is no page of it, as well. */
  lemma MainframeHighlightsDashboardAsWritten()
    ensures Names(HighlightedAsWritten(NavItems, "/mainframe")) == ["Dashboard"]
  {
    var p, t := "/mainframe", NavItems;
    assert p[..5] == "/main";
    assert HighlightedAsWritten(t[1..][1..][1..][1..], p) == [];
    assert HighlightedAsWritten(t[1..][1..][1..], p) == [];
    assert HighlightedAsWritten(t[1..][1..], p) == [];
    assert HighlightedAsWritten(t[1..], p) == [];
    assert HighlightedAsWritten(t, p) == [t[0]];
  }

  /** The item the pathname lies under at a "/" boundary with the longest
      href: the one item meant to carry the active marker. */
  function MostSpecific(items: seq<NavItem>, pathname: string): (r: Option<NavItem>)
    ensures r.None? <==> forall x :: x in items ==> !NavMain.TopActive(pathname, x.href)
    ensures r.Some? ==>
      r.value in items && NavMain.TopActive(pathname, r.value.href) &&
      forall x :: x in items && NavMain.TopActive(pathname, x.href) ==> |x.href| <= |r.value.href|
  {
    if items == [] then None
    else
      var rest := MostSpecific(items[1..], pathname);
      assert forall x :: x in items ==> x == items[0] || x in items[1..];
      if !NavMain.TopActive(pathname, items[0].href) then rest
      else if rest.Some? && |rest.value.href| > |items[0].href| then rest
      else Some(items[0])
  }

  /** The highlighted items, corrected: at most the most specific one. */
  function HighlightedItems(items: seq<NavItem>, pathname: string): (r: seq<NavItem>)
    ensures |r| <= 1
    ensures r == [] <==> forall x :: x in items ==> !NavMain.TopActive(pathname, x.href)
    ensures forall x :: x in r ==> x in items && NavMain.TopActive(pathname, x.href)
  {
    match MostSpecific(items, pathname)
    case None => []
    case Some(x) => [x]
  }

  /** With the correction only the page's own item is highlighted ... */
  lemma OnlySucursalesOnBranches()
    ensures Names(HighlightedItems(NavItems, "/main/branches")) == ["Sucursales"]
  {
    NavMain.TopActiveIff("/main/branches", "/main");
    NavMain.TopActiveIff("/main/branches", "/main/inventory");
    NavMain.TopActiveIff("/main/branches", "/main/employees");
    var t := NavItems;
    assert t[1..][1..][1..][1..] == [];
    assert MostSpecific(t[1..][1..][1..], "/main/branches") == None;
    assert MostSpecific(t[1..][1..], "/main/branches") == None;
    assert MostSpecific(t[1..], "/main/branches") == Some(t[1]);
  }

  /** ... Dashboard only on its own page ... */
  lemma OnlyDashboardOnMain()
    ensures Names(HighlightedItems(NavItems, "/main")) == ["Dashboard"]
  {
    NavMain.TopActiveIff("/main", "/main/branches");
    NavMain.TopActiveIff("/main", "/main/inventory");
    NavMain.TopActiveIff("/main", "/main/employees");
    var t := NavItems;
    assert t[1..][1..][1..][1..] == [];
    assert MostSpecific(t[1..], "/main") == None;
  }

  /** ... and a pathname that merely extends "/main" highlights nothing. */
  lemma NothingOnMainframe()
    ensures HighlightedItems(NavItems, "/mainframe") == []
  {
    NavMain.TopActiveIff("/mainframe", "/main");
    NavMain.TopActiveIff("/mainframe", "/main/branches");
    NavMain.TopActiveIff("/mainframe", "/main/inventory");
    NavMain.TopActiveIff("/mainframe", "/main/employees");
  }

  /** `userRole.replace("_", " ")`: only the first underscore becomes a space. */
  function RoleLabel(role: string): (r: string)
    ensures |r| == |role|
    ensures '_' !in role ==> r == role
    ensures '_' in role ==>
      var k := FirstIndexOf(role, '_').value;
      r[k] == ' ' && forall i :: 0 <= i < |role| && i != k ==> r[i] == role[i]
  {
    ReplaceFirst(role, '_', ' ')
  }

  /** The label still shows an underscore exactly when the role has two. */
  lemma RoleLabelKeepsLaterUnderscores(role: string)
    ensures '_' in RoleLabel(role) <==>
      exists i, j :: 0 <= i < j < |role| && role[i] == '_' && role[j] == '_'
  {
    var r := RoleLabel(role);
    if '_' in role {
      var k := FirstIndexOf(role, '_').value;
      if '_' in r {
        var j :| 0 <= j < |r| && r[j] == '_';
        assert j != k;
        assert 0 <= k < j < |role| && role[k] == '_' && role[j] == '_';
      }
      if exists i, j :: 0 <= i < j < |role| && role[i] == '_' && role[j] == '_' {
        var i, j :| 0 <= i < j < |role| && role[i] == '_' && role[j] == '_';
        assert r[j] == '_';
      }
    }
  }

  /** The first occurrence, told by position. */
  lemma FirstIndexOfAt(s: string, c: char, k: nat)
    requires k < |s| && s[k] == c && c !in s[..k]
    ensures FirstIndexOf(s, c) == Some(k)
  {
    assert c in s;
  }

  lemma SuperAdminLabel()
    ensures RoleLabel("SUPER_ADMIN") == "SUPER ADMIN"
  {
    assert "SUPER" + " " + "ADMIN" == "SUPER ADMIN";
    var s := "SUPER_ADMIN";
    assert s[..5] == "SUPER" && s[5 + 1..] == "ADMIN";
    FirstIndexOfAt(s, '_', 5);
  }

  lemma GerenteLabel()
    ensures RoleLabel("GERENTE_SUCURSAL") == "GERENTE SUCURSAL"
  {
    assert "GERENTE" + " " + "SUCURSAL" == "GERENTE SUCURSAL";
    var s := "GERENTE_SUCURSAL";
    assert s[..7] == "GERENTE" && s[7 + 1..] == "SUCURSAL";
    FirstIndexOfAt(s, '_', 7);
  }

  /** Only the first underscore is replaced. */
  lemma LaterUnderscoreKept()
    ensures RoleLabel("A_B_C") == "A B_C"
  {
    assert "A" + " " + "B_C" == "A B_C";
    var s := "A_B_C";
    assert s[..1] == "A" && s[1 + 1..] == "B_C";
    FirstIndexOfAt(s, '_', 1);
  }
}
