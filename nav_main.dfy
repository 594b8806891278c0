/** The dashboard's main navigation (src/components/Dashboard/nav-main.tsx):
    which entries are highlighted for a pathname, and the order entries are
    listed in. */
module NavMain {
  import opened Prelude

  datatype SubItem = SubItem(title: string, url: string)

  datatype NavItem = NavItem(title: string, url: string, subItems: Option<seq<SubItem>>)

  /** A top-level item is highlighted on its own page and on every page below
      it, cut at a "/" boundary. */
  predicate TopActive(pathname: string, url: string)
  {
    pathname == url || StartsWith(pathname, url + "/")
  }

  /** A sub-item is highlighted on its own page only. */
  predicate SubActive(pathname: string, url: string)
  {
    pathname == url
  }

  /** One rendered menu button: its title, link, highlight and depth
      (0 for an item, 1 for a sub-item). */
  datatype Entry = Entry(title: string, url: string, active: bool, depth: nat)

  function TopEntry(item: NavItem, pathname: string): Entry
  {
    Entry(item.title, item.url, TopActive(pathname, item.url), 0)
  }

  function SubEntries(subs: seq<SubItem>, pathname: string): (r: seq<Entry>)
    ensures |r| == |subs|
    ensures forall j :: 0 <= j < |subs| ==>
      r[j] == Entry(subs[j].title, subs[j].url, SubActive(pathname, subs[j].url), 1)
  {
    if subs == [] then []
    else [Entry(subs[0].title, subs[0].url, SubActive(pathname, subs[0].url), 1)] + SubEntries(subs[1..], pathname)
  }

  /** `item.subItems && item.subItems.map(...)`: nothing for an item
      without sub-items. */
  function SubItemEntries(item: NavItem, pathname: string): seq<Entry>
  {
    match item.subItems
    case None => []
    case Some(subs) => SubEntries(subs, pathname)
  }

  /** The buttons of one item: the item, then its sub-items if it has any. */
  function ItemEntries(item: NavItem, pathname: string): seq<Entry>
  {
    [TopEntry(item, pathname)] + SubItemEntries(item, pathname)
  }

  /** `items.map(...)`: every item's buttons, item after item. */
  function Render(items: seq<NavItem>, pathname: string): seq<Entry>
  {
    if items == [] then [] else ItemEntries(items[0], pathname) + Render(items[1..], pathname)
  }

  /** The depth-0 buttons, in order. */
  function Tops(entries: seq<Entry>): seq<Entry>
  {
    if entries == [] then []
    else (if entries[0].depth == 0 then [entries[0]] else []) + Tops(entries[1..])
  }

  lemma {:induction false} TopsConcat(a: seq<Entry>, b: seq<Entry>)
    ensures Tops(a + b) == Tops(a) + Tops(b)
  {
    if a != [] {
      assert (a + b)[0] == a[0];
      assert (a + b)[1..] == a[1..] + b;
      TopsConcat(a[1..], b);
    } else {
      assert a + b == b;
    }
  }

  lemma {:induction false} TopsOfSubEntries(subs: seq<SubItem>, pathname: string)
    ensures Tops(SubEntries(subs, pathname)) == []
  {
    if subs != [] {
      var r := SubEntries(subs, pathname);
      assert r[1..] == SubEntries(subs[1..], pathname);
      TopsOfSubEntries(subs[1..], pathname);
    }
  }

  /** Only the item itself is at depth 0 among its buttons. */
  lemma TopsOfItemEntries(item: NavItem, pathname: string)
    ensures Tops(ItemEntries(item, pathname)) == [TopEntry(item, pathname)]
  {
    var top := [TopEntry(item, pathname)];
    var subs := SubItemEntries(item, pathname);
    if item.subItems.Some? {
      TopsOfSubEntries(item.subItems.value, pathname);
    }
    assert Tops(subs) == [];
    TopsConcat(top, subs);
    assert top[1..] == [];
  }

  /** Every item is rendered once, in the given order, whether or not it has
      sub-items. */
  lemma {:induction false} RenderListsEveryItem(items: seq<NavItem>, pathname: string)
    ensures var tops := Tops(Render(items, pathname));
      |tops| == |items| && forall i :: 0 <= i < |items| ==> tops[i] == TopEntry(items[i], pathname)
  {
    if items != [] {
      TopsOfItemEntries(items[0], pathname);
      TopsConcat(ItemEntries(items[0], pathname), Render(items[1..], pathname));
      RenderListsEveryItem(items[1..], pathname);
      forall i | 1 <= i < |items| ensures items[1..][i - 1] == items[i] { }
    }
  }

  /** Each button's highlight follows its own rule: the "/" boundary rule at
      depth 0 and exact equality at depth 1. */
  lemma {:induction false} RenderHighlights(items: seq<NavItem>, pathname: string)
    ensures forall e :: e in Render(items, pathname) ==>
      e.depth <= 1 && (e.active <==> if e.depth == 0 then TopActive(pathname, e.url) else SubActive(pathname, e.url))
  {
    if items != [] {
      RenderHighlights(items[1..], pathname);
    }
  }

  /** Rendering a list split in two renders each part in turn. */
  lemma {:induction false} RenderConcat(a: seq<NavItem>, b: seq<NavItem>, pathname: string)
    ensures Render(a + b, pathname) == Render(a, pathname) + Render(b, pathname)
  {
    if a == [] {
      assert a + b == b;
    } else {
      assert (a + b)[0] == a[0];
      assert (a + b)[1..] == a[1..] + b;
      RenderConcat(a[1..], b, pathname);
    }
  }

  /** Every item's buttons sit, in one block, between those of the items
      before it and those of the items after it. */
  lemma RenderAt(items: seq<NavItem>, pathname: string, i: nat)
    requires i < |items|
    ensures Render(items, pathname) ==
      Render(items[..i], pathname) + ItemEntries(items[i], pathname) + Render(items[i + 1..], pathname)
  {
    var rest := [items[i]] + items[i + 1..];
    assert items == items[..i] + rest;
    RenderConcat(items[..i], rest, pathname);
    assert rest[1..] == items[i + 1..];
  }

  /** The buttons of one item: the item first, then one per sub-item. */
  lemma ItemEntriesShape(item: NavItem, pathname: string)
    ensures var e := ItemEntries(item, pathname);
      && e[0] == TopEntry(item, pathname)
      && (item.subItems.None? ==> |e| == 1)
      && (item.subItems.Some? ==>
            var subs := item.subItems.value;
            |e| == 1 + |subs| &&
            forall j :: 0 <= j < |subs| ==>
              e[1 + j] == Entry(subs[j].title, subs[j].url, SubActive(pathname, subs[j].url), 1))
  {
  }

  /** The positions of a block inside a concatenation. */
  lemma BlockAt(pre: seq<Entry>, here: seq<Entry>, post: seq<Entry>)
    ensures var r := pre + here + post;
      |r| == |pre| + |here| + |post| &&
      (forall j :: 0 <= j < |here| ==> r[|pre| + j] == here[j]) &&
      (post != [] ==> r[|pre| + |here|] == post[0])
  {
  }

  /** Each item is followed directly by its sub-items, in their order, and an
      item without sub-items directly by the next item (or nothing). */
  lemma ItemThenItsSubItems(items: seq<NavItem>, pathname: string, i: nat)
    requires i < |items|
    ensures var r := Render(items, pathname);
      var s := |Render(items[..i], pathname)|;
      && s < |r| && r[s] == TopEntry(items[i], pathname)
      && (items[i].subItems.None? ==> s + 1 == |r| || r[s + 1].depth == 0)
      && (items[i].subItems.Some? ==>
            var subs := items[i].subItems.value;
            s + |subs| < |r| &&
            forall j :: 0 <= j < |subs| ==>
              r[s + 1 + j] == Entry(subs[j].title, subs[j].url, SubActive(pathname, subs[j].url), 1))
  {
    RenderAt(items, pathname, i);
    var pre, here, post := Render(items[..i], pathname), ItemEntries(items[i], pathname), Render(items[i + 1..], pathname);
    ItemEntriesShape(items[i], pathname);
    BlockAt(pre, here, post);
    if post != [] {
      assert post[0] == TopEntry(items[i + 1..][0], pathname);
    }
  }

  /** The "/" boundary rule spelled out on characters: the pathname is the
      url, or the url followed by "/" and possibly more. */
  lemma TopActiveIff(pathname: string, url: string)
    ensures TopActive(pathname, url) <==>
      pathname == url ||
      (|pathname| > |url| && pathname[..|url|] == url && pathname[|url|] == '/')
  {
    var u := url + "/";
    if StartsWith(pathname, u) {
      assert pathname[..|url|] == pathname[..|u|][..|url|];
      assert pathname[|url|] == pathname[..|u|][|url|];
    }
    if |pathname| > |url| && pathname[..|url|] == url && pathname[|url|] == '/' {
      assert pathname[..|u|] == pathname[..|url|] + [pathname[|url|]];
    }
  }

  /** The boundary rule is stricter than a bare prefix test ... */
  lemma TopActiveIsPrefix(pathname: string, url: string)
    requires TopActive(pathname, url)
    ensures StartsWith(pathname, url)
  {
    TopActiveIff(pathname, url);
  }

  /** ... and strictly so: a sibling whose name extends the url is not below it. */
  lemma SiblingNotActive()
    ensures StartsWith("/main/sucursalesX", "/main/sucursales")
    ensures !TopActive("/main/sucursalesX", "/main/sucursales")
    ensures TopActive("/main/sucursales/nueva", "/main/sucursales")
  {
    TopActiveIff("/main/sucursalesX", "/main/sucursales");
    TopActiveIff("/main/sucursales/nueva", "/main/sucursales");
  }

  /** On a sub-item's page, its parent is highlighted too when the sub-item's
      url lies below the parent's. */
  lemma SubActiveImpliesParentActive(pathname: string, parent: string, sub: string)
    requires StartsWith(sub, parent + "/") && SubActive(pathname, sub)
    ensures TopActive(pathname, parent)
  {
  }
}
