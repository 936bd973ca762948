/** The sidebar: the menu item made active by the current path, and the
    collapse toggle. */
module Sidebar {
  import opened Wrappers
  import opened Strings

  /** The keys of the six menu items, in menu order. */
  const MenuKeys: seq<string> := ["dashboard", "posts", "editor", "comments", "users", "settings"]

  /** `path.split('/')[1]`, or `None` when the path has no '/'. */
  function FirstSegment(path: string): Option<string> {
    var parts := Split(path, '/');
    if |parts| >= 2 then Some(parts[1]) else None
  }

  /** The active item after the path changes: a missing or empty path counts
      as '/', which is the dashboard; otherwise the first segment becomes
      active when it is a menu key, and the active item is kept when not. */
  function Active(pathname: Option<string>, current: string): (r: string)
    ensures Or(pathname, "/") == "/" ==> r == "dashboard"
    ensures Or(pathname, "/") != "/" ==>
      var seg := FirstSegment(Or(pathname, "/"));
      (seg.Some? && seg.value in MenuKeys ==> r == seg.value) &&
      (!(seg.Some? && seg.value in MenuKeys) ==> r == current)
    ensures r in MenuKeys || r == current
  {
    var path := Or(pathname, "/");
    if path == "/" then "dashboard"
    else
      match FirstSegment(path)
      case Some(seg) => if seg in MenuKeys then seg else current
      case None => current
  }

  /** The first segment of `/seg` and of `/seg/rest` is `seg`. */
  lemma FirstSegmentOf(seg: string, rest: Option<string>)
    requires '/' !in seg
    ensures var path := if rest.Some? then "/" + seg + "/" + rest.value else "/" + seg;
      FirstSegment(path) == Some(seg)
  {
    if rest.Some? {
      SplitPrefixed(seg, rest.value, '/');
      assert "/" + seg + "/" + rest.value == ['/'] + seg + ['/'] + rest.value;
    } else {
      assert NoSep(seg, Char('/'));
      SplitOnNone(seg, Char('/'));
      assert "/" + seg == [] + ['/'] + seg;
      SplitOnCons([], '/', seg, Char('/'));
    }
  }

  /** A path below a menu section makes that section active, whatever was
      active before; a path below a section that is not in the menu (and is
      not the root) leaves the active item as it was. */
  lemma SectionPath(seg: string, rest: Option<string>, current: string)
    requires '/' !in seg
    ensures var path := if rest.Some? then "/" + seg + "/" + rest.value else "/" + seg;
      (seg in MenuKeys ==> Active(Some(path), current) == seg) &&
      (seg !in MenuKeys && path != "/" ==> Active(Some(path), current) == current)
  {
    FirstSegmentOf(seg, rest);
  }

  /** '/posts/1' makes 'posts' active. */
  lemma PostsExample(current: string)
    ensures Active(Some("/posts/1"), current) == "posts"
  {
    SectionPath("posts", Some("1"), current);
    assert "/" + "posts" + "/" + "1" == "/posts/1";
  }

  /** '/visitors' is not a menu section, so the active item stays. */
  lemma VisitorsExample(current: string)
    ensures Active(Some("/visitors"), current) == current
  {
    var seg := "visitors";
    assert seg[0] == 'v';
    assert seg !in MenuKeys;
    SectionPath(seg, None, current);
    assert "/" + seg == "/visitors";
  }

  class Menu {
    var collapsed: bool
    var activeItem: string

    /** The active item is always one of the menu keys. */
    predicate Valid()
      reads this
    {
      activeItem in MenuKeys
    }

    constructor ()
      ensures !collapsed && activeItem == "dashboard" && Valid()
    {
      collapsed := false;
      activeItem := "dashboard";
    }

    /** `toggleCollapsed`. */
    method Toggle()
      modifies this
      ensures collapsed == !old(collapsed) && activeItem == old(activeItem)
    {
      collapsed := !collapsed;
    }

    /** The effect that runs when the path changes. */
    method PathChanged(pathname: Option<string>)
      modifies this
      ensures activeItem == Active(pathname, old(activeItem)) && collapsed == old(collapsed)
      ensures old(Valid()) ==> Valid()
    {
      var path := if Truthy(pathname) then pathname.value else "/";
      if path == "/" {
        activeItem := "dashboard";
      } else {
        var parts := Split(path, '/');
        var firstSegment := if |parts| >= 2 then Some(parts[1]) else None;
        if firstSegment.Some? && firstSegment.value in MenuKeys {
          activeItem := firstSegment.value;
        }
      }
    }
  }
}
