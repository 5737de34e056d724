/** The navigation of src/components/admin-sidebar.tsx and
    src/components/recruiter-sidebar.tsx: which item is highlighted for the
    current path.  `usePathname()` may give no path, which is `None` here. */
module Sidebar {
  import opened Text

  datatype NavItem = NavItem(title: string, href: string)

  const ADMIN_NAV_ITEMS: seq<NavItem> := [
    NavItem("Dashboard", "/admin/dashboard"),
    NavItem("Tests", "/admin/tests"),
    NavItem("Questions", "/admin/questions"),
    NavItem("Recruiters", "/admin/recruiters"),
    NavItem("Submissions", "/admin/submissions"),
    NavItem("Violations", "/admin/violations")]

  const RECRUITER_NAV_ITEMS: seq<NavItem> := [
    NavItem("Dashboard", "/recruiter/dashboard"),
    NavItem("Tests", "/recruiter/tests"),
    NavItem("Test Links", "/recruiter/links"),
    NavItem("Analytics", "/recruiter/analytics")]

  /** `pathname === href || pathname?.startsWith(href + '/')`. */
  predicate IsActive(pathname: Option<string>, href: string)
    ensures pathname == Some(href) ==> IsActive(pathname, href)
    ensures IsActive(pathname, href) ==> pathname.Some? && StartsWith(pathname.value, href)
  {
    pathname == Some(href) || (pathname.Some? && StartsWith(pathname.value, href + "/"))
  }

  /** The flags the sidebar renders.  An item is highlighted on its own page
      and on every page below it, never without a path, and never for a path
      that only shares a prefix with it (see `SiblingPrefixIsNotActive`). */
  function ActiveFlags(items: seq<NavItem>, pathname: Option<string>): (flags: seq<bool>)
    ensures |flags| == |items|
    ensures pathname.None? ==> forall i :: 0 <= i < |flags| ==> !flags[i]
    ensures forall i :: 0 <= i < |flags| && pathname == Some(items[i].href) ==> flags[i]
    ensures forall i :: 0 <= i < |flags| && flags[i] ==> pathname.Some? && StartsWith(pathname.value, items[i].href)
  {
    seq(|items|, i requires 0 <= i < |items| => IsActive(pathname, items[i].href))
  }

  /** '/admin/tests-x' shares a prefix with '/admin/tests' but lies outside it;
      '/admin/tests/new' lies inside. */
  lemma SiblingPrefixIsNotActive()
    ensures !IsActive(Some("/admin/tests-x"), "/admin/tests")
    ensures IsActive(Some("/admin/tests/new"), "/admin/tests")
  {
    var outside := "/admin/tests-x";
    assert outside[12] == '-';
    var inside := "/admin/tests/new";
    assert inside[..13] == "/admin/tests" + "/";
  }

  /** Two active items have nested hrefs: one is the other followed by '/'
      and more. */
  lemma ActiveHrefsNest(pathname: Option<string>, a: string, b: string)
    requires IsActive(pathname, a) && IsActive(pathname, b) && a != b
    ensures StartsWith(a, b + "/") || StartsWith(b, a + "/")
  {
    var p := pathname.value;
    assert (a + "/")[..|a|] == a && (b + "/")[..|b|] == b;
    if p == a {
      assert StartsWith(a, b + "/");
    } else if p == b {
      assert StartsWith(b, a + "/");
    } else if |a| < |b| {
      assert (b + "/")[..|a| + 1] == p[..|a| + 1] == a + "/";
      assert b[..|a| + 1] == (b + "/")[..|a| + 1];
    } else if |b| < |a| {
      assert (a + "/")[..|b| + 1] == p[..|b| + 1] == b + "/";
      assert a[..|b| + 1] == (a + "/")[..|b| + 1];
    } else {
      assert false;
    }
  }

  /** A menu whose hrefs are distinct and none nested in another. */
  predicate Unnested(items: seq<NavItem>) {
    forall i, j :: 0 <= i < |items| && 0 <= j < |items| && i != j ==>
      items[i].href != items[j].href && !StartsWith(items[j].href, items[i].href + "/")
  }

  /** In a menu without nested hrefs at most one item is highlighted. */
  lemma AtMostOneActive(items: seq<NavItem>, pathname: Option<string>, i: nat, j: nat)
    requires Unnested(items)
    requires i < |items| && j < |items| && i != j
    ensures !(ActiveFlags(items, pathname)[i] && ActiveFlags(items, pathname)[j])
  {
    if IsActive(pathname, items[i].href) && IsActive(pathname, items[j].href) {
      ActiveHrefsNest(pathname, items[i].href, items[j].href);
    }
  }

  /** Hrefs of the form `area + name` with names without '/' are never
      nested: the character after the shorter href is '/' in the nested one
      but not in any name. */
  lemma SingleSegmentsDoNotNest(area: string, x: string, y: string)
    requires '/' !in x && '/' !in y && x != y
    ensures area + x != area + y
    ensures !StartsWith(area + y, area + x + "/")
  {
    assert (area + x)[|area|..] == x;
    assert (area + y)[|area|..] == y;
    if |area + x + "/"| <= |area + y| {
      assert (area + y)[|area| + |x|] == y[|x|];
      assert (area + x + "/")[|area| + |x|] == '/';
    }
  }

  /** A menu of single path segments below one area, told apart by their
      first letters. */
  predicate SegmentsBelow(items: seq<NavItem>, area: string, names: seq<string>) {
    HrefsBelow(items, area, names) && SingleSegments(names)
  }

  predicate HrefsBelow(items: seq<NavItem>, area: string, names: seq<string>) {
    |items| == |names| && forall i :: 0 <= i < |items| ==> items[i].href == area + names[i]
  }

  predicate SingleSegments(names: seq<string>) {
    (forall i :: 0 <= i < |names| ==> '/' !in names[i] && |names[i]| > 0)
    && (forall i, j :: 0 <= i < j < |names| ==> names[i][0] != names[j][0])
  }

  lemma SegmentsDoNotNest(items: seq<NavItem>, area: string, names: seq<string>)
    requires SegmentsBelow(items, area, names)
    ensures Unnested(items)
  {
    forall i, j | 0 <= i < |items| && 0 <= j < |items| && i != j
      ensures items[i].href != items[j].href && !StartsWith(items[j].href, items[i].href + "/")
    {
      if i < j {
        assert names[i][0] != names[j][0];
      } else {
        assert names[j][0] != names[i][0];
      }
      SingleSegmentsDoNotNest(area, names[i], names[j]);
    }
  }

  const ADMIN_NAMES: seq<string> := ["dashboard", "tests", "questions", "recruiters", "submissions", "violations"]
  const RECRUITER_NAMES: seq<string> := ["dashboard", "tests", "links", "analytics"]

  /** The admin menu is made of single segments below /admin/. */
  lemma AdminSegments()
    ensures SegmentsBelow(ADMIN_NAV_ITEMS, "/admin/", ADMIN_NAMES)
  {
    AdminHrefs();
    AdminNames();
  }

  lemma AdminHrefs()
    ensures HrefsBelow(ADMIN_NAV_ITEMS, "/admin/", ADMIN_NAMES)
  {
    forall i | 0 <= i < |ADMIN_NAV_ITEMS| ensures ADMIN_NAV_ITEMS[i].href == "/admin/" + ADMIN_NAMES[i] {
      if i < 3 {
        AdminHrefsBefore(i);
      } else {
        AdminHrefsFrom(i);
      }
    }
  }

  lemma AdminHrefsBefore(i: nat)
    requires i < 3
    ensures ADMIN_NAV_ITEMS[i].href == "/admin/" + ADMIN_NAMES[i]
  {
    var names := ADMIN_NAMES;
    assert ADMIN_NAV_ITEMS[0].href == "/admin/" + names[0];
    assert ADMIN_NAV_ITEMS[1].href == "/admin/" + names[1];
    assert ADMIN_NAV_ITEMS[2].href == "/admin/" + names[2];
  }

  lemma AdminHrefsFrom(i: nat)
    requires 3 <= i < 6
    ensures ADMIN_NAV_ITEMS[i].href == "/admin/" + ADMIN_NAMES[i]
  {
    var names := ADMIN_NAMES;
    assert ADMIN_NAV_ITEMS[3].href == "/admin/" + names[3];
    assert ADMIN_NAV_ITEMS[4].href == "/admin/" + names[4];
    assert ADMIN_NAV_ITEMS[5].href == "/admin/" + names[5];
  }

  lemma AdminNames()
    ensures SingleSegments(ADMIN_NAMES)
  {
    var names := ADMIN_NAMES;
    assert names[0][0] == 'd' && names[1][0] == 't' && names[2][0] == 'q';
    assert names[3][0] == 'r' && names[4][0] == 's' && names[5][0] == 'v';
  }

  /** The admin menu: at most one of its six items is highlighted. */
  lemma AdminMenuHighlightsAtMostOne(pathname: Option<string>, i: nat, j: nat)
    requires i < |ADMIN_NAV_ITEMS| && j < |ADMIN_NAV_ITEMS| && i != j
    ensures !(ActiveFlags(ADMIN_NAV_ITEMS, pathname)[i] && ActiveFlags(ADMIN_NAV_ITEMS, pathname)[j])
  {
    AdminSegments();
    SegmentsDoNotNest(ADMIN_NAV_ITEMS, "/admin/", ADMIN_NAMES);
    AtMostOneActive(ADMIN_NAV_ITEMS, pathname, i, j);
  }

  /** The recruiter menu is made of single segments below /recruiter/. */
  lemma RecruiterSegments()
    ensures SegmentsBelow(RECRUITER_NAV_ITEMS, "/recruiter/", RECRUITER_NAMES)
  {
    RecruiterHrefs();
    RecruiterNames();
  }

  lemma RecruiterHrefs()
    ensures HrefsBelow(RECRUITER_NAV_ITEMS, "/recruiter/", RECRUITER_NAMES)
  {
    var names := RECRUITER_NAMES;
    assert RECRUITER_NAV_ITEMS[0].href == "/recruiter/" + names[0];
    assert RECRUITER_NAV_ITEMS[1].href == "/recruiter/" + names[1];
    assert RECRUITER_NAV_ITEMS[2].href == "/recruiter/" + names[2];
    assert RECRUITER_NAV_ITEMS[3].href == "/recruiter/" + names[3];
  }

  lemma RecruiterNames()
    ensures SingleSegments(RECRUITER_NAMES)
  {
    var names := RECRUITER_NAMES;
    assert names[0][0] == 'd' && names[1][0] == 't' && names[2][0] == 'l' && names[3][0] == 'a';
  }

  /** The recruiter menu: at most one of its four items is highlighted. */
  lemma RecruiterMenuHighlightsAtMostOne(pathname: Option<string>, i: nat, j: nat)
    requires i < |RECRUITER_NAV_ITEMS| && j < |RECRUITER_NAV_ITEMS| && i != j
    ensures !(ActiveFlags(RECRUITER_NAV_ITEMS, pathname)[i] && ActiveFlags(RECRUITER_NAV_ITEMS, pathname)[j])
  {
    RecruiterSegments();
    SegmentsDoNotNest(RECRUITER_NAV_ITEMS, "/recruiter/", RECRUITER_NAMES);
    AtMostOneActive(RECRUITER_NAV_ITEMS, pathname, i, j);
  }

  /** On the new-test page the recruiter menu highlights "Tests" and nothing
      else. */
  lemma NewTestPageHighlightsTests(k: nat)
    requires k < |RECRUITER_NAV_ITEMS|
    ensures ActiveFlags(RECRUITER_NAV_ITEMS, Some("/recruiter/tests/new"))[k]
      <==> RECRUITER_NAV_ITEMS[k].title == "Tests"
  {
    var p := "/recruiter/tests/new";
    assert p[..17] == "/recruiter/tests" + "/";
    if k != 1 {
      RecruiterMenuHighlightsAtMostOne(Some(p), 1, k);
    }
  }
}
