/**
 * The navigation bar of the header (components/layout/Header.tsx): which of
 * its links is highlighted for the current path.
 */
module Header {
  import opened Wrappers
  import opened JsText

  /** The links of the bar, in order. */
  const NavHrefs: seq<string> := ["/", "/plants", "/gardens", "/chat", "/activities", "/sites"]
  const NavLabels: seq<string> := ["Home", "Plants", "Gardens", "Chat", "Activities", "Sites"]

  /**
   * A link is active when the path is exactly its target, or, for every link
   * but the home link, when the path merely starts with its target (no `/`
   * boundary is required). Without a path nothing is active.
   */
  predicate IsActive(pathname: Option<string>, href: string)
    ensures pathname == Some(href) ==> IsActive(pathname, href)
    ensures IsActive(pathname, href) ==> pathname.Some? && StartsWith(pathname.value, href)
  {
    pathname == Some(href) || (href != "/" && pathname.Some? && StartsWith(pathname.value, href))
  }

  /** The home link is active for `/` and nothing else. */
  lemma RootOnlyExact(pathname: Option<string>)
    ensures IsActive(pathname, "/") <==> pathname == Some("/")
  {
  }

  /** Every other link is active for any path extending its target, `/plantsx` for `/plants` included. */
  lemma PrefixActivates(href: string, rest: string)
    requires href != "/"
    ensures IsActive(Some(href + rest), href)
  {
    assert (href + rest)[..|href|] == href;
  }

  lemma NoPathNoneActive(href: string)
    ensures !IsActive(None, href)
  {
  }

  /** Two prefixes of the same text: the shorter is a prefix of the longer. */
  lemma PrefixesNest(p: string, a: string, b: string)
    requires StartsWith(p, a) && StartsWith(p, b) && |a| <= |b|
    ensures StartsWith(b, a)
  {
    assert b[..|a|] == p[..|b|][..|a|] == p[..|a|];
  }

  /** No target of the bar starts with another one. */
  lemma HrefsUnnested()
    ensures forall i, j :: 0 <= i < |NavHrefs| && 0 <= j < |NavHrefs| && i != j && 1 <= i && 1 <= j ==>
      !StartsWith(NavHrefs[j], NavHrefs[i])
  {
    forall i, j | 0 <= i < |NavHrefs| && 0 <= j < |NavHrefs| && i != j && 1 <= i && 1 <= j
      ensures !StartsWith(NavHrefs[j], NavHrefs[i])
    {
      var a, b := NavHrefs[i], NavHrefs[j];
      if |a| <= |b| {
        assert a[1] != b[1] || a[2] != b[2] || a[3] != b[3] || a[4] != b[4];
      }
    }
  }

  /** Whatever the path, at most one link of the bar is active. */
  lemma AtMostOneActive(pathname: Option<string>, i: nat, j: nat)
    requires i < |NavHrefs| && j < |NavHrefs| && i != j
    ensures !(IsActive(pathname, NavHrefs[i]) && IsActive(pathname, NavHrefs[j]))
  {
    if IsActive(pathname, NavHrefs[i]) && IsActive(pathname, NavHrefs[j]) {
      HrefsUnnested();
      var a, b := NavHrefs[i], NavHrefs[j];
      var p := pathname.value;
      if i == 0 || j == 0 {
      } else if |a| <= |b| {
        assert StartsWith(p, a) && StartsWith(p, b);
        PrefixesNest(p, a, b);
      } else {
        assert StartsWith(p, a) && StartsWith(p, b);
        PrefixesNest(p, b, a);
      }
    }
  }

  /** A page below `/sites`, such as `/sites/add`, highlights the Sites link alone. */
  lemma SitesPageActivatesSites()
    ensures IsActive(Some("/sites/add"), "/sites")
    ensures forall i :: 0 <= i < |NavHrefs| - 1 ==> !IsActive(Some("/sites/add"), NavHrefs[i])
  {
    PrefixActivates("/sites", "/add");
    assert "/sites" + "/add" == "/sites/add";
    forall i | 0 <= i < |NavHrefs| - 1
      ensures !IsActive(Some("/sites/add"), NavHrefs[i])
    {
      AtMostOneActive(Some("/sites/add"), i, 5);
    }
  }
}
