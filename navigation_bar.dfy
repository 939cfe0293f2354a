/** Which link of the navigation bar is highlighted as the current page. */
module NavigationBar {
  import opened Strings

  /** `isCurrentLink`: the home link "/" is current only on "/" itself; any other link is
      current on every path that starts with its text. */
  predicate IsCurrentLink(link: string, path: string)
  {
    (link == "/" && path == "/") || (link != "/" && StartsWith(path, link))
  }

  /** The home link is current exactly on the home path, even though every path starts
      with "/". */
  lemma HomeOnlyOnHome(path: string)
    ensures IsCurrentLink("/", path) <==> path == "/"
  {
  }

  /** Every link is current on its own path and on every path that extends it, so a link to a
      section stays highlighted on the section's sub-pages. */
  lemma ExtensionActive(link: string, rest: string)
    ensures IsCurrentLink(link, link)
    ensures link != "/" ==> IsCurrentLink(link, link + rest)
  {
    assert (link + rest)[..|link|] == link;
  }

  /** Any other link is current only on paths at least as long that begin with it. */
  lemma ActiveOnlyOnExtensions(link: string, path: string)
    requires link != "/" && IsCurrentLink(link, path)
    ensures exists rest :: path == link + rest
  {
    assert path == link + path[|link|..];
  }

  /** The test is on characters, not on path segments: "/year" is highlighted on "/yearly",
      and an empty link is highlighted on every path. */
  lemma NotSegmentAware(path: string)
    ensures IsCurrentLink("/year", "/yearly")
    ensures IsCurrentLink("", path)
  {
    assert "/yearly"[..5] == "/year";
  }
}
