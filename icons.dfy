/**
 * `getBestIcon` (src/icons.ts) once the page has been fetched and parsed:
 * the choice among the page's icon links, the resolution of a relative
 * `href` against the site's origin, and the `/favicon.ico` fallbacks.
 *
 * `new URL(siteUrl).origin` is the parameter `originOf` (None when the URL
 * does not parse); the fetched page is `page`, None when the fetch or the
 * HTML parse threw.
 */
module Icons {
  import opened Values

  /** The `href` of the first `<link>` with each `rel` the code asks for. */
  datatype IconLinks = IconLinks(
    appleTouch: Option<string>,
    precomposed: Option<string>,
    icon: Option<string>,
    shortcut: Option<string>)

  const Favicon := "/favicon.ico"

  /** The candidates in the order the code tries them. */
  function Candidates(l: IconLinks): seq<Option<string>> {
    [l.appleTouch, l.precomposed, l.icon, l.shortcut]
  }

  /**
   * `appleIcon = apple || precomposed`, taken when truthy; otherwise
   * `icon || shortcut`. An empty `href` counts as missing.
   */
  function ChooseHref(l: IconLinks): (r: Option<string>)
    ensures Truthy(r) <==> Truthy(FirstTruthy(Candidates(l)))
    ensures Truthy(r) ==> r == FirstTruthy(Candidates(l))
  {
    var apple := Or(l.appleTouch, l.precomposed);
    var chosen := if Truthy(apple) then apple else None;
    var chosen := if !Truthy(chosen) then Or(l.icon, l.shortcut) else chosen;
    var c := Candidates(l);
    assert c[1..] == [l.precomposed, l.icon, l.shortcut] && c[2..] == [l.icon, l.shortcut] && c[3..] == [l.shortcut];
    assert FirstTruthy(c[3..]) == Or(l.shortcut, None);
    assert FirstTruthy(c[2..]) == Or(l.icon, FirstTruthy(c[3..]));
    assert FirstTruthy(c[1..]) == Or(l.precomposed, FirstTruthy(c[2..]));
    chosen
  }

  /** The relative-URL rewrite of a chosen `href` against the page's origin. */
  function ResolveHref(origin: string, href: string): (r: string)
    ensures |href| <= |r| && r[|r| - |href|..] == href
    ensures StartsWith(href, "//") ==> r == "https:" + href
    ensures !StartsWith(href, "//") && StartsWith(href, "/") ==> r == origin + href
    ensures !StartsWith(href, "/") && !StartsWith(href, "http") ==> r == origin + "/" + href
    ensures !StartsWith(href, "/") && StartsWith(href, "http") ==> r == href
  {
    if StartsWith(href, "//") then "https:" + href
    else if StartsWith(href, "/") then origin + href
    else if !StartsWith(href, "http") then origin + "/" + href
    else href
  }

  /** Against an http(s) origin every resolved href is absolute. */
  lemma ResolvedIsAbsolute(origin: string, href: string)
    requires StartsWith(origin, "http")
    ensures StartsWith(ResolveHref(origin, href), "http")
  {
    var r := ResolveHref(origin, href);
    if StartsWith(href, "//") {
      assert r[..4] == ("https:" + href)[..4];
    } else if StartsWith(href, "/") || !StartsWith(href, "http") {
      assert r[..4] == origin[..4];
    }
  }

  /** Resolving twice is resolving once, for an http(s) origin. */
  lemma ResolveIdempotent(origin: string, href: string)
    requires StartsWith(origin, "http")
    ensures ResolveHref(origin, ResolveHref(origin, href)) == ResolveHref(origin, href)
  {
    var r := ResolveHref(origin, href);
    ResolvedIsAbsolute(origin, href);
    assert !StartsWith(r, "/") by {
      assert r[0] == 'h';
    }
  }

  /**
   * `getBestIcon(siteUrl)`: None exactly when the site URL does not parse;
   * the root favicon when the page could not be fetched or has no usable
   * icon link; otherwise the chosen link, resolved.
   */
  function BestIcon(siteUrl: string, originOf: string -> Option<string>, page: Option<IconLinks>): (r: Option<string>)
    ensures r.None? <==> originOf(siteUrl).None?
    ensures originOf(siteUrl).Some? && (page.None? || !Truthy(ChooseHref(page.value))) ==>
      r == Some(originOf(siteUrl).value + Favicon)
    ensures originOf(siteUrl).Some? && page.Some? && Truthy(ChooseHref(page.value)) ==>
      r == Some(ResolveHref(originOf(siteUrl).value, ChooseHref(page.value).value))
  {
    match originOf(siteUrl)
    case None => None
    case Some(origin) =>
      match page
      case None => Some(origin + Favicon)
      case Some(links) =>
        var href := ChooseHref(links);
        if Truthy(href) then Some(ResolveHref(origin, href.value)) else Some(origin + Favicon)
  }
}
