/**
 * The other copy of the icon heuristic (internal/logo_fetcher.go). It differs from the one in
 * internal/service.go in the child test of findIcons, which is inverted: only children of <head>
 * that are not <link> elements are scanned. Its errors errNot200 and errNoLogo are Non200 and
 * NoLogo.
 */
module LogoFetcher {
  import opened Wrappers
  import opened Text
  import opened Net
  import opened Html
  import opened IconCommon

  /**
   * findIcons as this copy writes it: the first <html> child, its first <head> child, then every
   * child of <head> that is NOT a <link> element, with a non-empty rel and href, into the map, and
   * the best rel of the priority list.
   */
  method FindIcons(doc: Node) returns (icon: string)
    ensures icon == IconOf(doc, false)
  {
    var root := FindChild(doc, "html");
    if root.None? {
      return "";
    }
    var head := FindChild(root.value, "head");
    if head.None? {
      return "";
    }
    var children := head.value.children;
    var links: map<string, string> := map[];
    for i := 0 to |children|
      invariant links == Links(children[..i], false)
    {
      assert children[..i + 1][..i] == children[..i];
      var child := children[i];
      if !(child.kind == ElementNode && child.data == "link") {
        var key, value := "", "";
        for j := 0 to |child.attrs|
          invariant key == LastValue(child.attrs[..j], "rel")
          invariant value == LastValue(child.attrs[..j], "href")
        {
          assert child.attrs[..j + 1][..j] == child.attrs[..j];
          var attr := child.attrs[j];
          if attr.key == "rel" {
            key := attr.val;
          } else if attr.key == "href" {
            value := attr.val;
          }
        }
        assert child.attrs[..|child.attrs|] == child.attrs;
        if key != "" && value != "" {
          links := links[key := value];
        }
      }
    }
    assert children[..|children|] == children;
    for i := 0 to |PriorityList|
      invariant PickFrom(PriorityList[i..], links) == Pick(links)
    {
      var name := PriorityList[i];
      if name in links {
        return links[name];
      }
      assert PriorityList[i..][1..] == PriorityList[i + 1..];
    }
    return "";
  }

  /** mainSrcPageIcon, with the sentinel errNot200 and errNoLogo: fetch the page, check status and parse, find the icon, normalise its href. */
  method MainSrcPageIcon(get: Getter, parse: ParseURL, pageURL: string) returns (r: Result<string, IconError>)
    ensures r == PageIcon(get, parse, pageURL, false)
  {
    var res := get(pageURL);
    if res.RequestFailed? {
      return Err(RequestError);
    }
    if res.status != StatusOK {
      return Err(Non200);
    }
    if res.doc.None? {
      return Err(ParseError);
    }
    var logoURL := FindIcons(res.doc.value);
    if logoURL == "" {
      return Err(NoLogo);
    }
    var u := parse(logoURL);
    if u.Some? && !IsAbs(u.value) && !HasPrefix(logoURL, "/") {
      logoURL := "/" + logoURL;
    }
    return Ok(logoURL);
  }

  /** detectIconURL: the page icon, else the favicon when it answers 200, else "". */
  method DetectIconURL(get: Getter, parse: ParseURL, url: string) returns (r: string)
    ensures r == Detected(get, parse, url, false)
  {
    var u := MainSrcPageIcon(get, parse, url);
    if u.Ok? {
      return u.value;
    }
    var faviconURL := url + "/favicon.ico";
    if Ping(get, faviconURL).None? {
      return faviconURL;
    }
    return "";
  }
  /**
   * The inverted test loses the usual declaration: a page whose only icon is declared in a <link>
   * element gets no icon from the page.
   */
  lemma LinkIconMissed(rel: string, href: string)
    requires rel in PriorityList && href != ""
    ensures IconOf(OneLinkPage(rel, href), false) == ""
  {
    var doc := OneLinkPage(rel, href);
    var root := doc.children[0];
    var head := root.children[0];
    assert ChildNamed(doc.children, "html") == Some(root);
    assert ChildNamed(root.children, "head") == Some(head);
    assert head.children[..0] == [];
    assert Links(head.children, false) == Links(head.children[..0], false);
  }
}
