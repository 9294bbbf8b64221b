/**
 * The dashboard's service view and its copy of the icon heuristic (internal/service.go): the
 * displayed label and logo of an ingress, and the <head> scan over <link> elements.
 */
module ServiceIcons {
  import opened Wrappers
  import opened Text
  import opened Net
  import opened Html
  import opened IconCommon

  /** An ingress as the page shows it. */
  datatype Ingress = Ingress(id: string, uid: string, title: string, name: string, namespace: string,
                             description: string, urls: seq<string>, logoURL: string)

  /** Label: the title when there is one, else the name. */
  function Label(ing: Ingress): (r: string)
    ensures ing.title != "" ==> r == ing.title
    ensures ing.title == "" ==> r == ing.name
  {
    if ing.title != "" then ing.title else ing.name
  }

  /**
   * Logo: no logo stays empty; a root-relative logo is joined to the first URL with that URL's
   * trailing slashes dropped, so the two never meet in a doubled slash; any other logo, or a
   * root-relative one without URLs, is kept as it is.
   */
  function Logo(ing: Ingress): (r: string)
    ensures ing.logoURL == "" ==> r == ""
    ensures HasSuffix(r, ing.logoURL)
    ensures HasPrefix(ing.logoURL, "/") && ing.urls != [] ==>
              var base := r[..|r| - |ing.logoURL|];
              && HasPrefix(ing.urls[0], base)
              && (base == [] || base[|base| - 1] != '/')
              && (forall i :: |base| <= i < |ing.urls[0]| ==> ing.urls[0][i] == '/')
    ensures !(HasPrefix(ing.logoURL, "/") && ing.urls != []) ==> r == ing.logoURL
  {
    if ing.logoURL == "" then ""
    else if HasPrefix(ing.logoURL, "/") && ing.urls != [] then
      var base := TrimRightSlash(ing.urls[0]);
      var r := base + ing.logoURL;
      assert r[..|r| - |ing.logoURL|] == base;
      assert r[|r| - |ing.logoURL|..] == ing.logoURL;
      r
    else ing.logoURL
  }

  /**
   * findIcons: the first <html> child, its first <head> child, then every <link> child of <head>
   * with a non-empty rel and href into the map, and the best rel of the priority list.
   */
  method FindIcons(doc: Node) returns (icon: string)
    ensures icon == IconOf(doc, true)
  {
    var root := FindChild(doc, "html");
    if root.None? {
      return "";
    }
    var head := FindChild(root.value, "head");
    if head.None? {
      return "";
    }
    var children := head.value.children;
    var links: map<string, string> := map[];
    for i := 0 to |children|
      invariant links == Links(children[..i], true)
    {
      assert children[..i + 1][..i] == children[..i];
      var child := children[i];
      if child.kind == ElementNode && child.data == "link" {
        var key, value := "", "";
        for j := 0 to |child.attrs|
          invariant key == LastValue(child.attrs[..j], "rel")
          invariant value == LastValue(child.attrs[..j], "href")
        {
          assert child.attrs[..j + 1][..j] == child.attrs[..j];
          var attr := child.attrs[j];
          if attr.key == "rel" {
            key := attr.val;
          } else if attr.key == "href" {
            value := attr.val;
          }
        }
        assert child.attrs[..|child.attrs|] == child.attrs;
        if key != "" && value != "" {
          links := links[key := value];
        }
      }
    }
    assert children[..|children|] == children;
    for i := 0 to |PriorityList|
      invariant PickFrom(PriorityList[i..], links) == Pick(links)
    {
      var name := PriorityList[i];
      if name in links {
        return links[name];
      }
      assert PriorityList[i..][1..] == PriorityList[i + 1..];
    }
    return "";
  }

  /** mainSrcPageIcon: fetch the page, check status and parse, find the icon, normalise its href. */
  method MainSrcPageIcon(get: Getter, parse: ParseURL, pageURL: string) returns (r: Result<string, IconError>)
    ensures r == PageIcon(get, parse, pageURL, true)
  {
    var res := get(pageURL);
    if res.RequestFailed? {
      return Err(RequestError);
    }
    if res.status != StatusOK {
      return Err(Non200);
    }
    if res.doc.None? {
      return Err(ParseError);
    }
    var logoURL := FindIcons(res.doc.value);
    if logoURL == "" {
      return Err(NoLogo);
    }
    var u := parse(logoURL);
    if u.Some? && !IsAbs(u.value) && !HasPrefix(logoURL, "/") {
      logoURL := "/" + logoURL;
    }
    return Ok(logoURL);
  }

  /** detectIconURL: the page icon, else the favicon when it answers 200, else "". */
  method DetectIconURL(get: Getter, parse: ParseURL, url: string) returns (r: string)
    ensures r == Detected(get, parse, url, true)
  {
    var u := MainSrcPageIcon(get, parse, url);
    if u.Ok? {
      return u.value;
    }
    var faviconURL := url + "/favicon.ico";
    if Ping(get, faviconURL).None? {
      return faviconURL;
    }
    return "";
  }
  /** A page that declares its icon in a <link> element gets that icon. */
  lemma LinkIconFound(rel: string, href: string)
    requires rel in PriorityList && href != ""
    ensures IconOf(OneLinkPage(rel, href), true) == href
  {
    var doc := OneLinkPage(rel, href);
    var root := doc.children[0];
    var head := root.children[0];
    assert ChildNamed(doc.children, "html") == Some(root);
    assert ChildNamed(root.children, "head") == Some(head);
    assert head.children[..0] == [];
    var link := head.children[0];
    assert "href" != "rel";
    LastValueWins(link.attrs, "rel", 0);
    LastValueWins(link.attrs, "href", 1);
    assert Links(head.children, true) == Links(head.children[..0], true)[rel := href];
    PickPriority(map[rel := href]);
  }
}
