/**
 * What the two copies of the icon heuristic (internal/service.go and internal/logo_fetcher.go)
 * share: the HTTP fetch oracle, the error kinds, the rel priority list and the rule that makes a
 * relative href root-relative.
 */
module IconCommon {
  import opened Wrappers
  import opened Text
  import opened Net
  import opened Html

  /** http.StatusOK */
  const StatusOK := 200

  /**
   * One GET request: it fails (bad URL or transport error), or it yields a status code and the
   * result of html.Parse on the body (None when the body does not parse).
   */
  datatype Fetch = RequestFailed | Fetched(status: int, doc: Option<Node>)

  /** The HTTP client, given the URL it requests. */
  type Getter = string -> Fetch

  /** Why no icon came from the page: the request, a status other than 200, the parser, no link. */
  datatype IconError = RequestError | Non200 | ParseError | NoLogo

  /** The rel values that name an icon, best first. */
  const PriorityList: seq<string> := ["apple-touch-icon", "shortcut icon", "icon", "alternate icon"]

  /** The href of the first name present in the links, or "" when none is. */
  function PickFrom(names: seq<string>, links: map<string, string>): (r: string)
    ensures (forall j :: 0 <= j < |names| ==> names[j] !in links) ==> r == ""
    ensures forall i :: 0 <= i < |names| && names[i] in links && (forall j :: 0 <= j < i ==> names[j] !in links) ==>
              r == links[names[i]]
  {
    if names == [] then ""
    else if names[0] in links then links[names[0]]
    else PickFrom(names[1..], links)
  }

  /** The icon the priority loop of findIcons returns for the collected links. */
  function Pick(links: map<string, string>): string {
    PickFrom(PriorityList, links)
  }

  /**
   * The highest-priority rel present decides, wherever it stood in the document; links under
   * other rel values never matter.
   */
  lemma PickPriority(links: map<string, string>)
    ensures "apple-touch-icon" in links ==> Pick(links) == links["apple-touch-icon"]
    ensures "apple-touch-icon" !in links && "shortcut icon" in links ==> Pick(links) == links["shortcut icon"]
    ensures "apple-touch-icon" !in links && "shortcut icon" !in links && "icon" in links ==> Pick(links) == links["icon"]
    ensures "apple-touch-icon" !in links && "shortcut icon" !in links && "icon" !in links && "alternate icon" in links ==>
              Pick(links) == links["alternate icon"]
    ensures (forall k :: k in links ==> k !in PriorityList) ==> Pick(links) == ""
  {
    assert PriorityList[0] == "apple-touch-icon" && PriorityList[1] == "shortcut icon";
    assert PriorityList[2] == "icon" && PriorityList[3] == "alternate icon";
  }

  /**
   * The href mainSrcPageIcon returns: one that parses as a URL without a scheme and does not start
   * with "/" gets a "/" in front; anything else is returned as it is.
   */
  function NormalizeHref(parse: ParseURL, href: string): (r: string)
    ensures r == href || r == "/" + href
    ensures r == "/" + href <==> parse(href).Some? && !IsAbs(parse(href).value) && !HasPrefix(href, "/")
  {
    match parse(href)
    case Some(u) => if !IsAbs(u) && !HasPrefix(href, "/") then "/" + href else href
    case None => href
  }

  /** Normalising twice changes nothing more, whatever the parser says about the new text. */
  lemma NormalizeIdempotent(parse: ParseURL, href: string)
    ensures NormalizeHref(parse, NormalizeHref(parse, href)) == NormalizeHref(parse, href)
  {
    var r := NormalizeHref(parse, href);
    if r != href {
      assert r[..1] == "/";
    }
  }

  /** The fallback detectIconURL tries: the conventional favicon under the service URL. */
  function FaviconURL(url: string): (r: string)
    ensures HasPrefix(r, url) && HasSuffix(r, "/favicon.ico")
    ensures |r| == |url| + |"/favicon.ico"|
    ensures r[..|url|] == url && r[|url|..] == "/favicon.ico"
  {
    url + "/favicon.ico"
  }

  // ---- the links map findIcons collects from the children of <head> ----

  /** The rel a child leaves after the attribute loop. */
  function Rel(c: Node): string {
    LastValue(c.attrs, "rel")
  }

  /** The href a child leaves after the attribute loop. */
  function Href(c: Node): string {
    LastValue(c.attrs, "href")
  }

  /**
   * A child that adds an entry to the links map: it passes the child test (a <link> element when
   * wantLink holds, anything but a <link> element otherwise) and has a non-empty rel and href.
   */
  predicate Contributes(c: Node, wantLink: bool) {
    IsElement(c, "link") == wantLink && Rel(c) != "" && Href(c) != ""
  }

  /** The links map after the loop over the children, in document order. */
  function Links(children: seq<Node>, wantLink: bool): (m: map<string, string>)
    ensures forall k :: k in m ==> k != "" && m[k] != ""
  {
    if children == [] then map[]
    else
      var m := Links(children[..|children| - 1], wantLink);
      var c := children[|children| - 1];
      if Contributes(c, wantLink) then m[Rel(c) := Href(c)] else m
  }

  /** A rel no contributing child carries is not in the map. */
  lemma {:induction false} LinksAbsent(children: seq<Node>, wantLink: bool, key: string)
    requires forall j :: 0 <= j < |children| ==> !(Contributes(children[j], wantLink) && Rel(children[j]) == key)
    ensures key !in Links(children, wantLink)
  {
    if children != [] {
      var n := |children| - 1;
      assert forall j :: 0 <= j < n ==> children[..n][j] == children[j];
      LinksAbsent(children[..n], wantLink, key);
    }
  }

  /** Of the contributing children with the same rel, the last one's href is kept. */
  lemma {:induction false} LinksLastWins(children: seq<Node>, wantLink: bool, k: nat)
    requires k < |children| && Contributes(children[k], wantLink)
    requires forall j :: k < j < |children| ==> !(Contributes(children[j], wantLink) && Rel(children[j]) == Rel(children[k]))
    ensures Rel(children[k]) in Links(children, wantLink)
    ensures Links(children, wantLink)[Rel(children[k])] == Href(children[k])
  {
    var n := |children| - 1;
    if k < n {
      assert forall j :: k <= j < n ==> children[..n][j] == children[j];
      LinksLastWins(children[..n], wantLink, k);
    }
  }

  /** A child that fails the child test adds nothing, wherever it stands. */
  lemma {:induction false} SkippedChild(a: seq<Node>, c: Node, b: seq<Node>, wantLink: bool)
    requires IsElement(c, "link") != wantLink
    ensures Links(a + [c] + b, wantLink) == Links(a + b, wantLink)
    decreases |b|
  {
    if b == [] {
      assert a + [c] + b == a + [c];
      assert (a + [c])[..|a|] == a;
      assert a + b == a;
    } else {
      var n := |b| - 1;
      assert (a + [c] + b)[..|a| + 1 + n] == a + [c] + b[..n];
      assert (a + b)[..|a| + n] == a + b[..n];
      assert (a + [c] + b)[|a| + 1 + n] == b[n] == (a + b)[|a| + n];
      SkippedChild(a, c, b[..n], wantLink);
    }
  }

  // ---- the page heuristic as functions of the oracles ----

  /**
   * What findIcons returns for a parsed document: nothing without an <html> child of the document
   * or a <head> child of it, otherwise the priority pick from the links under <head>.
   */
  function IconOf(doc: Node, wantLink: bool): string {
    match ChildNamed(doc.children, "html")
    case None => ""
    case Some(root) =>
      match ChildNamed(root.children, "head")
      case None => ""
      case Some(head) => Pick(Links(head.children, wantLink))
  }

  /** Only the first <html> child and its first <head> child are looked at; without them, no icon. */
  lemma IconOfNeedsHead(doc: Node, wantLink: bool)
    ensures (forall k :: 0 <= k < |doc.children| ==> !IsElement(doc.children[k], "html")) ==> IconOf(doc, wantLink) == ""
    ensures forall k :: 0 <= k < |doc.children| && IsElement(doc.children[k], "html") &&
                        (forall j :: 0 <= j < k ==> !IsElement(doc.children[j], "html")) &&
                        (forall h :: 0 <= h < |doc.children[k].children| ==> !IsElement(doc.children[k].children[h], "head")) ==>
              IconOf(doc, wantLink) == ""
  {
    var i := ChildIndex(doc.children, "html");
    forall k | 0 <= k < |doc.children| && IsElement(doc.children[k], "html") &&
               (forall j :: 0 <= j < k ==> !IsElement(doc.children[j], "html"))
      ensures i == k
    {
    }
  }

  /**
   * What mainSrcPageIcon returns: the request, status and parse errors in that order, NoLogo when
   * the document names no icon, otherwise the normalised href.
   */
  function PageIcon(get: Getter, parse: ParseURL, pageURL: string, wantLink: bool): (r: Result<string, IconError>)
    ensures r == Err(RequestError) <==> get(pageURL).RequestFailed?
    ensures r == Err(Non200) <==> get(pageURL).Fetched? && get(pageURL).status != StatusOK
    ensures r == Err(ParseError) <==> get(pageURL).Fetched? && get(pageURL).status == StatusOK && get(pageURL).doc.None?
    ensures r == Err(NoLogo) <==>
              get(pageURL).Fetched? && get(pageURL).status == StatusOK && get(pageURL).doc.Some? &&
              IconOf(get(pageURL).doc.value, wantLink) == ""
    ensures r.Ok? ==> r.value != "" && HasSuffix(r.value, IconOf(get(pageURL).doc.value, wantLink))
    ensures r.Ok? ==> r.value == NormalizeHref(parse, IconOf(get(pageURL).doc.value, wantLink))
  {
    match get(pageURL)
    case RequestFailed => Err(RequestError)
    case Fetched(status, doc) =>
      if status != StatusOK then Err(Non200)
      else if doc.None? then Err(ParseError)
      else
        var logo := IconOf(doc.value, wantLink);
        if logo == "" then Err(NoLogo)
        else
          var r := NormalizeHref(parse, logo);
          assert r[|r| - |logo|..] == logo;
          Ok(r)
  }

  /** pingURL: no error exactly when the request succeeds with status 200. */
  function Ping(get: Getter, url: string): (r: Option<IconError>)
    ensures r.None? <==> get(url).Fetched? && get(url).status == StatusOK
    ensures r == Some(RequestError) <==> get(url).RequestFailed?
    ensures r == Some(Non200) <==> get(url).Fetched? && get(url).status != StatusOK
  {
    match get(url)
    case RequestFailed => Some(RequestError)
    case Fetched(status, _) => if status != StatusOK then Some(Non200) else None
  }

  /**
   * What detectIconURL returns: a page icon always wins; the favicon only when the page gave none
   * and the favicon answers 200; and "" exactly when both fail.
   */
  function Detected(get: Getter, parse: ParseURL, url: string, wantLink: bool): (r: string)
    ensures PageIcon(get, parse, url, wantLink).Ok? ==> r == PageIcon(get, parse, url, wantLink).value
    ensures PageIcon(get, parse, url, wantLink).Err? && r != "" ==>
              r == FaviconURL(url) && get(FaviconURL(url)).Fetched? && get(FaviconURL(url)).status == StatusOK
    ensures r == "" <==> PageIcon(get, parse, url, wantLink).Err? && Ping(get, FaviconURL(url)).Some?
  {
    var page := PageIcon(get, parse, url, wantLink);
    if page.Ok? then page.value
    else if Ping(get, FaviconURL(url)).None? then FaviconURL(url)
    else ""
  }

  /** A page whose <html><head> holds a single <link> element with the given rel and href. */
  function OneLinkPage(rel: string, href: string): Node {
    var link := Node(ElementNode, "link", [Attribute("rel", rel), Attribute("href", href)], []);
    var head := Node(ElementNode, "head", [], [link]);
    Node(DocumentNode, "", [], [Node(ElementNode, "html", [], [head])])
  }
}
