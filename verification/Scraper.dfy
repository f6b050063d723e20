/** The extraction logic of the exhibitor scraper: link discovery on the listing
    page, field extraction on a detail page, and the `Scraper` object that counts
    anchorless listing entries and collects the parsed companies. */
module Scraper {
  import opened Wrappers
  import opened Dom

  /** Class marking one exhibitor entry on the listing page. */
  const ContainerClass := "gdlr-frame"
  /** Class of the element holding a company's name on its detail page. */
  const TitleClass := "gdlr-page-title"
  /** Class of the region holding the e-mail link on a detail page. */
  const ClientsClass := "portfolio-clients"
  /** Class of the region holding the website link on a detail page. */
  const WebsiteClass := "portfolio-website"

  /** One exhibitor record. */
  datatype Company = Company(name: string, email: string, website: string)

  /** The fault `getChildLink` raises when the region with the given class exists
      but contains no anchor: reading `getAttribute` of `undefined`. */
  datatype Fault = NoAnchorInRegion(className: string)

  // ---------------------------------------------------------------------------
  // Listing page
  // ---------------------------------------------------------------------------

  /** The URL a listing container yields: the truthy `href` of its first anchor. */
  function ContainerUrl(item: Element): Option<string>
  {
    match FirstAnchor(item)
    case None => None
    case Some(anchor) => if Truthy(anchor.href) then Some(anchor.href.value) else None
  }

  /** The containers of a listing page, in document order. */
  function ListItems(page: Document): (r: seq<Element>)
    ensures forall e :: e in r ==> e in page.elements && ContainerClass in e.classes
    ensures forall i :: 0 <= i < |page.elements| && ContainerClass in page.elements[i].classes ==>
              page.elements[i] in r
  {
    ElementsByClassName(page.elements, ContainerClass)
  }

  /** The URLs a listing yields, container by container. */
  function ListUrls(items: seq<Element>): (r: seq<string>)
    ensures |r| <= |items|
    ensures forall u :: u in r ==> u != ""
  {
    if items == [] then []
    else
      (match ContainerUrl(items[0]) case Some(u) => [u] case None => [])
      + ListUrls(items[1..])
  }

  /** Number of containers without any anchor. */
  function NoAnchorCount(items: seq<Element>): (r: nat)
    ensures r <= |items|
  {
    if items == [] then 0
    else (if items[0].anchors == [] then 1 else 0) + NoAnchorCount(items[1..])
  }

  /** Number of containers whose first anchor has a null or empty `href`. */
  function BlankHrefCount(items: seq<Element>): nat
  {
    if items == [] then 0
    else (if items[0].anchors != [] && !Truthy(items[0].anchors[0].href) then 1 else 0)
         + BlankHrefCount(items[1..])
  }

  /** The URLs of two container lists in sequence are the URLs of each, in order. */
  lemma {:induction false} ListUrlsAppend(a: seq<Element>, b: seq<Element>)
    ensures ListUrls(a + b) == ListUrls(a) + ListUrls(b)
  {
    if a != [] {
      assert (a + b)[1..] == a[1..] + b;
      ListUrlsAppend(a[1..], b);
    } else {
      assert a + b == b;
    }
  }

  /** The anchorless count of two container lists in sequence is the sum of theirs. */
  lemma {:induction false} NoAnchorCountAppend(a: seq<Element>, b: seq<Element>)
    ensures NoAnchorCount(a + b) == NoAnchorCount(a) + NoAnchorCount(b)
  {
    if a != [] {
      assert (a + b)[1..] == a[1..] + b;
      NoAnchorCountAppend(a[1..], b);
    } else {
      assert a + b == b;
    }
  }

  /** Handling one more container extends the URLs by what it yields and the
      anchorless count by one exactly when it has no anchor. */
  lemma ListingStep(done: seq<Element>, item: Element)
    ensures ListUrls(done + [item])
            == ListUrls(done) + (match ContainerUrl(item) case Some(u) => [u] case None => [])
    ensures NoAnchorCount(done + [item]) == NoAnchorCount(done) + (if item.anchors == [] then 1 else 0)
  {
    ListUrlsAppend(done, [item]);
    NoAnchorCountAppend(done, [item]);
    assert ListUrls([item]) == (match ContainerUrl(item) case Some(u) => [u] case None => []);
    assert NoAnchorCount([item]) == if item.anchors == [] then 1 else 0;
  }

  /** The positions of the containers that yield a URL, in increasing order. */
  ghost function UrlPositions(items: seq<Element>): seq<nat>
  {
    if items == [] then []
    else
      UrlPositions(items[..|items| - 1])
      + (if ContainerUrl(items[|items| - 1]).Some? then [|items| - 1] else [])
  }

  /** The k-th URL of a listing comes from the container at the k-th URL position:
      every URL is the truthy first-anchor `href` of a container, nothing else. */
  lemma {:induction false} UrlPositionsSound(items: seq<Element>)
    ensures |UrlPositions(items)| == |ListUrls(items)|
    ensures forall k :: 0 <= k < |UrlPositions(items)| ==>
              UrlPositions(items)[k] < |items|
              && ContainerUrl(items[UrlPositions(items)[k]]) == Some(ListUrls(items)[k])
  {
    if items != [] {
      var init, last := items[..|items| - 1], items[|items| - 1];
      assert items == init + [last];
      UrlPositionsSound(init);
      ListUrlsAppend(init, [last]);
      var pos, before := UrlPositions(items), UrlPositions(init);
      var urls, initUrls, lastUrls := ListUrls(items), ListUrls(init), ListUrls([last]);
      assert lastUrls == (match ContainerUrl(last) case Some(u) => [u] case None => []);
      forall k | 0 <= k < |pos|
        ensures pos[k] < |items| && ContainerUrl(items[pos[k]]) == Some(urls[k])
      {
        if k < |before| {
          assert pos[k] == before[k] && urls[k] == initUrls[k];
          assert items[before[k]] == init[before[k]];
        } else {
          assert pos[k] == |init| && urls[k] == lastUrls[0];
        }
      }
    }
  }

  /** URL positions are strictly increasing, so URLs come out in container order. */
  lemma {:induction false} UrlPositionsIncreasing(items: seq<Element>)
    ensures forall k :: 0 <= k < |UrlPositions(items)| ==> UrlPositions(items)[k] < |items|
    ensures forall k, l :: 0 <= k < l < |UrlPositions(items)| ==> UrlPositions(items)[k] < UrlPositions(items)[l]
  {
    if items != [] {
      var init := items[..|items| - 1];
      UrlPositionsIncreasing(init);
      var pos, before := UrlPositions(items), UrlPositions(init);
      forall k | 0 <= k < |before| ensures pos[k] == before[k] {}
    }
  }

  /** Every container whose first anchor has a truthy `href` has its position
      among the URL positions: no such container is dropped. */
  lemma {:induction false} UrlPositionsComplete(items: seq<Element>)
    ensures forall i :: 0 <= i < |items| && ContainerUrl(items[i]).Some? ==> i in UrlPositions(items)
  {
    if items != [] {
      var init, last := items[..|items| - 1], items[|items| - 1];
      UrlPositionsComplete(init);
      var pos, before := UrlPositions(items), UrlPositions(init);
      forall i | 0 <= i < |items| && ContainerUrl(items[i]).Some? ensures i in pos {
        if i < |init| {
          assert items[i] == init[i];
          assert i in before;
        } else {
          assert pos[|before|] == i;
        }
      }
    }
  }

  /** Every container is exactly one of: yields a URL, has no anchor, or has a
      first anchor with a null or empty `href`. Hence URLs plus anchorless
      containers never exceed the number of containers. */
  lemma {:induction false} ListingPartition(items: seq<Element>)
    ensures |ListUrls(items)| + NoAnchorCount(items) + BlankHrefCount(items) == |items|
    ensures |ListUrls(items)| + NoAnchorCount(items) <= |items|
  {
    if items != [] {
      ListingPartition(items[1..]);
    }
  }

  /** Only the first anchor of each container is consulted: two listings whose
      containers agree on their first anchors yield the same URLs and the same
      anchorless count, whatever later anchors they hold. */
  lemma {:induction false} OnlyFirstAnchorMatters(items: seq<Element>, other: seq<Element>)
    requires |items| == |other|
    requires forall i :: 0 <= i < |items| ==> FirstAnchor(items[i]) == FirstAnchor(other[i])
    ensures ListUrls(items) == ListUrls(other)
    ensures NoAnchorCount(items) == NoAnchorCount(other)
  {
    if items != [] {
      assert FirstAnchor(items[0]) == FirstAnchor(other[0]);
      forall i | 0 <= i < |items[1..]| ensures FirstAnchor(items[1..][i]) == FirstAnchor(other[1..][i]) {
        assert items[1..][i] == items[i + 1] && other[1..][i] == other[i + 1];
      }
      OnlyFirstAnchorMatters(items[1..], other[1..]);
    }
  }

  /** The anchorless count is the number of container positions without an
      anchor, independent of what the other containers hold. */
  lemma {:induction false} NoAnchorCountIsCardinality(items: seq<Element>)
    ensures NoAnchorCount(items) == |set i | 0 <= i < |items| && items[i].anchors == []|
  {
    if items != [] {
      var init, last := items[..|items| - 1], items[|items| - 1];
      assert items == init + [last];
      NoAnchorCountIsCardinality(init);
      NoAnchorCountAppend(init, [last]);
      assert NoAnchorCount([last]) == if last.anchors == [] then 1 else 0;
      var before := set i | 0 <= i < |init| && init[i].anchors == [];
      var after := set i | 0 <= i < |items| && items[i].anchors == [];
      var added := if last.anchors == [] then {|init|} else {};
      forall i ensures i in after <==> i in before + added {
        if 0 <= i < |init| {
          assert items[i] == init[i];
        }
      }
      assert after == before + added;
      assert |init| !in before;
    }
  }

  /** The anchorless count is zero exactly when every container has an anchor,
      and equals the number of containers exactly when none has one. */
  lemma {:induction false} NoAnchorCountExtremes(items: seq<Element>)
    ensures NoAnchorCount(items) == 0 <==> forall i :: 0 <= i < |items| ==> items[i].anchors != []
    ensures NoAnchorCount(items) == |items| <==> forall i :: 0 <= i < |items| ==> items[i].anchors == []
  {
    if items != [] {
      NoAnchorCountExtremes(items[1..]);
      forall i | 0 < i < |items| ensures items[i] == items[1..][i - 1] {}
    }
  }

  /** A listing whose containers each hold exactly one anchor with a non-empty
      `href` yields exactly those hrefs, one per container, and no anchorless entry. */
  lemma {:induction false} FullyLinkedListing(items: seq<Element>)
    requires forall i :: 0 <= i < |items| ==> |items[i].anchors| == 1 && Truthy(items[i].anchors[0].href)
    ensures |ListUrls(items)| == |items| && NoAnchorCount(items) == 0
    ensures forall i :: 0 <= i < |items| ==> Some(ListUrls(items)[i]) == items[i].anchors[0].href
  {
    if items != [] {
      FullyLinkedListing(items[1..]);
      forall i | 0 < i < |items| ensures Some(ListUrls(items)[i]) == items[i].anchors[0].href {
        assert items[1..][i - 1] == items[i];
      }
    }
  }

  // ---------------------------------------------------------------------------
  // Detail page
  // ---------------------------------------------------------------------------

  /** `parseName`: the text of the first title element when it is present and
      non-empty, otherwise "". */
  function ParseName(d: Document): (r: string)
    ensures r != "" ==>
              exists i :: IsFirstWithClass(d.elements, i, TitleClass) && d.elements[i].text == Some(r)
    ensures r == "" ==>
              forall i :: IsFirstWithClass(d.elements, i, TitleClass) ==> !Truthy(d.elements[i].text)
  {
    match FirstByClass(d, TitleClass)
    case None => ""
    case Some(name) => if Truthy(name.text) then name.text.value else ""
  }

  /** `getChildLink`: the truthy `href` of the first anchor inside the first
      element with class `className`; "" when there is no such element or the
      `href` is null or empty; a fault when that element contains no anchor. */
  function GetChildLink(d: Document, className: string): (r: Result<string, Fault>)
    ensures r.Failure? <==>
              exists i :: IsFirstWithClass(d.elements, i, className) && d.elements[i].anchors == []
    ensures r.Failure? ==> r.error == NoAnchorInRegion(className)
    ensures (forall i :: 0 <= i < |d.elements| ==> className !in d.elements[i].classes) ==> r == Success("")
    ensures r.Success? && r.value != "" ==>
              exists i :: IsFirstWithClass(d.elements, i, className) && d.elements[i].anchors != []
                          && d.elements[i].anchors[0].href == Some(r.value)
    ensures forall i :: (IsFirstWithClass(d.elements, i, className) && d.elements[i].anchors != []
                         && !Truthy(d.elements[i].anchors[0].href)) ==> r == Success("")
    ensures forall i :: (IsFirstWithClass(d.elements, i, className) && d.elements[i].anchors != []
                         && Truthy(d.elements[i].anchors[0].href))
                        ==> r == Success(d.elements[i].anchors[0].href.value)
  {
    match FirstByClass(d, className)
    case None => Success("")
    case Some(wrapper) =>
      match FirstAnchor(wrapper)
      case None => Failure(NoAnchorInRegion(className))
      case Some(anchor) => if Truthy(anchor.href) then Success(anchor.href.value) else Success("")
  }

  /** A worked example, listing side: one linked and one bare container yield
      the one link and an anchorless count of one. */
  lemma AcmeListingExample()
    ensures var listing := Document([
              Element({ContainerClass}, None, [Anchor(Some("/exhibitor/acme"))]),
              Element({ContainerClass}, None, [])]);
            ListUrls(ListItems(listing)) == ["/exhibitor/acme"] && NoAnchorCount(ListItems(listing)) == 1
  {
    var listing := Document([
      Element({ContainerClass}, None, [Anchor(Some("/exhibitor/acme"))]),
      Element({ContainerClass}, None, [])]);
    assert ListItems(listing) == listing.elements;
    assert ListUrls(listing.elements[1..]) == [];
    assert NoAnchorCount(listing.elements[1..]) == 1;
  }

  /** A worked example, detail side: a page with a title, an e-mail region and a
      website region yields all three fields. */
  lemma AcmeDetailExample()
    ensures var detail := Document([
              Element({TitleClass}, Some("Acme Co"), []),
              Element({ClientsClass}, None, [Anchor(Some("mailto:info@acme.test"))]),
              Element({WebsiteClass}, None, [Anchor(Some("https://acme.test"))])]);
            ParseName(detail) == "Acme Co"
            && GetChildLink(detail, ClientsClass) == Success("mailto:info@acme.test")
            && GetChildLink(detail, WebsiteClass) == Success("https://acme.test")
  {
    var detail := Document([
      Element({TitleClass}, Some("Acme Co"), []),
      Element({ClientsClass}, None, [Anchor(Some("mailto:info@acme.test"))]),
      Element({WebsiteClass}, None, [Anchor(Some("https://acme.test"))])]);
    assert |TitleClass| != |ClientsClass| && |TitleClass| != |WebsiteClass|;
    assert ClientsClass[10] != WebsiteClass[10];
    var es := detail.elements;
    assert ElementsByClassName(es[2..], ClientsClass) == [];
    assert ElementsByClassName(es, ClientsClass) == [es[1]];
    assert ElementsByClassName(es[1..], WebsiteClass) == [es[2]];
    assert ElementsByClassName(es, WebsiteClass) == [es[2]];
    assert ElementsByClassName(es, TitleClass)[0] == es[0];
  }

  // ---------------------------------------------------------------------------
  // The scraper object
  // ---------------------------------------------------------------------------

  /** The scraper's mutable state: the running count of listing entries without
      an anchor, and the companies parsed so far. */
  class Scraper {
    var itemsWithNoUrl: nat
    var companies: seq<Company>

    constructor ()
      ensures itemsWithNoUrl == 0 && companies == []
    {
      itemsWithNoUrl := 0;
      companies := [];
    }

    /** `processListPage`: the URLs of the listing's containers in order, adding
        the number of anchorless containers to the running count. */
    method ProcessListPage(page: Document) returns (urls: seq<string>)
      modifies this`itemsWithNoUrl
      ensures urls == ListUrls(ListItems(page))
      ensures itemsWithNoUrl == old(itemsWithNoUrl) + NoAnchorCount(ListItems(page))
    {
      var listItems := ListItems(page);
      urls := [];
      for i := 0 to |listItems|
        invariant urls == ListUrls(listItems[..i])
        invariant itemsWithNoUrl == old(itemsWithNoUrl) + NoAnchorCount(listItems[..i])
      {
        var item := listItems[i];
        assert listItems[..i + 1] == listItems[..i] + [item];
        ListingStep(listItems[..i], item);
        if item.anchors != [] {
          var anchor := item.anchors[0];
          var url := anchor.href;
          if Truthy(url) {
            urls := urls + [url.value];
          }
        } else {
          itemsWithNoUrl := itemsWithNoUrl + 1;
        }
      }
      assert listItems[..|listItems|] == listItems;
    }

    /** The synchronous part of `getCompanyDetails`: build a company from a
        detail page and append it to `companies`. When a link region holds no
        anchor the extraction faults and nothing is appended; the e-mail region
        is read first, so its fault is the one reported when both are bare. */
    method GetCompanyDetails(d: Document) returns (r: Result<Company, Fault>)
      modifies this`companies
      ensures r.Success? <==> GetChildLink(d, ClientsClass).Success? && GetChildLink(d, WebsiteClass).Success?
      ensures r.Success? ==>
                r.value == Company(ParseName(d), GetChildLink(d, ClientsClass).value,
                                   GetChildLink(d, WebsiteClass).value)
                && companies == old(companies) + [r.value]
      ensures r.Failure? ==>
                companies == old(companies)
                && r.error == (if GetChildLink(d, ClientsClass).Failure?
                               then NoAnchorInRegion(ClientsClass) else NoAnchorInRegion(WebsiteClass))
    {
      var company := Company("", "", "");
      company := company.(name := ParseName(d));
      var email := GetChildLink(d, ClientsClass);
      if email.Failure? {
        return Failure(email.error);
      }
      company := company.(email := email.value);
      var website := GetChildLink(d, WebsiteClass);
      if website.Failure? {
        return Failure(website.error);
      }
      company := company.(website := website.value);
      companies := companies + [company];
      r := Success(company);
    }
  }
}
