/**
 * `IndiaMartScraper` (src/scraper/indiamart_scraper.py): reads product records
 * from a listing page. Each field is taken from the first selector of a fixed
 * list that finds an element; page links are gathered from all selectors.
 */
module Scraper {
  import opened Wrappers
  import opened Text
  import opened Seqs
  import opened Patterns
  import opened Soup
  import Prices

  const BaseUrl: string := "https://www.indiamart.com"
  const Marketplace: string := "IndiaMART"

  const ProductSelectors: seq<string> := [".prd", ".lst", ".product-item", ".srp-list-item", ".prd-item"]
  const TitleSelectors: seq<string> := [".prd-name", ".lst-name", ".product-name", "h3", "h4", ".title"]
  const PriceSelectors: seq<string> := [".prd-price", ".lst-price", ".price", ".prd-prc"]
  const SupplierSelectors: seq<string> := [".prd-comp", ".lst-comp", ".company-name", ".supplier"]
  const LocationSelectors: seq<string> := [".prd-loc", ".lst-loc", ".location", ".city"]
  const DescriptionSelectors: seq<string> := [".prd-desc", ".description", ".details"]
  const LinkSelectors: seq<string> := [".prd a", ".lst a", ".product-item a", "a[href*=\"/proddetail/\"]"]

  // ===== clean_text and extract_price =====

  /** `clean_text`: "" for "", otherwise stripped with each whitespace run replaced by one space. */
  function CleanText(text: string): string {
    if text == [] then [] else Squash(text)
  }

  /** The cleaned text has no edge whitespace and single spaces only; it is empty exactly for blank input. */
  lemma CleanTextShape(text: string)
    ensures Squashed(CleanText(text))
    ensures CleanText(text) == [] <==> AllSpaces(text)
  {
    if text != [] {
      SquashShape(text);
    }
  }

  /** Cleaning a cleaned text changes nothing. */
  lemma CleanTextIdempotent(text: string)
    ensures CleanText(CleanText(text)) == CleanText(text)
  {
    CleanTextShape(text);
    if CleanText(text) != [] {
      SquashFixed(CleanText(text));
    }
  }

  /** The dictionary `extract_price` returns. */
  datatype ScrapedPrice = ScrapedPrice(rawPrice: string, numericPrice: Option<real>, currency: string, unit: string)

  /** `extract_price`: the first number after the literal price prefix, and the raw word after "per " or "/". */
  function ExtractPrice(priceText: string): (r: ScrapedPrice)
    ensures r.currency == Prices.Currency
    ensures priceText == "" ==> r == ScrapedPrice("", None, Prices.Currency, "")
    ensures priceText != "" ==> r.rawPrice == CleanText(priceText)
    ensures r.unit != "" ==> AllWordChars(r.unit)
  {
    if priceText == "" then ScrapedPrice("", None, Prices.Currency, "")
    else
      var t := CleanText(priceText);
      ScrapedPrice(t, FindNumber(ScraperPrice, t), Prices.Currency, FindWord(ScraperUnit, Lower(t)).GetOr(""))
  }

  /** A number is read only after the two characters U+00E2 U+201A: without them in the cleaned text, the price is absent. */
  lemma PriceNeedsPrefix(priceText: string)
    ensures ExtractPrice(priceText).numericPrice.Some? ==>
              var t := CleanText(priceText);
              exists q :: 0 <= q < |t| - 1 && t[q] == MojibakeA && t[q + 1] == MojibakeB
  {
    if priceText != "" {
      var t := CleanText(priceText);
      assert ExtractPrice(priceText).numericPrice == FindNumber(ScraperPrice, t);
      if FindNumber(ScraperPrice, t).Some? {
        SearchIsLeftmost(ScraperPrice, t, 0);
        var q := Search(ScraperPrice, t, 0).value;
        PrefixAt(t, q);
      }
    }
  }

  /** The price pattern matches only where the two prefix characters stand. */
  lemma PrefixAt(s: string, p: nat)
    requires p <= |s| && MatchAt(ScraperPrice, s, p).Some?
    ensures p < |s| - 1 && s[p] == MojibakeA && s[p + 1] == MojibakeB
  {
  }

  /** The unit is empty exactly when no "per <word>" or "/<word>" match exists; there is no trailing-word fallback. */
  lemma UnitNeedsMarker(priceText: string)
    requires priceText != ""
    ensures var low := Lower(CleanText(priceText));
      ExtractPrice(priceText).unit == "" <==> forall q :: 0 <= q <= |low| ==> MatchAt(ScraperUnit, low, q).None?
  {
    var low := Lower(CleanText(priceText));
    SearchIsLeftmost(ScraperUnit, low, 0);
  }

  /** `"₹<digits>"`: the scraper reads no price and no unit, where `clean_price_text` reads both. */
  lemma RupeeSignNotRead(d: string)
    requires d != [] && AllDigits(d)
    ensures ExtractPrice([Rupee] + d) == ScrapedPrice([Rupee] + d, None, Prices.Currency, "")
    ensures Prices.CleanPriceText([Rupee] + d).numericPrice == Some(DigitsValue(d) as real)
    ensures Prices.CleanPriceText([Rupee] + d).unit == d
  {
    var s := [Rupee] + d;
    PrefixedShape([Rupee], d);
    NoSpaceText(s);
    NoScraperMatch(s);
    SearchNone(ScraperPrice, s);
    SearchNone(ScraperUnit, s);
    Prices.RupeeAndDigits(d);
  }

  /** Digits after a prefix without whitespace, letters or word characters. */
  lemma PrefixedShape(prefix: string, d: string)
    requires d != [] && AllDigits(d)
    requires forall k :: 0 <= k < |prefix| ==> !IsSpace(prefix[k]) && !IsUpper(prefix[k]) && !IsWordChar(prefix[k])
    ensures var s := prefix + d;
      && NoSpaces(s) && Lower(s) == s && s[|prefix|..] == d
      && (forall k :: |prefix| <= k < |s| ==> IsDigit(s[k]))
      && (forall k :: 0 <= k < |prefix| ==> s[k] == prefix[k])
  {
    var s := prefix + d;
    forall k | |prefix| <= k < |s| ensures IsDigit(s[k]) {
      assert s[k] == d[k - |prefix|];
    }
  }

  /** Text without edge or repeated whitespace is its own cleaned form. */
  lemma NoSpaceText(s: string)
    requires s != [] && NoSpaces(s)
    ensures CleanText(s) == s
  {
    assert Squashed(s);
    SquashFixed(s);
  }

  /** Neither scraper pattern matches a text made of the rupee sign and digits. */
  lemma NoScraperMatch(s: string)
    requires forall k :: 0 <= k < |s| ==> s[k] == Rupee || IsDigit(s[k])
    ensures forall q :: 0 <= q <= |s| ==> MatchAt(ScraperPrice, s, q).None? && MatchAt(ScraperUnit, s, q).None?
  {
    forall q | 0 <= q <= |s| ensures MatchAt(ScraperPrice, s, q).None? && MatchAt(ScraperUnit, s, q).None? {
      if q < |s| {
        assert s[q] == Rupee || IsDigit(s[q]);
      }
    }
  }

  /** With the prefix, the digits that follow are the price. */
  lemma PrefixedDigits(d: string)
    requires d != [] && AllDigits(d)
    ensures ExtractPrice([MojibakeA, MojibakeB, MojibakeC] + d).numericPrice == Some(DigitsValue(d) as real)
  {
    var prefix := [MojibakeA, MojibakeB, MojibakeC];
    var s := prefix + d;
    PrefixedShape(prefix, d);
    NoSpaceText(s);
    assert MatchAt(ScraperPrice, s, 0) == Some(Groups(3, 0));
    SearchFirstAt(ScraperPrice, s, 0);
    assert s[3..|s|] == d;
    Numerals.PlainDigitsToken(s, 3, |s|);
  }

  // ===== first-match probing =====

  /** The element found by the first selector of `selectors` for which `select_one` finds one. */
  function FirstFound(dom: Dom, e: Element, selectors: seq<string>): Option<Element> {
    if selectors == [] then None
    else if dom.selectOne(e, selectors[0]).Some? then dom.selectOne(e, selectors[0])
    else FirstFound(dom, e, selectors[1..])
  }

  /** The probe stops at selector `i` when no earlier selector finds an element and `i` does; it finds nothing when none does. */
  lemma {:induction false} FirstFoundSpec(dom: Dom, e: Element, selectors: seq<string>, i: nat)
    requires i < |selectors| && dom.selectOne(e, selectors[i]).Some?
    requires forall j :: 0 <= j < i ==> dom.selectOne(e, selectors[j]).None?
    ensures FirstFound(dom, e, selectors) == dom.selectOne(e, selectors[i])
    decreases i
  {
    if i > 0 {
      FirstFoundSpec(dom, e, selectors[1..], i - 1);
    }
  }

  lemma {:induction false} FirstFoundNone(dom: Dom, e: Element, selectors: seq<string>)
    ensures FirstFound(dom, e, selectors).None? <==> forall j :: 0 <= j < |selectors| ==> dom.selectOne(e, selectors[j]).None?
    decreases |selectors|
  {
    if selectors != [] {
      FirstFoundNone(dom, e, selectors[1..]);
      if FirstFound(dom, e, selectors).None? {
        forall j | 0 <= j < |selectors| ensures dom.selectOne(e, selectors[j]).None? {
          if j > 0 {
            assert selectors[j] == selectors[1..][j - 1];
          }
        }
      }
    }
  }

  /** A field: the cleaned text of the element the probe finds, or "". */
  function FieldText(dom: Dom, e: Element, selectors: seq<string>): string {
    match FirstFound(dom, e, selectors)
    case Some(x) => CleanText(dom.getText(x))
    case None => ""
  }

  /** The selector loops of `extract_single_product`: the first element found wins, even when its text is blank. */
  method ProbeText(dom: Dom, e: Element, selectors: seq<string>) returns (text: string)
    ensures text == FieldText(dom, e, selectors)
  {
    var i := 0;
    while i < |selectors|
      invariant 0 <= i <= |selectors|
      invariant FirstFound(dom, e, selectors[i..]) == FirstFound(dom, e, selectors)
    {
      assert selectors[i..][1..] == selectors[i + 1..];
      var found := dom.selectOne(e, selectors[i]);
      if found.Some? {
        return CleanText(dom.getText(found.value));
      }
      i := i + 1;
    }
    assert selectors[i..] == [];
    return "";
  }

  /** A blank first-found element gives an empty field, whatever later selectors would find. */
  lemma BlankFirstFoundIsEmpty(dom: Dom, e: Element, selectors: seq<string>, i: nat)
    requires i < |selectors| && dom.selectOne(e, selectors[i]).Some?
    requires forall j :: 0 <= j < i ==> dom.selectOne(e, selectors[j]).None?
    requires AllSpaces(dom.getText(dom.selectOne(e, selectors[i]).value))
    ensures FieldText(dom, e, selectors) == ""
  {
    FirstFoundSpec(dom, e, selectors, i);
  }

  /** Relative-URL resolution: a non-empty URL not starting with "http" is joined to the base URL. */
  function Resolve(lib: UrlLib, url: string): (r: string)
    ensures StartsWith(url, "http") || url == "" ==> r == url
    ensures !StartsWith(url, "http") && url != "" ==> r == lib.urljoin(BaseUrl, url)
  {
    if url != "" && !StartsWith(url, "http") then lib.urljoin(BaseUrl, url) else url
  }

  /** `img.get('src') or img.get('data-src') or ""`. */
  function ImageSource(dom: Dom, img: Element): string {
    if Truthy(dom.get(img, "src")) then dom.get(img, "src").value
    else if Truthy(dom.get(img, "data-src")) then dom.get(img, "data-src").value
    else ""
  }

  function ImageUrl(dom: Dom, lib: UrlLib, e: Element): string {
    match dom.find(e, "img")
    case Some(img) => Resolve(lib, ImageSource(dom, img))
    case None => ""
  }

  function ProductUrl(dom: Dom, lib: UrlLib, e: Element): string {
    match dom.find(e, "a")
    case Some(a) => Resolve(lib, dom.get(a, "href").GetOr(""))
    case None => ""
  }

  /** The image step of `extract_single_product`. */
  method ReadImageUrl(dom: Dom, lib: UrlLib, element: Element) returns (imageUrl: string)
    ensures imageUrl == ImageUrl(dom, lib, element)
  {
    imageUrl := "";
    var img := dom.find(element, "img");
    if img.Some? {
      imageUrl := ImageSource(dom, img.value);
      if imageUrl != "" && !StartsWith(imageUrl, "http") {
        imageUrl := lib.urljoin(BaseUrl, imageUrl);
      }
    }
  }

  /** The link step of `extract_single_product`. */
  method ReadProductUrl(dom: Dom, lib: UrlLib, element: Element) returns (productUrl: string)
    ensures productUrl == ProductUrl(dom, lib, element)
  {
    productUrl := "";
    var link := dom.find(element, "a");
    if link.Some? {
      productUrl := dom.get(link.value, "href").GetOr("");
      if productUrl != "" && !StartsWith(productUrl, "http") {
        productUrl := lib.urljoin(BaseUrl, productUrl);
      }
    }
  }

  /** The record `extract_single_product` returns. */
  datatype Product = Product(
    title: string,
    supplierName: string,
    location: string,
    rawPrice: string,
    numericPrice: Option<real>,
    currency: string,
    priceUnit: string,
    description: string,
    imageUrl: string,
    productUrl: string,
    sourceUrl: string,
    category: string,
    marketplace: string)

  /** What `extract_single_product` returns for an element on which no parser call raises. */
  function SingleProduct(dom: Dom, lib: UrlLib, category: string, e: Element, sourceUrl: string): Option<Product> {
    var title := FieldText(dom, e, TitleSelectors);
    if title == "" then None
    else
      var price := ExtractPrice(FieldText(dom, e, PriceSelectors));
      Some(Product(title, FieldText(dom, e, SupplierSelectors), FieldText(dom, e, LocationSelectors),
                   price.rawPrice, price.numericPrice, price.currency, price.unit,
                   FieldText(dom, e, DescriptionSelectors), ImageUrl(dom, lib, e), ProductUrl(dom, lib, e),
                   sourceUrl, category, Marketplace))
  }

  /** No record without a title; every record carries the scraper's category, the marketplace, the currency and the page URL. */
  lemma SingleProductSpec(dom: Dom, lib: UrlLib, category: string, e: Element, sourceUrl: string)
    ensures var r := SingleProduct(dom, lib, category, e, sourceUrl);
      && (r.None? <==> FieldText(dom, e, TitleSelectors) == "")
      && (r.None? <==> FirstFound(dom, e, TitleSelectors).None? || AllSpaces(dom.getText(FirstFound(dom, e, TitleSelectors).value)))
      && (r.Some? ==> && r.value.title != "" && Squashed(r.value.title)
                      && r.value.category == category && r.value.marketplace == Marketplace
                      && r.value.currency == Prices.Currency && r.value.sourceUrl == sourceUrl)
  {
    var found := FirstFound(dom, e, TitleSelectors);
    if found.Some? {
      CleanTextShape(dom.getText(found.value));
    }
  }

  /** The image URL is `src`, else `data-src`, else "", resolved against the base URL. */
  lemma ImageUrlSpec(dom: Dom, lib: UrlLib, e: Element)
    requires dom.find(e, "img").Some?
    ensures var img := dom.find(e, "img").value;
      && (Truthy(dom.get(img, "src")) ==> ImageUrl(dom, lib, e) == Resolve(lib, dom.get(img, "src").value))
      && (!Truthy(dom.get(img, "src")) && Truthy(dom.get(img, "data-src")) ==>
            ImageUrl(dom, lib, e) == Resolve(lib, dom.get(img, "data-src").value))
      && (!Truthy(dom.get(img, "src")) && !Truthy(dom.get(img, "data-src")) ==> ImageUrl(dom, lib, e) == "")
  {
  }

  /** Resolved URLs: "" and URLs beginning with "http" are kept, everything else is joined to the base URL. */
  lemma ResolveDecision(lib: UrlLib, url: string)
    ensures Resolve(lib, url) == url || Resolve(lib, url) == lib.urljoin(BaseUrl, url)
    ensures Resolve(lib, url) == lib.urljoin(BaseUrl, url) || StartsWith(url, "http") || url == ""
    ensures StartsWith(url, "http") ==> Resolve(lib, Resolve(lib, url)) == Resolve(lib, url)
  {
  }

  // ===== extract_product_data =====

  /** The matches of the first selector that matches anything. */
  function FirstNonEmpty(dom: Dom, page: Element, selectors: seq<string>): Option<seq<Element>> {
    if selectors == [] then None
    else if dom.select(page, selectors[0]) != [] then Some(dom.select(page, selectors[0]))
    else FirstNonEmpty(dom, page, selectors[1..])
  }

  /** The product elements: the first selector with matches, or the class-name fallback when none has any. */
  function ProductElements(dom: Dom, page: Element): seq<Element> {
    match FirstNonEmpty(dom, page, ProductSelectors)
    case Some(elements) => elements
    case None => dom.productDivs(page)
  }

  lemma {:induction false} FirstNonEmptySpec(dom: Dom, page: Element, selectors: seq<string>, i: nat)
    requires i < |selectors| && dom.select(page, selectors[i]) != []
    requires forall j :: 0 <= j < i ==> dom.select(page, selectors[j]) == []
    ensures FirstNonEmpty(dom, page, selectors) == Some(dom.select(page, selectors[i]))
    decreases i
  {
    if i > 0 {
      FirstNonEmptySpec(dom, page, selectors[1..], i - 1);
    }
  }

  lemma {:induction false} FirstNonEmptyNone(dom: Dom, page: Element, selectors: seq<string>)
    ensures FirstNonEmpty(dom, page, selectors).None? <==> forall j :: 0 <= j < |selectors| ==> dom.select(page, selectors[j]) == []
    decreases |selectors|
  {
    if selectors != [] {
      FirstNonEmptyNone(dom, page, selectors[1..]);
      if FirstNonEmpty(dom, page, selectors).None? {
        forall j | 0 <= j < |selectors| ensures dom.select(page, selectors[j]) == [] {
          if j > 0 {
            assert selectors[j] == selectors[1..][j - 1];
          }
        }
      }
    }
  }

  /** Only the first selector with matches is used, and the fallback only when all five match nothing. */
  lemma ProductElementsSpec(dom: Dom, page: Element, i: nat)
    ensures i < |ProductSelectors| && dom.select(page, ProductSelectors[i]) != []
            && (forall j :: 0 <= j < i ==> dom.select(page, ProductSelectors[j]) == []) ==>
              ProductElements(dom, page) == dom.select(page, ProductSelectors[i])
    ensures (forall j :: 0 <= j < |ProductSelectors| ==> dom.select(page, ProductSelectors[j]) == []) ==>
              ProductElements(dom, page) == dom.productDivs(page)
  {
    if i < |ProductSelectors| && dom.select(page, ProductSelectors[i]) != []
       && (forall j :: 0 <= j < i ==> dom.select(page, ProductSelectors[j]) == []) {
      FirstNonEmptySpec(dom, page, ProductSelectors, i);
    }
    FirstNonEmptyNone(dom, page, ProductSelectors);
  }

  /** One element inside the `try` of `extract_product_data`: nothing when a parser call raises, otherwise `extract_single_product`. */
  function ReadElement(dom: Dom, lib: UrlLib, category: string, url: string, e: Element): Option<Product> {
    if dom.raises(e) then None else SingleProduct(dom, lib, category, e, url)
  }

  /** The records that `read` gives for `elements`, in element order. */
  function Collected(read: Element -> Option<Product>, elements: seq<Element>): (products: seq<Product>)
    ensures |products| <= |elements|
  {
    if elements == [] then []
    else
      Collected(read, elements[..|elements| - 1])
        + (match read(elements[|elements| - 1]) case Some(p) => [p] case None => [])
  }

  /** Records follow element order: reading two runs of elements one after the other gives their records one after the other. */
  lemma {:induction false} CollectedAppend(read: Element -> Option<Product>, xs: seq<Element>, ys: seq<Element>)
    ensures Collected(read, xs + ys) == Collected(read, xs) + Collected(read, ys)
    decreases |ys|
  {
    if ys == [] {
      assert xs + ys == xs;
    } else {
      var n := |ys| - 1;
      assert (xs + ys)[..|xs + ys| - 1] == xs + ys[..n];
      assert (xs + ys)[|xs + ys| - 1] == ys[n];
      CollectedAppend(read, xs, ys[..n]);
    }
  }

  /** Every record comes from one of the elements, and every element that gives a record contributes it. */
  lemma {:induction false} CollectedSpec(read: Element -> Option<Product>, elements: seq<Element>)
    ensures forall p :: p in Collected(read, elements) ==> exists k :: 0 <= k < |elements| && read(elements[k]) == Some(p)
    ensures forall k :: 0 <= k < |elements| && read(elements[k]).Some? ==> read(elements[k]).value in Collected(read, elements)
  {
    if elements != [] {
      var n := |elements| - 1;
      var init := elements[..n];
      CollectedSpec(read, init);
      forall p | p in Collected(read, elements) ensures exists k :: 0 <= k < |elements| && read(elements[k]) == Some(p) {
        if p in Collected(read, init) {
          var k :| 0 <= k < |init| && read(init[k]) == Some(p);
          assert elements[k] == init[k];
        } else {
          assert read(elements[n]) == Some(p);
        }
      }
      forall k | 0 <= k < |elements| && read(elements[k]).Some? ensures read(elements[k]).value in Collected(read, elements) {
        if k < n {
          assert elements[k] == init[k];
        }
      }
    }
  }

  /** Every record of a page has a title and the scraper's category, marketplace and page URL. */
  lemma PageRecords(dom: Dom, lib: UrlLib, category: string, url: string, elements: seq<Element>)
    ensures forall p :: p in Collected(e => ReadElement(dom, lib, category, url, e), elements) ==>
              p.title != "" && p.category == category && p.marketplace == Marketplace && p.sourceUrl == url
  {
    var read := e => ReadElement(dom, lib, category, url, e);
    CollectedSpec(read, elements);
    forall p | p in Collected(read, elements) ensures p.title != "" && p.category == category && p.marketplace == Marketplace && p.sourceUrl == url {
      var k :| 0 <= k < |elements| && read(elements[k]) == Some(p);
      SingleProductSpec(dom, lib, category, elements[k], url);
    }
  }

  /** The selector scan of `extract_product_data`, with its fallback. */
  method FindProductElements(dom: Dom, page: Element) returns (elements: seq<Element>)
    ensures elements == ProductElements(dom, page)
  {
    elements := [];
    var i := 0;
    while i < |ProductSelectors|
      invariant 0 <= i <= |ProductSelectors|
      invariant elements == []
      invariant FirstNonEmpty(dom, page, ProductSelectors[i..]) == FirstNonEmpty(dom, page, ProductSelectors)
    {
      assert ProductSelectors[i..][1..] == ProductSelectors[i + 1..];
      var found := dom.select(page, ProductSelectors[i]);
      if found != [] {
        return found;
      }
      i := i + 1;
    }
    assert ProductSelectors[i..] == [];
    elements := dom.productDivs(page);
  }

  lemma CollectedSnoc(read: Element -> Option<Product>, elements: seq<Element>, k: nat)
    requires k < |elements|
    ensures Collected(read, elements[..k + 1])
         == Collected(read, elements[..k]) + (match read(elements[k]) case Some(p) => [p] case None => [])
  {
    assert elements[..k + 1][..k] == elements[..k];
  }

  // ===== links and search pages =====

  /** The resolved truthy `href`s of `links`, in order. */
  function LinkHrefs(dom: Dom, lib: UrlLib, links: seq<Element>): seq<string> {
    if links == [] then []
    else
      var h := dom.get(links[|links| - 1], "href");
      LinkHrefs(dom, lib, links[..|links| - 1]) + (if Truthy(h) then [Resolve(lib, h.value)] else [])
  }

  /** The hrefs gathered over every selector in `selectors`, in order (no first-match break). */
  function SelectorHrefs(dom: Dom, lib: UrlLib, page: Element, selectors: seq<string>): seq<string> {
    if selectors == [] then []
    else SelectorHrefs(dom, lib, page, selectors[..|selectors| - 1]) + LinkHrefs(dom, lib, dom.select(page, selectors[|selectors| - 1]))
  }

  /** A URL is gathered exactly when some link matched by some selector has a non-empty href that resolves to it. */
  lemma {:induction false} LinkHrefsSpec(dom: Dom, lib: UrlLib, links: seq<Element>)
    ensures forall u :: u in LinkHrefs(dom, lib, links) <==>
              exists k :: 0 <= k < |links| && Truthy(dom.get(links[k], "href")) && u == Resolve(lib, dom.get(links[k], "href").value)
  {
    if links != [] {
      var n := |links| - 1;
      var init := links[..n];
      LinkHrefsSpec(dom, lib, init);
      forall u ensures u in LinkHrefs(dom, lib, links) <==>
        exists k :: 0 <= k < |links| && Truthy(dom.get(links[k], "href")) && u == Resolve(lib, dom.get(links[k], "href").value)
      {
        if u in LinkHrefs(dom, lib, init) {
          var k :| 0 <= k < |init| && Truthy(dom.get(init[k], "href")) && u == Resolve(lib, dom.get(init[k], "href").value);
          assert links[k] == init[k];
        }
        if exists k :: 0 <= k < |links| && Truthy(dom.get(links[k], "href")) && u == Resolve(lib, dom.get(links[k], "href").value) {
          var k :| 0 <= k < |links| && Truthy(dom.get(links[k], "href")) && u == Resolve(lib, dom.get(links[k], "href").value);
          if k < n {
            assert links[k] == init[k];
          }
        }
      }
    }
  }

  lemma {:induction false} SelectorHrefsSpec(dom: Dom, lib: UrlLib, page: Element, selectors: seq<string>)
    ensures forall u :: u in SelectorHrefs(dom, lib, page, selectors) <==>
              exists i :: 0 <= i < |selectors| && u in LinkHrefs(dom, lib, dom.select(page, selectors[i]))
  {
    if selectors != [] {
      var n := |selectors| - 1;
      var init := selectors[..n];
      SelectorHrefsSpec(dom, lib, page, init);
      forall u ensures u in SelectorHrefs(dom, lib, page, selectors) <==>
        exists i :: 0 <= i < |selectors| && u in LinkHrefs(dom, lib, dom.select(page, selectors[i]))
      {
        if u in SelectorHrefs(dom, lib, page, init) {
          var i :| 0 <= i < |init| && u in LinkHrefs(dom, lib, dom.select(page, init[i]));
          assert selectors[i] == init[i];
        }
        if exists i :: 0 <= i < |selectors| && u in LinkHrefs(dom, lib, dom.select(page, selectors[i])) {
          var i :| 0 <= i < |selectors| && u in LinkHrefs(dom, lib, dom.select(page, selectors[i]));
          if i < n {
            assert selectors[i] == init[i];
          }
        }
      }
    }
  }

  /** One results page of the search: `{base_url}/search.mp?ss={quote(query)}&page={page}`. */
  function SearchUrl(lib: UrlLib, query: string, page: nat): string {
    BaseUrl + "/search.mp?ss=" + lib.quote(query) + "&page=" + NatToString(page)
  }

  /** Different pages give different URLs. */
  lemma SearchUrlInjective(lib: UrlLib, query: string, p: nat, q: nat)
    requires SearchUrl(lib, query, p) == SearchUrl(lib, query, q)
    ensures p == q
  {
    var prefix := BaseUrl + "/search.mp?ss=" + lib.quote(query) + "&page=";
    assert SearchUrl(lib, query, p)[|prefix|..] == NatToString(p);
    assert SearchUrl(lib, query, q)[|prefix|..] == NatToString(q);
    NatToStringInjective(p, q);
  }

  /** The search URLs are pairwise different. */
  lemma SearchUrlsDistinct(lib: UrlLib, query: string, urls: seq<string>)
    requires forall k :: 0 <= k < |urls| ==> urls[k] == SearchUrl(lib, query, k + 1)
    ensures Distinct(urls)
  {
    forall i, j | 0 <= i < j < |urls| ensures urls[i] != urls[j] {
      if urls[i] == urls[j] {
        SearchUrlInjective(lib, query, i + 1, j + 1);
      }
    }
  }
}

/** The scraper object: its category is the only state its product methods read. */
module IndiaMart {
  import opened Wrappers
  import opened Text
  import opened Seqs
  import opened Soup
  import opened Scraper

  class IndiaMartScraper {
    const category: string

    constructor (category: string)
      ensures this.category == category
    {
      this.category := category;
    }

    /** `extract_single_product` on an element on which no parser call raises. */
    method ExtractSingleProduct(dom: Dom, lib: UrlLib, element: Element, sourceUrl: string) returns (product: Option<Product>)
      ensures product == SingleProduct(dom, lib, category, element, sourceUrl)
    {
      var title := ProbeText(dom, element, TitleSelectors);
      if title == "" {
        return None;
      }
      var priceText := ProbeText(dom, element, PriceSelectors);
      var priceInfo := ExtractPrice(priceText);
      var supplier := ProbeText(dom, element, SupplierSelectors);
      var location := ProbeText(dom, element, LocationSelectors);
      var imageUrl := ReadImageUrl(dom, lib, element);
      var productUrl := ReadProductUrl(dom, lib, element);
      var description := ProbeText(dom, element, DescriptionSelectors);
      product := Some(Product(title, supplier, location, priceInfo.rawPrice, priceInfo.numericPrice, priceInfo.currency,
                              priceInfo.unit, description, imageUrl, productUrl, sourceUrl, category, Marketplace));
    }

    /** `extract_product_data`: one record per product element that gives one without raising, in element order. */
    method ExtractProductData(dom: Dom, lib: UrlLib, page: Element, url: string) returns (products: seq<Product>)
      ensures products == Collected(e => ReadElement(dom, lib, category, url, e), ProductElements(dom, page))
    {
      var elements := FindProductElements(dom, page);
      ghost var read := e => ReadElement(dom, lib, category, url, e);
      products := [];
      var k := 0;
      while k < |elements|
        invariant 0 <= k <= |elements|
        invariant products == Collected(read, elements[..k])
      {
        CollectedSnoc(read, elements, k);
        if !dom.raises(elements[k]) {
          var product := ExtractSingleProduct(dom, lib, elements[k], url);
          assert read(elements[k]) == product;
          if product.Some? {
            products := products + [product.value];
          }
        }
        k := k + 1;
      }
      assert elements[..k] == elements;
    }

    /** `get_product_urls`: every resolved href of every link selector, each once. Python's set fixes no order. */
    method GetProductUrls(dom: Dom, lib: UrlLib, page: Element) returns (urls: seq<string>)
      ensures Distinct(urls)
      ensures forall u :: u in urls <==> u in SelectorHrefs(dom, lib, page, LinkSelectors)
    {
      var gathered: seq<string> := [];
      var i := 0;
      while i < |LinkSelectors|
        invariant 0 <= i <= |LinkSelectors|
        invariant gathered == SelectorHrefs(dom, lib, page, LinkSelectors[..i])
      {
        var links := dom.select(page, LinkSelectors[i]);
        var j := 0;
        while j < |links|
          invariant 0 <= j <= |links|
          invariant gathered == SelectorHrefs(dom, lib, page, LinkSelectors[..i]) + LinkHrefs(dom, lib, links[..j])
        {
          assert links[..j + 1][..j] == links[..j];
          var href := dom.get(links[j], "href");
          if Truthy(href) {
            var resolved := href.value;
            if !StartsWith(resolved, "http") {
              resolved := lib.urljoin(BaseUrl, resolved);
            }
            gathered := gathered + [resolved];
          }
          j := j + 1;
        }
        assert links[..j] == links;
        assert LinkSelectors[..i + 1][..i] == LinkSelectors[..i];
        i := i + 1;
      }
      assert LinkSelectors[..i] == LinkSelectors;
      urls := Unique(gathered);
    }

    /** `search_products`: the URLs of result pages 1 to `maxPages`, in order (none when `maxPages` < 1). */
    method SearchProducts(lib: UrlLib, query: string, maxPages: int) returns (urls: seq<string>)
      ensures |urls| == if maxPages > 0 then maxPages else 0
      ensures forall k :: 0 <= k < |urls| ==> urls[k] == SearchUrl(lib, query, k + 1)
    {
      var encoded := lib.quote(query);
      urls := [];
      var page := 1;
      while page <= maxPages
        invariant 1 <= page
        invariant page <= maxPages + 1 || (page == 1 && maxPages < 1)
        invariant |urls| == page - 1
        invariant forall k :: 0 <= k < |urls| ==> urls[k] == SearchUrl(lib, query, k + 1)
      {
        urls := urls + [BaseUrl + "/search.mp?ss=" + encoded + "&page=" + NatToString(page)];
        page := page + 1;
      }
    }
  }
}
