/**
 * The parsed page and the URL helpers that the listing extractor calls. The
 * HTML parser (BeautifulSoup) and `urllib.parse` are not part of this model:
 * their answers are functions held in these records, and only what the
 * scraper does with those answers is modelled.
 */
module Soup {
  import opened Wrappers

  /** A node of the parsed page, identified by its position in the document. */
  datatype Element = Element(id: nat)

  datatype Dom = Dom(
    /** `element.select(css)`: every match, in document order. */
    select: (Element, string) -> seq<Element>,
    /** `element.select_one(css)`: the first match, if any. */
    selectOne: (Element, string) -> Option<Element>,
    /** `element.find(tag)`. */
    find: (Element, string) -> Option<Element>,
    /** `find_all('div', class_=re.compile(r'(product|prd|item)', re.I))`. */
    productDivs: Element -> seq<Element>,
    /** `element.get_text()`. */
    getText: Element -> string,
    /** `element.get(attribute)`: absent attributes give `None`. */
    get: (Element, string) -> Option<string>,
    /** Whether some parser call raises while a product is read from the element. */
    raises: Element -> bool)

  datatype UrlLib = UrlLib(
    /** `urllib.parse.urljoin(base, url)`. */
    urljoin: (string, string) -> string,
    /** `urllib.parse.quote(text)`. */
    quote: string -> string)

  /** Python truthiness of an attribute value: present and not empty. */
  predicate Truthy(v: Option<string>) {
    v.Some? && v.value != ""
  }
}
