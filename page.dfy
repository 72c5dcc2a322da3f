/**
 * The parsed page as the scraper sees it, the "likely logo" pre-filter applied
 * to image URLs, and the additive score of an image candidate.
 */
module Page {
  import opened Wrappers
  import opened Strings

  /**
   * A tag the element refers to by name: an element's parent, or its nearest
   * enclosing `a` element. Single-valued attributes are a map; an attribute
   * that is absent reads as the empty string, which every test below treats
   * as the scraper does.
   */
  datatype Node = Node(name: string, attrs: map<string, string>)

  /**
   * One element of the parsed document: its tag name, its single-valued
   * attributes, the values of its multi-valued `class` and `rel` attributes,
   * its parent, and its nearest enclosing `a` element.
   */
  datatype Element = Element(
    tag: string,
    attrs: map<string, string>,
    classes: seq<string>,
    rels: seq<string>,
    parent: Option<Node>,
    anchor: Option<Node>)

  /** A document is its elements in document order. */
  type Document = seq<Element>

  /** `element.get(key, '')`. */
  function Attr(attrs: map<string, string>, key: string): string
  {
    if key in attrs then attrs[key] else ""
  }

  const LogoIndicators: seq<string> := ["logo", "brand", "header", "site-icon", "favicon"]
  const ImageExtensions: seq<string> := [".png", ".jpg", ".jpeg", ".svg", ".gif", ".webp"]
  const AltLogoWords: seq<string> := ["logo", "brand", "company"]
  const AltBrandWords: seq<string> := ["brand", "company", "site"]

  /** `any(w in s for w in words)`. */
  predicate AnyContains(s: string, words: seq<string>)
  {
    exists i :: 0 <= i < |words| && Contains(s, words[i])
  }

  /** `s.endswith(tuple(suffixes))`. */
  predicate AnyEndsWith(s: string, suffixes: seq<string>)
  {
    exists i :: 0 <= i < |suffixes| && EndsWith(s, suffixes[i])
  }

  /** Some class value of `e`, lower-cased, contains `word`. */
  predicate ClassContains(e: Element, word: string)
  {
    exists i :: 0 <= i < |e.classes| && Contains(Lower(e.classes[i]), word)
  }

  /** The lower-cased `id` of `e` contains `word`. */
  predicate IdContains(e: Element, word: string)
  {
    Contains(Lower(Attr(e.attrs, "id")), word)
  }

  /** The lower-cased `alt` text of `e`. */
  function AltText(e: Element): string
  {
    Lower(Attr(e.attrs, "alt"))
  }

  /** The element's own signals: an indicator in a class or the id, or a logo word in the alt text. */
  predicate ElementSuggestsLogo(e: Element)
  {
    (exists k :: 0 <= k < |LogoIndicators| && (ClassContains(e, LogoIndicators[k]) || IdContains(e, LogoIndicators[k])))
    || AnyContains(AltText(e), AltLogoWords)
  }

  /**
   * `is_likely_logo(url, element)`: an indicator word in the URL suffices; an
   * image file name needs a supplied element that suggests a logo; nothing
   * else passes, and an empty URL never does.
   */
  predicate IsLikelyLogo(url: string, element: Option<Element>)
    ensures url == "" ==> !IsLikelyLogo(url, element)
    ensures url != "" && AnyContains(Lower(url), LogoIndicators) ==> IsLikelyLogo(url, element)
    ensures (url != "" && AnyEndsWith(Lower(url), ImageExtensions) && element.Some? &&
             ElementSuggestsLogo(element.value)) ==> IsLikelyLogo(url, element)
    ensures IsLikelyLogo(url, element) && !AnyContains(Lower(url), LogoIndicators) ==>
              AnyEndsWith(Lower(url), ImageExtensions) && element.Some? && ElementSuggestsLogo(element.value)
    ensures element.None? ==> (IsLikelyLogo(url, element) <==> url != "" && AnyContains(Lower(url), LogoIndicators))
  {
    url != "" &&
    (AnyContains(Lower(url), LogoIndicators) ||
     (AnyEndsWith(Lower(url), ImageExtensions) && element.Some? && ElementSuggestsLogo(element.value)))
  }

  /** The pre-filter ignores the case of the URL. */
  lemma IsLikelyLogoIgnoresCase(url: string, element: Option<Element>)
    ensures IsLikelyLogo(Lower(url), element) == IsLikelyLogo(url, element)
  {
    LowerIdempotent(url);
  }

  /** An indicator occurring anywhere in the URL, in any case, makes it a likely logo. */
  lemma IndicatorInUrl(url: string, element: Option<Element>, k: nat, i: nat)
    requires k < |LogoIndicators| && OccursAt(Lower(url), LogoIndicators[k], i)
    ensures IsLikelyLogo(url, element)
  {
    ContainsIff(Lower(url), LogoIndicators[k]);
  }

  /** The parent of `e` is a `header`. */
  predicate InHeader(e: Element)
  {
    e.parent.Some? && e.parent.value.name == "header"
  }

  /** The parent of `e` is an `a` linking to the site root `/`. */
  predicate LinksToRoot(e: Element)
  {
    e.parent.Some? && e.parent.value.name == "a" && Attr(e.parent.value.attrs, "href") == "/"
  }

  /** "logo" in a class value or in the id. */
  predicate MarkedLogo(e: Element)
  {
    ClassContains(e, "logo") || IdContains(e, "logo")
  }

  /**
   * The score of an image candidate: 5 for "logo" in the alt text, 3 for
   * "brand", "company" or "site" in it, 3 under a `header`, 4 under an `a`
   * linking to `/`, and 5 for "logo" in a class or the id.
   */
  function ImageScore(e: Element): (r: nat)
    ensures r <= 17
    ensures r == 0 <==>
              !Contains(AltText(e), "logo") && !AnyContains(AltText(e), AltBrandWords) &&
              !InHeader(e) && !LinksToRoot(e) && !MarkedLogo(e)
    ensures r == 17 <==>
              Contains(AltText(e), "logo") && AnyContains(AltText(e), AltBrandWords) &&
              LinksToRoot(e) && MarkedLogo(e)
    ensures Contains(AltText(e), "logo") && MarkedLogo(e) ==> r >= 10
  {
    (if Contains(AltText(e), "logo") then 5 else 0)
    + (if AnyContains(AltText(e), AltBrandWords) then 3 else 0)
    + (if InHeader(e) then 3 else 0)
    + (if LinksToRoot(e) then 4 else 0)
    + (if MarkedLogo(e) then 5 else 0)
  }
}
