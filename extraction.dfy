/**
 * Candidate extraction of `find_logo_in_soup`: four passes over the document
 * (images, `svg` logos inside links, the `og:image` preview, icon links), as
 * specification functions and as the imperative accumulate-then-select method.
 */
module Extraction {
  import opened Wrappers
  import opened Strings
  import opened Urls
  import opened Page
  import opened Ranking

  const IconRels: seq<string> := ["icon", "shortcut icon", "apple-touch-icon"]

  /** The passes that look at every element of one kind. */
  datatype Pass = ImagePass | SvgPass | IconPass

  /** An `img` with a `src` whose normalised URL passes the pre-filter, scored by the additive table. */
  function ImageCandidate(e: Element, base: string): Option<Candidate>
  {
    var src := Attr(e.attrs, "src");
    if e.tag == "img" && src != "" then
      var url := NormalizeUrl(src, base).value;
      if IsLikelyLogo(url, Some(e)) then Some(Candidate(url, ImageScore(e))) else None
    else None
  }

  /**
   * An element yields an image candidate exactly when it is an `img` with a
   * non-empty `src` whose absolute URL passes the pre-filter; the candidate
   * carries that URL and the image score.
   */
  lemma ImageCandidateIff(e: Element, base: string)
    ensures ImageCandidate(e, base).Some? <==>
              e.tag == "img" && Attr(e.attrs, "src") != "" &&
              IsLikelyLogo(NormalizeUrl(Attr(e.attrs, "src"), base).value, Some(e))
    ensures ImageCandidate(e, base).Some? ==>
              ImageCandidate(e, base).value.url == NormalizeUrl(Attr(e.attrs, "src"), base).value &&
              ImageCandidate(e, base).value.url != "" &&
              ImageCandidate(e, base).value.score == ImageScore(e) <= 17
  {
  }

  /** An `svg` with "logo" in a class, inside an `a` with an `href`: that link, flat score 2. */
  function SvgCandidate(e: Element, base: string): Option<Candidate>
  {
    if e.tag == "svg" && ClassContains(e, "logo") && e.anchor.Some? && Attr(e.anchor.value.attrs, "href") != "" then
      Some(Candidate(NormalizeUrl(Attr(e.anchor.value.attrs, "href"), base).value, 2))
    else None
  }

  /**
   * An element yields an svg candidate exactly when it is an `svg` with "logo"
   * in a class inside a link with a non-empty `href`; the candidate is that
   * link's absolute URL with score 2.
   */
  lemma SvgCandidateIff(e: Element, base: string)
    ensures SvgCandidate(e, base).Some? <==>
              e.tag == "svg" && ClassContains(e, "logo") && e.anchor.Some? && Attr(e.anchor.value.attrs, "href") != ""
    ensures SvgCandidate(e, base).Some? ==>
              SvgCandidate(e, base).value.url == NormalizeUrl(Attr(e.anchor.value.attrs, "href"), base).value &&
              SvgCandidate(e, base).value.url != "" && SvgCandidate(e, base).value.score == 2
  {
  }

  /** A `link` whose `rel` names an icon and which has an `href`: flat score 2. */
  function IconCandidate(e: Element, base: string): Option<Candidate>
  {
    if e.tag == "link" && (exists i :: 0 <= i < |e.rels| && e.rels[i] in IconRels) && Attr(e.attrs, "href") != "" then
      Some(Candidate(NormalizeUrl(Attr(e.attrs, "href"), base).value, 2))
    else None
  }

  /**
   * An element yields an icon candidate exactly when it is a `link` with an
   * icon `rel` value and a non-empty `href`; the candidate is that absolute
   * URL with score 2.
   */
  lemma IconCandidateIff(e: Element, base: string)
    ensures IconCandidate(e, base).Some? <==>
              e.tag == "link" && (exists i :: 0 <= i < |e.rels| && e.rels[i] in IconRels) && Attr(e.attrs, "href") != ""
    ensures IconCandidate(e, base).Some? ==>
              IconCandidate(e, base).value.url == NormalizeUrl(Attr(e.attrs, "href"), base).value &&
              IconCandidate(e, base).value.url != "" && IconCandidate(e, base).value.score == 2
  {
  }

  function PassCandidate(p: Pass, e: Element, base: string): Option<Candidate>
  {
    match p
    case ImagePass => ImageCandidate(e, base)
    case SvgPass => SvgCandidate(e, base)
    case IconPass => IconCandidate(e, base)
  }

  /** What a pass makes of each element, position by position. */
  function Emit(p: Pass, doc: Document, base: string): (os: seq<Option<Candidate>>)
    ensures |os| == |doc|
    ensures forall i :: 0 <= i < |doc| ==> os[i] == PassCandidate(p, doc[i], base)
  {
    seq(|doc|, i requires 0 <= i < |doc| => PassCandidate(p, doc[i], base))
  }

  /** The candidates present in `os`, in order. */
  function Collect(os: seq<Option<Candidate>>): seq<Candidate>
  {
    if os == [] then [] else Collect(os[..|os| - 1]) + OptionToSeq(os[|os| - 1])
  }

  /** The candidates one pass appends, in document order. */
  function Gather(p: Pass, doc: Document, base: string): seq<Candidate>
  {
    Collect(Emit(p, doc, base))
  }

  predicate IsPreviewMeta(e: Element)
  {
    e.tag == "meta" && Attr(e.attrs, "property") == "og:image"
  }

  /** `soup.find('meta', property='og:image')`: the first such element of the document. */
  function FirstPreviewMeta(doc: Document): (r: Option<Element>)
    ensures r.None? <==> forall k :: 0 <= k < |doc| ==> !IsPreviewMeta(doc[k])
    ensures r.Some? ==>
              exists k :: 0 <= k < |doc| && doc[k] == r.value && IsPreviewMeta(doc[k]) &&
                forall j :: 0 <= j < k ==> !IsPreviewMeta(doc[j])
  {
    if doc == [] then None
    else if IsPreviewMeta(doc[0]) then Some(doc[0])
    else
      var r := FirstPreviewMeta(doc[1..]);
      assert forall k :: 1 <= k < |doc| ==> doc[k] == doc[1..][k - 1];
      r
  }

  /** The preview image, flat score 3, when the first `og:image` tag has a `content`. */
  function PreviewCandidate(doc: Document, base: string): Option<Candidate>
  {
    match FirstPreviewMeta(doc)
    case Some(m) =>
      if Attr(m.attrs, "content") != "" then Some(Candidate(NormalizeUrl(Attr(m.attrs, "content"), base).value, 3))
      else None
    case None => None
  }

  /**
   * There is a preview candidate exactly when the first `og:image` tag has a
   * non-empty content; it is that content's absolute URL with score 3.
   */
  lemma PreviewCandidateIff(doc: Document, base: string)
    ensures PreviewCandidate(doc, base).Some? <==>
              FirstPreviewMeta(doc).Some? && Attr(FirstPreviewMeta(doc).value.attrs, "content") != ""
    ensures PreviewCandidate(doc, base).Some? ==>
              PreviewCandidate(doc, base).value.url ==
                NormalizeUrl(Attr(FirstPreviewMeta(doc).value.attrs, "content"), base).value &&
              PreviewCandidate(doc, base).value.url != "" && PreviewCandidate(doc, base).value.score == 3
  {
  }

  function OptionToSeq(o: Option<Candidate>): seq<Candidate>
  {
    match o case Some(c) => [c] case None => []
  }

  /** The candidates that skip the pre-filter: svg logos, then the preview, then icons. */
  function Fallbacks(doc: Document, base: string): seq<Candidate>
  {
    Gather(SvgPass, doc, base) + OptionToSeq(PreviewCandidate(doc, base)) + Gather(IconPass, doc, base)
  }

  /**
   * The candidate list in the order it is built: images first, then the
   * fallbacks. An element has one tag, so at most one pass accepts it, and the
   * preview adds at most one more.
   */
  function Candidates(doc: Document, base: string): (cs: seq<Candidate>)
    ensures |cs| <= |doc| + 1
  {
    OnePassPerElement(doc, base);
    Gather(ImagePass, doc, base) + Fallbacks(doc, base)
  }

  /** An element yields a candidate in at most one of the three passes. */
  lemma OnePassPerTag(e: Element, base: string)
    ensures |OptionToSeq(ImageCandidate(e, base))| + |OptionToSeq(SvgCandidate(e, base))| +
            |OptionToSeq(IconCandidate(e, base))| <= 1
  {
  }

  /** The three element passes together yield at most one candidate per element. */
  lemma {:induction false} OnePassPerElement(doc: Document, base: string)
    ensures |Gather(ImagePass, doc, base)| + |Gather(SvgPass, doc, base)| + |Gather(IconPass, doc, base)| <= |doc|
    decreases |doc|
  {
    if doc != [] {
      var n := |doc| - 1;
      OnePassPerElement(doc[..n], base);
      GatherStep(ImagePass, doc, n, base);
      GatherStep(SvgPass, doc, n, base);
      GatherStep(IconPass, doc, n, base);
      OnePassPerTag(doc[n], base);
      assert doc[..n + 1] == doc;
    }
  }

  /** The URL `find_logo_in_soup` returns. */
  function FindLogo(doc: Document, base: string): (r: Option<string>)
    ensures r.None? <==> Candidates(doc, base) == []
    ensures r.Some? ==> r.value == Candidates(doc, base)[BestIndex(Candidates(doc, base))].url
    ensures r.Some? ==> r.value != ""
  {
    var cs := Candidates(doc, base);
    if cs == [] then PickBest(cs)
    else
      SortedHeadIsBest(cs);
      CandidateBounds(doc, base);
      assert cs[BestIndex(cs)] in cs;
      PickBest(cs)
  }

  /** Collecting two stretches is collecting the first, then the second. */
  lemma {:induction false} CollectAppend(a: seq<Option<Candidate>>, b: seq<Option<Candidate>>)
    ensures Collect(a + b) == Collect(a) + Collect(b)
    decreases |b|
  {
    if b == [] {
      assert a + b == a;
    } else {
      var ab, last := a + b, OptionToSeq(b[|b| - 1]);
      assert ab[..|ab| - 1] == a + b[..|b| - 1];
      assert Collect(ab) == Collect(a + b[..|b| - 1]) + last;
      CollectAppend(a, b[..|b| - 1]);
      assert Collect(b) == Collect(b[..|b| - 1]) + last;
    }
  }

  /** The candidates collected are exactly the ones present. */
  lemma {:induction false} CollectMember(os: seq<Option<Candidate>>, c: Candidate)
    ensures c in Collect(os) <==> Some(c) in os
    decreases |os|
  {
    if os != [] {
      var init := os[..|os| - 1];
      assert os == init + [os[|os| - 1]];
      CollectMember(init, c);
    }
  }

  /** A pass's candidates are exactly those of the elements it accepts. */
  lemma GatherMember(p: Pass, doc: Document, base: string, c: Candidate)
    ensures c in Gather(p, doc, base) <==> exists e :: e in doc && PassCandidate(p, e, base) == Some(c)
  {
    var os := Emit(p, doc, base);
    CollectMember(os, c);
    if Some(c) in os {
      var i :| 0 <= i < |os| && os[i] == Some(c);
      assert doc[i] in doc;
    }
  }

  /** A pass over two stretches of a document yields the first stretch's candidates, then the second's. */
  lemma GatherAppend(p: Pass, d1: Document, d2: Document, base: string)
    ensures Gather(p, d1 + d2, base) == Gather(p, d1, base) + Gather(p, d2, base)
  {
    var e, e1, e2 := Emit(p, d1 + d2, base), Emit(p, d1, base), Emit(p, d2, base);
    assert forall i :: 0 <= i < |e| ==> e[i] == (e1 + e2)[i] by {
      forall i | 0 <= i < |e| ensures e[i] == (e1 + e2)[i] {
        if i < |d1| { assert (d1 + d2)[i] == d1[i]; } else { assert (d1 + d2)[i] == d2[i - |d1|]; }
      }
    }
    assert e == e1 + e2;
    CollectAppend(e1, e2);
  }

  /** One more element adds what the pass makes of it, at the end. */
  lemma GatherStep(p: Pass, doc: Document, i: nat, base: string)
    requires i < |doc|
    ensures Gather(p, doc[..i + 1], base) == Gather(p, doc[..i], base) + OptionToSeq(PassCandidate(p, doc[i], base))
  {
    var os := Emit(p, doc[..i + 1], base);
    assert os[..i] == Emit(p, doc[..i], base);
  }

  /**
   * Where candidates come from: an image candidate is a non-empty `src` that
   * passes the pre-filter after normalisation, scored by the table; an svg
   * candidate is the normalised `href` of the enclosing link of an `svg` with
   * "logo" in a class, not the `svg` itself.
   */
  lemma CandidateSources(doc: Document, base: string)
    ensures forall c :: c in Gather(ImagePass, doc, base) ==>
              exists e :: e in doc && e.tag == "img" && Attr(e.attrs, "src") != "" &&
                c.url == NormalizeUrl(Attr(e.attrs, "src"), base).value &&
                IsLikelyLogo(c.url, Some(e)) && c.score == ImageScore(e)
    ensures forall c :: c in Gather(SvgPass, doc, base) ==>
              exists e :: e in doc && e.tag == "svg" && ClassContains(e, "logo") && e.anchor.Some? &&
                Attr(e.anchor.value.attrs, "href") != "" &&
                c.url == NormalizeUrl(Attr(e.anchor.value.attrs, "href"), base).value
  {
    forall c | c in Gather(ImagePass, doc, base)
      ensures exists e :: e in doc && e.tag == "img" && Attr(e.attrs, "src") != "" &&
                c.url == NormalizeUrl(Attr(e.attrs, "src"), base).value &&
                IsLikelyLogo(c.url, Some(e)) && c.score == ImageScore(e)
    {
      GatherMember(ImagePass, doc, base, c);
      var e :| e in doc && PassCandidate(ImagePass, e, base) == Some(c);
      assert ImageCandidate(e, base) == Some(c);
    }
    forall c | c in Gather(SvgPass, doc, base)
      ensures exists e :: e in doc && e.tag == "svg" && ClassContains(e, "logo") && e.anchor.Some? &&
                Attr(e.anchor.value.attrs, "href") != "" &&
                c.url == NormalizeUrl(Attr(e.anchor.value.attrs, "href"), base).value
    {
      GatherMember(SvgPass, doc, base, c);
      var e :| e in doc && PassCandidate(SvgPass, e, base) == Some(c);
      assert SvgCandidate(e, base) == Some(c);
    }
  }

  /** Every candidate has a non-empty URL and a score of at most 17. */
  lemma CandidateBounds(doc: Document, base: string)
    ensures forall c :: c in Candidates(doc, base) ==> c.url != "" && c.score <= 17
  {
    forall p: Pass, c | c in Gather(p, doc, base)
      ensures c.url != "" && c.score <= 17
    {
      GatherMember(p, doc, base, c);
      var e :| e in doc && PassCandidate(p, e, base) == Some(c);
      match p
      case ImagePass => ImageCandidateIff(e, base);
      case SvgPass => SvgCandidateIff(e, base);
      case IconPass => IconCandidateIff(e, base);
    }
    PreviewCandidateIff(doc, base);
  }

  /** The svg logos and icons score a flat 2 and the preview a flat 3. */
  lemma FallbackScores(doc: Document, base: string)
    ensures forall c :: c in Gather(SvgPass, doc, base) ==> c.score == 2
    ensures forall c :: c in Gather(IconPass, doc, base) ==> c.score == 2
    ensures forall c :: c in OptionToSeq(PreviewCandidate(doc, base)) ==> c.score == 3
    ensures forall c :: c in Fallbacks(doc, base) ==> c.score <= 3
  {
    forall p: Pass, c | p != ImagePass && c in Gather(p, doc, base)
      ensures c.score == 2
    {
      GatherMember(p, doc, base, c);
    }
  }

  /**
   * An image candidate with "logo" in both its alt text and a class or the id
   * (score at least 10) outranks every fallback (score at most 3), so the
   * chosen URL is that of an image candidate.
   */
  lemma MarkedImageWins(doc: Document, base: string, e: Element)
    requires e in doc && ImageCandidate(e, base).Some?
    requires Contains(AltText(e), "logo") && MarkedLogo(e)
    ensures FindLogo(doc, base).Some?
    ensures exists e' :: e' in doc && ImageCandidate(e', base).Some? &&
                         FindLogo(doc, base) == Some(ImageCandidate(e', base).value.url)
  {
    var c := ImageCandidate(e, base).value;
    MarkedImageScore(e, base);
    GatherMember(ImagePass, doc, base, c);
    var best := ImageOutranksFallbacks(doc, base, c);
    GatherMember(ImagePass, doc, base, best);
  }

  /** "logo" in the alt text and in a class or the id score an image candidate at least 10. */
  lemma MarkedImageScore(e: Element, base: string)
    requires ImageCandidate(e, base).Some?
    requires Contains(AltText(e), "logo") && MarkedLogo(e)
    ensures ImageCandidate(e, base).value.score >= 10
  {
    assert ImageCandidate(e, base).value.score == ImageScore(e);
  }

  /** An image candidate scoring above 3 makes the chosen logo that of an image candidate. */
  lemma ImageOutranksFallbacks(doc: Document, base: string, c: Candidate) returns (best: Candidate)
    requires c in Gather(ImagePass, doc, base) && c.score > 3
    ensures best in Gather(ImagePass, doc, base) && FindLogo(doc, base) == Some(best.url)
  {
    var imgs, rest := Gather(ImagePass, doc, base), Fallbacks(doc, base);
    var cs := imgs + rest;
    FallbackScores(doc, base);
    assert forall j :: 0 <= j < |rest| ==> rest[j].score < c.score by {
      assert forall j :: 0 <= j < |rest| ==> rest[j] in rest;
    }
    BestInFront(imgs, rest, c);
    var k := BestIndex(cs);
    best := cs[k];
    assert best == imgs[k];
    SortedHeadIsBest(cs);
    assert FindLogo(doc, base) == Some(SortByScoreDesc(cs)[0].url);
  }

  /**
   * A document with no `img`, `svg` or `link` element yields its preview image
   * if the first `og:image` tag has a content, and no logo otherwise.
   */
  lemma PreviewOnly(doc: Document, base: string)
    requires forall k :: 0 <= k < |doc| ==> doc[k].tag != "img" && doc[k].tag != "svg" && doc[k].tag != "link"
    ensures FindLogo(doc, base) ==
              match PreviewCandidate(doc, base) case Some(c) => Some(c.url) case None => None
  {
    forall p: Pass ensures Gather(p, doc, base) == [] {
      if Gather(p, doc, base) != [] {
        GatherMember(p, doc, base, Gather(p, doc, base)[0]);
      }
    }
  }

  /** The running score of an image, summed up as the additive table says. */
  method ScoreImage(img: Element) returns (score: nat)
    ensures score == ImageScore(img)
  {
    score := 0;
    var altText := Lower(Attr(img.attrs, "alt"));
    if Contains(altText, "logo") {
      score := score + 5;
    }
    if AnyContains(altText, AltBrandWords) {
      score := score + 3;
    }
    if img.parent.Some? && img.parent.value.name == "header" {
      score := score + 3;
    }
    if img.parent.Some? && img.parent.value.name == "a" && Attr(img.parent.value.attrs, "href") == "/" {
      score := score + 4;
    }
    if ClassContains(img, "logo") || IdContains(img, "logo") {
      score := score + 5;
    }
  }

  /** One turn of the loop over the images: a `src`, the pre-filter on its normalised URL, the score. */
  method ImageStep(img: Element, base: string) returns (candidate: Option<Candidate>)
    ensures candidate == ImageCandidate(img, base)
  {
    candidate := None;
    var src := Attr(img.attrs, "src");
    if img.tag == "img" && src != "" {
      var absoluteUrl := NormalizeUrl(src, base).value;
      if IsLikelyLogo(absoluteUrl, Some(img)) {
        var score := ScoreImage(img);
        candidate := Some(Candidate(absoluteUrl, score));
      }
    }
  }

  /** The loop over `soup.find_all('img')`. */
  method AppendImages(candidates: seq<Candidate>, doc: Document, base: string) returns (r: seq<Candidate>)
    ensures r == candidates + Gather(ImagePass, doc, base)
  {
    r := candidates;
    var i := 0;
    while i < |doc|
      invariant 0 <= i <= |doc|
      invariant r == candidates + Gather(ImagePass, doc[..i], base)
    {
      var candidate := ImageStep(doc[i], base);
      if candidate.Some? {
        r := r + [candidate.value];
      }
      GatherStep(ImagePass, doc, i, base);
      i := i + 1;
    }
    assert doc[..|doc|] == doc;
  }

  /** One turn of the loop over the svgs: "logo" in a class, then an enclosing link with an `href`. */
  method SvgStep(svg: Element, base: string) returns (candidate: Option<Candidate>)
    ensures candidate == SvgCandidate(svg, base)
  {
    candidate := None;
    if svg.tag == "svg" && ClassContains(svg, "logo") {
      if svg.anchor.Some? && Attr(svg.anchor.value.attrs, "href") != "" {
        var href := NormalizeUrl(Attr(svg.anchor.value.attrs, "href"), base).value;
        candidate := Some(Candidate(href, 2));
      }
    }
  }

  /** The loop over `soup.find_all('svg')`. */
  method AppendSvgLogos(candidates: seq<Candidate>, doc: Document, base: string) returns (r: seq<Candidate>)
    ensures r == candidates + Gather(SvgPass, doc, base)
  {
    r := candidates;
    var i := 0;
    while i < |doc|
      invariant 0 <= i <= |doc|
      invariant r == candidates + Gather(SvgPass, doc[..i], base)
    {
      var candidate := SvgStep(doc[i], base);
      if candidate.Some? {
        r := r + [candidate.value];
      }
      GatherStep(SvgPass, doc, i, base);
      i := i + 1;
    }
    assert doc[..|doc|] == doc;
  }

  /** The `og:image` step: at most one candidate, from the first matching `meta` tag. */
  method AppendPreview(candidates: seq<Candidate>, doc: Document, base: string) returns (r: seq<Candidate>)
    ensures r == candidates + OptionToSeq(PreviewCandidate(doc, base))
    ensures |candidates| <= |r| <= |candidates| + 1
  {
    r := candidates;
    var meta := FirstPreviewMeta(doc);
    if meta.Some? && Attr(meta.value.attrs, "content") != "" {
      var logoUrl := NormalizeUrl(Attr(meta.value.attrs, "content"), base).value;
      r := r + [Candidate(logoUrl, 3)];
    }
  }

  /** One turn of the loop over the links: an icon `rel`, then a non-empty `href`. */
  method IconStep(link: Element, base: string) returns (candidate: Option<Candidate>)
    ensures candidate == IconCandidate(link, base)
  {
    candidate := None;
    if link.tag == "link" && (exists j :: 0 <= j < |link.rels| && link.rels[j] in IconRels) {
      var href := Attr(link.attrs, "href");
      if href != "" {
        var logoUrl := NormalizeUrl(href, base).value;
        candidate := Some(Candidate(logoUrl, 2));
      }
    }
  }

  /** The loop over `soup.find_all('link')`. */
  method AppendIcons(candidates: seq<Candidate>, doc: Document, base: string) returns (r: seq<Candidate>)
    ensures r == candidates + Gather(IconPass, doc, base)
  {
    r := candidates;
    var i := 0;
    while i < |doc|
      invariant 0 <= i <= |doc|
      invariant r == candidates + Gather(IconPass, doc[..i], base)
    {
      var candidate := IconStep(doc[i], base);
      if candidate.Some? {
        r := r + [candidate.value];
      }
      GatherStep(IconPass, doc, i, base);
      i := i + 1;
    }
    assert doc[..|doc|] == doc;
  }

  /** The first half of `find_logo_in_soup`: the four passes, appending to one list. */
  method ExtractCandidates(doc: Document, base: string) returns (candidates: seq<Candidate>)
    ensures candidates == Candidates(doc, base)
  {
    candidates := AppendImages([], doc, base);
    candidates := AppendSvgLogos(candidates, doc, base);
    candidates := AppendPreview(candidates, doc, base);
    candidates := AppendIcons(candidates, doc, base);
    Regroup(Gather(ImagePass, doc, base), Gather(SvgPass, doc, base),
            OptionToSeq(PreviewCandidate(doc, base)), Gather(IconPass, doc, base));
  }

  /**
   * Regrouping the four appended lists as images followed by fallbacks. Stated
   * over plain sequences, where it is cheap: over the pass functions it is not.
   */
  lemma Regroup(a: seq<Candidate>, b: seq<Candidate>, c: seq<Candidate>, d: seq<Candidate>)
    ensures [] + a + b + c + d == a + (b + c + d)
  {
  }

  /**
   * `find_logo_in_soup(soup, base_url)`: sorts the extracted candidates by
   * descending score and returns the head's URL: no URL exactly when there is
   * no candidate, otherwise that of the earliest candidate of maximal score.
   */
  method FindLogoInSoup(doc: Document, base: string) returns (logo: Option<string>)
    ensures logo == FindLogo(doc, base)
    ensures logo.None? <==> Candidates(doc, base) == []
    ensures logo.Some? ==>
              var cs := Candidates(doc, base);
              logo.value == cs[BestIndex(cs)].url
  {
    var candidates := ExtractCandidates(doc, base);
    if |candidates| > 0 {
      SortedHeadIsBest(candidates);
      candidates := SortByScoreDesc(candidates);
      logo := Some(candidates[0].url);
    } else {
      logo := None;
    }
  }
}
