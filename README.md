# Logo scraper: a verified model of its logo-selection core

The logo scraper reads a list of company websites, fetches each home page and
picks the URL of the image most likely to be the company's logo. It writes one
record per site: the site, the logo URL if one was found, and a status.

This project models the part of the scraper that makes decisions:

- how a URL found on a page is made absolute (`normalize_url`);
- the pre-filter `is_likely_logo`, which decides whether an image URL might be a logo;
- how `find_logo_in_soup` collects candidates from the page, scores them and chooses one;
- how `scrape_website` adds a scheme to a bare site name and turns each outcome into a status;
- the result loop of `run`, and its count of sites that yielded a logo.

The network, the HTML parser and the thread pool are outside the model. They
appear as inputs:

- a fetched page is a sequence of elements in document order;
- a failed fetch is an outcome value;
- the order in which the workers finish is a permutation of the sites.

Modules:

- `Wrappers`: `Option`.
- `Strings`: ASCII lower-casing, prefix, suffix and substring tests.
- `Urls`: the scheme `urlparse` reports, relative resolution standing for `urljoin` (RFC 3986 section 5.2.2), and `NormalizeUrl`.
- `Page`: the element model, the pre-filter `IsLikelyLogo` and the image score `ImageScore`.
- `Ranking`: the stable descending sort by score, and the candidate it puts first.
- `Extraction`: the four candidate passes, defined as functions (`Candidates`, `FindLogo`). Also the loops that build the list, as methods proved equal to those functions.
- `Scraper`: `ScrapeWebsite`, the per-task record, the success count, and the `Run` method.

Candidate URLs are resolved against the requested site with its scheme added
(`find_logo_in_soup(soup, website)`, logo_scraper.py:179), not against the
final URL after redirects. The model does the same.

## Model

| member | source | states |
|---|---|---|
| Strings.Lower | logo_scraper.py:69 | Lower-casing keeps the length and works character by character. No ASCII capital is left, and every other character is unchanged. |
| Strings.Contains | logo_scraper.py:71 | The empty string is contained in every string, and a contained string is no longer than the string containing it; one of equal length is the string itself. |
| Strings.ContainsIff | logo_scraper.py:71 | The scan finds a string exactly when it occurs at some position. |
| Urls.UrlScheme | logo_scraper.py:57 | A non-empty scheme is the lower-cased text before the first `:`. It starts with a letter and holds only scheme characters. |
| Urls.SchemeBeforeFirstColon | logo_scraper.py:57 | Conversely, when the text before the first `:` is non-empty, starts with a letter and holds only scheme characters, the scheme is that text lower-cased. |
| Urls.HttpScheme | logo_scraper.py:57-58 | An `http://` URL has scheme `http` and an `https://` URL has scheme `https`. |
| Urls.UrlJoin | logo_scraper.py:60-61 | An empty base gives back the reference. A reference with its own scheme is returned unchanged. Otherwise the result is at least as long as the reference; this bound holds for the simplified resolver only (see Left out). |
| Urls.JoinKeepsBase | logo_scraper.py:60-61 | Against an `http(s)://` base, a reference without a scheme resolves to a URL with the base's prefix. If the reference does not start with `//`, the result also keeps the base's scheme and authority. |
| Urls.NormalizeUrl | logo_scraper.py:52-63 | Returns no URL exactly when the input is empty. A `//` URL gets the base's scheme and `:` in front. An `http(s)://` URL is unchanged. Anything else is joined to the base. The result is non-empty, and no shorter than the input; the length bound comes from the simplified resolver (see Left out). |
| Urls.NormalizeProtocolRelative | logo_scraper.py:56-58 | A `//host/x` URL becomes `http://host/x` or `https://host/x`, following the base's prefix. |
| Urls.ProtocolRelativeBecomesHttp | logo_scraper.py:56-58 | Against an `http(s)://` base, a protocol-relative URL normalises to an `http(s)://` URL. |
| Urls.NormalizeIdempotent | logo_scraper.py:52-63 | Against an `http(s)://` base, normalising a normalised URL changes nothing. This holds for every input URL. |
| Page.IsLikelyLogo | logo_scraper.py:65-91 | An empty URL never passes. A URL containing an indicator word passes, in any case. Without an indicator, a URL passes if and only if it has an image extension and a supplied element suggests a logo (class, id or alt text). With no element, only the indicator test counts. |
| Page.IsLikelyLogoIgnoresCase | logo_scraper.py:69 | Lower-casing the URL first does not change the verdict. |
| Page.IndicatorInUrl | logo_scraper.py:70-72 | An indicator word anywhere in the lower-cased URL makes it a likely logo, whatever the element. |
| Page.ImageScore | logo_scraper.py:103-122 | The score is at most 17. It is 0 exactly when no signal is present. It is 17 exactly when all four compatible signals are present (the header and root-link signals exclude each other). "logo" in both the alt text and a class or the id gives at least 10. |
| Ranking.Insert | logo_scraper.py:154 | Inserting into a list sorted by descending score keeps it sorted and is a permutation of the list plus the new candidate. The head of the result is the new candidate when it scores at least as much as the old head, and the old head otherwise. |
| Ranking.InsertPlacement | logo_scraper.py:154 | The new candidate lands at a position p: every candidate before p scores strictly more, every candidate from p on (ties included) scores no more, and both stretches keep their order. |
| Ranking.SortByScoreDesc | logo_scraper.py:154 | The result is sorted by descending score and is a permutation of the input. |
| Ranking.BestIndex | logo_scraper.py:153-155 | Returns a position of maximal score with every earlier candidate scoring strictly less, i.e. the first maximum. |
| Ranking.BestInFront | logo_scraper.py:153-155 | If a candidate in the first part of the list outscores everything in the second part, the first maximum lies in the first part. |
| Ranking.SortedHeadIsBest | logo_scraper.py:154-155 | The head of the stable descending sort is the first candidate of maximal score. |
| Ranking.PickBest | logo_scraper.py:153-157 | Returns no URL exactly for an empty list. Otherwise it returns the URL of a maximal-score candidate, with no candidate of that score before it. |
| Extraction.ImageCandidateIff | logo_scraper.py:97-124 | An element yields an image candidate exactly when it is an `img` with a non-empty `src` whose normalised URL passes the pre-filter with that element. The candidate has that URL, which is non-empty, and the image score, at most 17. |
| Extraction.SvgCandidateIff | logo_scraper.py:127-135 | An element yields an svg candidate exactly when it is an `svg` with "logo" in a class inside a link with a non-empty `href`. The candidate is that `href` normalised, non-empty, with score 2. |
| Extraction.IconCandidateIff | logo_scraper.py:143-151 | An element yields an icon candidate exactly when it is a `link` with an icon `rel` value and a non-empty `href`. The candidate is that `href` normalised, non-empty, with score 2. |
| Extraction.PreviewCandidateIff | logo_scraper.py:137-140 | There is a preview candidate exactly when the first `og:image` tag has a non-empty content. It is that content normalised, non-empty, with score 3. |
| Extraction.Candidates | logo_scraper.py:94-151 | A page of n elements gives at most n+1 candidates: at most one per element, plus the preview. |
| Extraction.OnePassPerElement | logo_scraper.py:96-151 | An element has one tag, so the image, svg and link passes together accept each element at most once. |
| Extraction.FindLogo | logo_scraper.py:153-157 | No logo exactly when there is no candidate. Otherwise the logo is the URL of the first candidate of maximal score, and it is non-empty. |
| Extraction.FirstPreviewMeta | logo_scraper.py:137 | Returns nothing exactly when no `meta` tag has `property="og:image"`. Otherwise it returns the first such tag. |
| Extraction.GatherMember | logo_scraper.py:96-151 | A candidate is in a pass's list exactly when some element of the page yields it in that pass. |
| Extraction.GatherAppend | logo_scraper.py:96-151 | A pass over two concatenated parts of a page is the pass over the first part followed by the pass over the second, so candidates keep document order. |
| Extraction.CandidateSources | logo_scraper.py:96-135 | An image candidate comes from an `img` with a non-empty `src`. Its URL is that `src` normalised, the URL passes the pre-filter, and its score is the image score. An svg candidate is the normalised `href` of the nearest enclosing link of an `svg` with "logo" in a class. |
| Extraction.CandidateBounds | logo_scraper.py:96-151 | Every candidate has a non-empty URL and a score of at most 17. |
| Extraction.FallbackScores | logo_scraper.py:126-151 | Svg and icon candidates score 2 and the preview image scores 3. Every non-image candidate scores at most 3. |
| Extraction.MarkedImageWins | logo_scraper.py:103-122 | If an image candidate has "logo" in its alt text and in a class or the id, a logo is found and it is an image candidate. |
| Extraction.ImageOutranksFallbacks | logo_scraper.py:124-155 | If some image candidate scores above 3, the chosen logo is the URL of an image candidate. |
| Extraction.PreviewOnly | logo_scraper.py:137-140 | On a page with no `img`, `svg` or `link`, the result is the first `og:image` tag's content, normalised against the base, when it has one, and no logo otherwise. |
| Extraction.ScoreImage | logo_scraper.py:103-122 | The running sum over the five tests equals the image score. |
| Extraction.ImageStep | logo_scraper.py:97-124 | One pass of the image loop yields exactly the image candidate of that element. |
| Extraction.AppendImages | logo_scraper.py:96-124 | The image loop appends the image pass's candidates, in document order. |
| Extraction.SvgStep | logo_scraper.py:127-135 | One pass of the svg loop yields exactly the svg candidate of that element. |
| Extraction.AppendSvgLogos | logo_scraper.py:126-135 | The svg loop appends the svg pass's candidates, in document order. |
| Extraction.AppendPreview | logo_scraper.py:137-140 | Appends the preview candidate if there is one, so at most one candidate is added. |
| Extraction.IconStep | logo_scraper.py:143-151 | One pass of the link loop yields exactly the icon candidate of that element. |
| Extraction.AppendIcons | logo_scraper.py:142-151 | The link loop appends the icon pass's candidates, in document order. |
| Extraction.ExtractCandidates | logo_scraper.py:94-151 | The four passes together build the full candidate list: images, then svg logos, the preview image, then icons. |
| Extraction.FindLogoInSoup | logo_scraper.py:93-157 | Returns no logo exactly when there are no candidates. Otherwise it returns the URL of the first candidate of maximal score. |
| Scraper.StatusText | logo_scraper.py:182-191 | Every status text is non-empty. The text is `success` exactly for success and `no logo found` exactly for that status. Each error text ends with its detail. |
| Scraper.StatusTextInjective | logo_scraper.py:182-191 | Different statuses are written as different texts. |
| Scraper.WithScheme | logo_scraper.py:160-161 | The site to request always has an `http(s)://` prefix. A site that already has one is unchanged, and any other gets `https://` in front. |
| Scraper.ScrapeWebsite | logo_scraper.py:159-191 | The record names the prefixed site. A logo is present exactly in a `success` record. A parsed page gives `success` or `no logo found` (URL resolution does not fail in the model; see Left out), and `success` exactly when it has a candidate, with the chosen candidate as the logo. A request failure gives `request error` and any other failure gives `processing error`, each with its detail. |
| Scraper.SiteResult | logo_scraper.py:206-213 | A task that returned gives its own record. A task that raised gives the unprefixed site, no logo and `unhandled error` with the detail. |
| Scraper.Submitted | logo_scraper.py:204-213 | One record per submitted site, in submission order: each is the record of that site's task. |
| Scraper.SuccessCount | logo_scraper.py:223 | The count of records with a logo never exceeds the number of records. |
| Scraper.CountIndependentOfOrder | logo_scraper.py:203-223 | Reordering the records by a completion order leaves the success count unchanged. |
| Scraper.InCompletionOrder | logo_scraper.py:206-213 | The result loop appends one record per completed task, so position k holds the record of the k-th task to complete. |
| Scraper.Run | logo_scraper.py:193-230 | An empty site list gives failure and no records. Otherwise there is exactly one record per site, position k holding the record of the k-th task to complete. The result is whether saving succeeded. The success count equals the count over the records in submission order. |

## Left out

- Reading the site list (`read_websites`), CSV writing, logging, the progress bar and command-line parsing are I/O. `Run` takes the list and whether saving succeeded as inputs.
- The success rate printed with the count is floating point and is left out.
- The HTTP request, the request headers, the random user agent and the random delay are network, randomness or clocks. Their only effect on a record is the fetch outcome, which is an input.
- HTML parsing is left out. An element carries its tag, attributes, `class` and `rel` values, parent, and nearest enclosing `a`. `find_all` and `find` are filters over the document in order.
- An absent attribute reads as the empty string. Every test in the code treats a missing attribute and an empty one alike.
- Thread-pool concurrency is left out. Its only observable effect, the order of the records, is a permutation input to `Run`.
- Scraper.Run: the success count is returned even when saving fails, where the code computes it only after a successful save.
- Urls.UrlJoin: it is a simplified strict RFC 3986 resolver. It does not remove `.` and `..` segments. It does not collapse empty segments in a merged path. It keeps a bare `?` or `#`, which Python's resolver drops. For a bare `?` Python gives back the base with its own query: `urljoin("https://a.com/p?q=1", "?")` is `https://a.com/p?q=1`, where the model gives `https://a.com/p?`. It does not remove leading whitespace, or tab, CR and LF, from the reference. A reference that names the base's own scheme is returned as written. Python instead resolves a path-only one (`https:x`) relative to the base, and returns one with an authority with its scheme lower-cased (`HTTPS://cdn.example.com/logo.png` becomes `https://cdn.example.com/logo.png`).
- Urls.UrlJoin: it never fails. Python's `urljoin` raises `ValueError` when the reference's authority has an unmatched `[` or `]`, for example `x://[a/logo.png`. That raise escapes `find_logo_in_soup`, and `scrape_website` records `processing error` for the site. The model resolves such a reference like any other, so a page whose candidate would raise can give `success` in the model. A processing error enters the model only as the `Failed` fetch outcome.
- Urls.UrlJoin: the bound that the result is at least as long as the reference holds for the simplified resolver only. Python's `urljoin("https://a.com/", "./././././././././logo.png")` returns 22 characters for a 26-character reference.
- Urls.NormalizeUrl: the bound that the result is no shorter than the input inherits the same restriction from `UrlJoin`.
- Urls.UrlScheme: it does not strip the leading C0 control characters and spaces, or remove the tab, CR and LF characters, that Python's `urlsplit` removes first.
- Strings.Lower: it lower-cases ASCII letters only, not all Unicode letters as Python does.
- Ranking.SortByScoreDesc: the general sort is proved sorted and a permutation. Stability is proved only where the code relies on it: the head of the sorted list is the first maximum (`Ranking.SortedHeadIsBest`). The sort is a function on sequences rather than Python's in-place list sort.
