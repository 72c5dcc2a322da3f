/**
 * One site's scrape (`scrape_website`) and the batch run over all sites
 * (`run`). The network, the parser and the worker pool are outside the model:
 * each site's fetch arrives as an outcome, and the pool's completion order as
 * a permutation of the sites.
 */
module Scraper {
  import opened Wrappers
  import opened Strings
  import opened Urls
  import opened Page
  import opened Ranking
  import opened Extraction

  /** How fetching and parsing one site's home page ended. */
  datatype FetchOutcome =
    | Fetched(page: Document)          // a 2xx response, parsed into its elements
    | RequestFailed(detail: string)    // a request exception: connection, DNS, timeout, error status
    | Failed(detail: string)           // any other exception raised inside the fetch-and-extract block

  /** How a submitted task ended: the record it returned, or an exception that escaped it. */
  datatype TaskOutcome = Returned(fetch: FetchOutcome) | Raised(detail: string)

  /** The status column of a record. */
  datatype Status =
    | Success
    | NoLogoFound
    | RequestError(detail: string)
    | ProcessingError(detail: string)
    | UnhandledError(detail: string)

  /** The text written for a status. */
  function StatusText(s: Status): (r: string)
    ensures r != ""
    ensures s.Success? <==> r == "success"
    ensures s.NoLogoFound? <==> r == "no logo found"
    ensures s.RequestError? || s.ProcessingError? || s.UnhandledError? ==> EndsWith(r, s.detail)
  {
    match s
    case Success => "success"
    case NoLogoFound => "no logo found"
    case RequestError(d) => "request error: " + d
    case ProcessingError(d) => "processing error: " + d
    case UnhandledError(d) => "unhandled error: " + d
  }

  /** Distinct statuses are written as distinct texts, so the status column can be read back. */
  lemma StatusTextInjective(s: Status, t: Status)
    requires StatusText(s) == StatusText(t)
    ensures s == t
  {
    var a, b := StatusText(s), StatusText(t);
    assert a[0] == b[0];
    match s
    case RequestError(d) =>
      assert t.RequestError?;
      assert d == a[15..] == b[15..] == t.detail;
    case ProcessingError(d) =>
      assert t.ProcessingError?;
      assert d == a[18..] == b[18..] == t.detail;
    case UnhandledError(d) =>
      assert t.UnhandledError?;
      assert d == a[17..] == b[17..] == t.detail;
    case _ =>
  }

  /** One output row: the site as fetched, the logo URL if any, the status. */
  datatype ScrapeResult = ScrapeResult(website: string, logo: Option<string>, status: Status)

  /** The site to request: itself when it has an `http(s)://` prefix, otherwise with `https://` in front. */
  function WithScheme(website: string): (r: string)
    ensures IsHttpUrl(r)
    ensures IsHttpUrl(website) ==> r == website
    ensures !IsHttpUrl(website) ==> r == "https://" + website
  {
    if IsHttpUrl(website) then website
    else
      assert ("https://" + website)[..8] == "https://";
      "https://" + website
  }

  /**
   * `scrape_website(website)`: the request goes to the prefixed site; a parsed
   * page yields the logo chosen from its candidates, with `success` exactly
   * when there is a candidate; the two kinds of exception become the two error
   * statuses. A logo is present exactly in a `success` record.
   */
  function ScrapeWebsite(website: string, outcome: FetchOutcome): (r: ScrapeResult)
    ensures r.website == WithScheme(website)
    ensures r.logo.Some? <==> r.status == Success
    ensures r.status == Success || r.status == NoLogoFound <==> outcome.Fetched?
    ensures outcome.Fetched? ==> r.logo == FindLogo(outcome.page, WithScheme(website))
    ensures outcome.Fetched? ==> (r.status == Success <==> Candidates(outcome.page, WithScheme(website)) != [])
    ensures outcome.RequestFailed? ==> r.status == RequestError(outcome.detail)
    ensures outcome.Failed? ==> r.status == ProcessingError(outcome.detail)
  {
    var site := WithScheme(website);
    match outcome
    case Fetched(page) =>
      var logo := FindLogo(page, site);
      CandidateBounds(page, site);
      if logo.Some? && logo.value != "" then ScrapeResult(site, logo, Success)
      else ScrapeResult(site, None, NoLogoFound)
    case RequestFailed(d) => ScrapeResult(site, None, RequestError(d))
    case Failed(d) => ScrapeResult(site, None, ProcessingError(d))
  }

  /**
   * The record the result loop appends for one task: the returned record, or
   * for an escaped exception the unprefixed site with an `unhandled error`.
   */
  function SiteResult(website: string, task: TaskOutcome): (r: ScrapeResult)
    ensures r.logo.Some? <==> r.status == Success
    ensures task.Raised? ==> r == ScrapeResult(website, None, UnhandledError(task.detail))
    ensures task.Returned? ==> r == ScrapeWebsite(website, task.fetch)
  {
    match task
    case Returned(outcome) => ScrapeWebsite(website, outcome)
    case Raised(d) => ScrapeResult(website, None, UnhandledError(d))
  }

  /** The records in submission order. */
  function Submitted(websites: seq<string>, tasks: seq<TaskOutcome>): (rs: seq<ScrapeResult>)
    requires |tasks| == |websites|
    ensures |rs| == |websites|
    ensures forall i :: 0 <= i < |rs| ==> rs[i] == SiteResult(websites[i], tasks[i])
  {
    seq(|websites|, i requires 0 <= i < |websites| => SiteResult(websites[i], tasks[i]))
  }

  /** The number of records that carry a logo URL. */
  function SuccessCount(rs: seq<ScrapeResult>): (n: nat)
    ensures n <= |rs|
  {
    if rs == [] then 0 else (if rs[0].logo.Some? then 1 else 0) + SuccessCount(rs[1..])
  }

  /** Each of the `n` tasks completes exactly once: `order` lists the tasks in completion order. */
  predicate IsCompletionOrder(order: seq<nat>, n: nat)
  {
    && |order| == n
    && (forall k :: 0 <= k < n ==> order[k] < n)
    && (forall j, k :: 0 <= j < k < n ==> order[j] != order[k])
    && (forall i :: 0 <= i < n ==> i in order)
  }

  /** The positions, among those `idx` lists, of records that carry a logo. */
  function SuccessIndices(sub: seq<ScrapeResult>, idx: seq<nat>): set<nat>
  {
    set i | i in idx && i < |sub| && sub[i].logo.Some?
  }

  /** Counting records picked from `sub` by distinct positions counts the picked positions with a logo. */
  lemma {:induction false} CountPicked(rs: seq<ScrapeResult>, sub: seq<ScrapeResult>, idx: seq<nat>)
    requires |rs| == |idx|
    requires forall k :: 0 <= k < |idx| ==> idx[k] < |sub| && rs[k] == sub[idx[k]]
    requires forall j, k :: 0 <= j < k < |idx| ==> idx[j] != idx[k]
    ensures SuccessCount(rs) == |SuccessIndices(sub, idx)|
    decreases |idx|
  {
    if idx == [] {
      assert SuccessIndices(sub, idx) == {};
    } else {
      var rest, tail, i := idx[1..], rs[1..], idx[0];
      assert forall k :: 0 <= k < |rest| ==> rest[k] == idx[k + 1];
      assert forall k :: 0 <= k < |rest| ==> tail[k] == rs[k + 1];
      CountPicked(tail, sub, rest);
      assert i !in rest;
      assert idx == [i] + rest;
      IndicesCons(sub, i, rest);
      assert SuccessCount(rs) == (if rs[0].logo.Some? then 1 else 0) + SuccessCount(tail);
    }
  }

  /** The logo positions picked by `[i] + rest`: those picked by `rest`, and `i` if it has a logo. */
  lemma IndicesCons(sub: seq<ScrapeResult>, i: nat, rest: seq<nat>)
    requires i < |sub|
    ensures SuccessIndices(sub, [i] + rest) ==
              SuccessIndices(sub, rest) + (if sub[i].logo.Some? then {i} else {})
  {
  }

  /** The positions of all records of `sub` that carry a logo. */
  function AllSuccessIndices(sub: seq<ScrapeResult>): set<nat>
  {
    set i: nat | i < |sub| && sub[i].logo.Some?
  }

  /** Counting a sequence by its own positions: each record counted once. */
  lemma {:induction false} CountAll(sub: seq<ScrapeResult>)
    ensures SuccessCount(sub) == |AllSuccessIndices(sub)|
    decreases |sub|
  {
    if sub != [] {
      var n := |sub| - 1;
      var init := sub[..n];
      CountAll(init);
      CountSnoc(init, sub[n]);
      assert init + [sub[n]] == sub;
      if sub[n].logo.Some? {
        assert AllSuccessIndices(sub) == AllSuccessIndices(init) + {n};
      } else {
        assert AllSuccessIndices(sub) == AllSuccessIndices(init);
      }
    }
  }

  /** Appending one record adds one to the count exactly when it carries a logo. */
  lemma {:induction false} CountSnoc(rs: seq<ScrapeResult>, r: ScrapeResult)
    ensures SuccessCount(rs + [r]) == SuccessCount(rs) + (if r.logo.Some? then 1 else 0)
    decreases |rs|
  {
    if rs != [] {
      assert (rs + [r])[1..] == rs[1..] + [r];
      CountSnoc(rs[1..], r);
    }
  }

  /** Picking by positions that cover all of `sub` picks every logo of `sub`. */
  lemma CoveringIndices(sub: seq<ScrapeResult>, order: seq<nat>)
    requires IsCompletionOrder(order, |sub|)
    ensures SuccessIndices(sub, order) == AllSuccessIndices(sub)
  {
  }

  /** The number of records with a logo does not depend on the order in which the tasks complete. */
  lemma CountIndependentOfOrder(rs: seq<ScrapeResult>, sub: seq<ScrapeResult>, order: seq<nat>)
    requires IsCompletionOrder(order, |sub|) && |rs| == |sub|
    requires forall k :: 0 <= k < |rs| ==> rs[k] == sub[order[k]]
    ensures SuccessCount(rs) == SuccessCount(sub)
  {
    CountPicked(rs, sub, order);
    CoveringIndices(sub, order);
    CountAll(sub);
  }

  /** The result loop: the records of the tasks, appended as they complete. */
  method InCompletionOrder(submitted: seq<ScrapeResult>, order: seq<nat>) returns (results: seq<ScrapeResult>)
    requires forall k :: 0 <= k < |order| ==> order[k] < |submitted|
    ensures |results| == |order|
    ensures forall k :: 0 <= k < |order| ==> results[k] == submitted[order[k]]
  {
    results := [];
    var k := 0;
    while k < |order|
      invariant 0 <= k <= |order|
      invariant |results| == k
      invariant forall j :: 0 <= j < k ==> results[j] == submitted[order[j]]
    {
      results := results + [submitted[order[k]]];
      k := k + 1;
    }
  }

  /**
   * `run()` with the site list already read: nothing is processed for an empty
   * list; otherwise each site contributes exactly one record, appended in
   * completion order, and the success count is the number of records with a
   * logo, the same as in submission order. `saved` is whether writing the
   * output file succeeded.
   */
  method Run(websites: seq<string>, tasks: seq<TaskOutcome>, order: seq<nat>, saved: bool)
    returns (ok: bool, results: seq<ScrapeResult>, successCount: nat)
    requires |tasks| == |websites| && IsCompletionOrder(order, |websites|)
    ensures websites == [] ==> !ok && results == [] && successCount == 0
    ensures websites != [] ==> ok == saved
    ensures |results| == |websites|
    ensures forall k :: 0 <= k < |results| ==> results[k] == Submitted(websites, tasks)[order[k]]
    ensures successCount == SuccessCount(results) == SuccessCount(Submitted(websites, tasks))
  {
    results := [];
    if |websites| == 0 {
      ok, successCount := false, 0;
    } else {
      var submitted := Submitted(websites, tasks);
      results := InCompletionOrder(submitted, order);
      CountIndependentOfOrder(results, submitted, order);
      successCount := SuccessCount(results);
      ok := saved;
    }
  }
}
