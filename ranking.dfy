/**
 * Ranking of logo candidates: the stable descending sort by score that the
 * scraper applies to its candidate list, and the candidate it then picks.
 */
module Ranking {
  import opened Wrappers

  /** A proposed logo URL with its confidence score. */
  datatype Candidate = Candidate(url: string, score: nat)

  /** Scores never increase along `cs`. */
  predicate SortedByScoreDesc(cs: seq<Candidate>)
  {
    forall i, j :: 0 <= i < j < |cs| ==> cs[i].score >= cs[j].score
  }

  /**
   * Inserts `c` into a list sorted by descending score, after every candidate
   * that scores strictly higher and before every other one, so `c`, coming
   * earlier than all of `s` in the original list, stays ahead of its ties.
   */
  function Insert(c: Candidate, s: seq<Candidate>): (r: seq<Candidate>)
    requires SortedByScoreDesc(s)
    ensures SortedByScoreDesc(r)
    ensures multiset(r) == multiset(s) + multiset{c}
    ensures r[0] == (if s == [] || s[0].score <= c.score then c else s[0])
  {
    if s == [] then [c]
    else
      SortedSplit(s);
      if s[0].score <= c.score then
        ConsSorted(c, s);
        [c] + s
      else
        var t := Insert(c, s[1..]);
        ScoresBelow(t, s[1..], c, s[0].score);
        ConsSorted(s[0], t);
        assert multiset(s) == multiset{s[0]} + multiset(s[1..]);
        assert multiset([s[0]] + t) == multiset{s[0]} + multiset(t);
        [s[0]] + t
  }

  /**
   * `r` is `s` with `c` put at position `p`, after every candidate scoring
   * strictly more than `c` and before every other one.
   */
  predicate InsertedAt(r: seq<Candidate>, c: Candidate, s: seq<Candidate>, p: nat)
  {
    && p <= |s|
    && r == s[..p] + [c] + s[p..]
    && (forall j :: 0 <= j < p ==> s[j].score > c.score)
    && (forall j :: p <= j < |s| ==> s[j].score <= c.score)
  }

  /** Insertion puts `c` behind everything that outscores it and ahead of all its ties. */
  lemma {:induction false} InsertPlacement(c: Candidate, s: seq<Candidate>)
    requires SortedByScoreDesc(s)
    ensures exists p: nat :: InsertedAt(Insert(c, s), c, s, p)
    decreases |s|
  {
    if s == [] {
      assert InsertedAt(Insert(c, s), c, s, 0);
    } else {
      SortedSplit(s);
      if s[0].score <= c.score {
        assert InsertedAt(Insert(c, s), c, s, 0);
      } else {
        InsertPlacement(c, s[1..]);
        var p: nat :| InsertedAt(Insert(c, s[1..]), c, s[1..], p);
        ShiftPlacement(c, s, Insert(c, s[1..]), p);
        assert Insert(c, s) == [s[0]] + Insert(c, s[1..]);
      }
    }
  }

  /** Where `c` sits in the tail, one further on it sits behind the head. */
  lemma ShiftPlacement(c: Candidate, s: seq<Candidate>, t: seq<Candidate>, p: nat)
    requires s != [] && s[0].score > c.score && InsertedAt(t, c, s[1..], p)
    ensures InsertedAt([s[0]] + t, c, s, p + 1)
  {
    assert s[..p + 1] == [s[0]] + s[1..][..p];
    assert s[p + 1..] == s[1..][p..];
    assert forall j :: 1 <= j < |s| ==> s[j] == s[1..][j - 1];
  }

  /** A sorted list is its head followed by a sorted tail scoring no more than the head. */
  lemma SortedSplit(s: seq<Candidate>)
    requires SortedByScoreDesc(s) && s != []
    ensures s == [s[0]] + s[1..]
    ensures SortedByScoreDesc(s[1..])
    ensures forall j :: 0 <= j < |s| ==> s[j].score <= s[0].score
    ensures forall j :: 0 <= j < |s[1..]| ==> s[1..][j].score <= s[0].score
  {
    assert forall j :: 0 <= j < |s[1..]| ==> s[1..][j] == s[j + 1];
  }

  /** A permutation of `u` plus `c` keeps every score below a bound that `u` and `c` stay below. */
  lemma ScoresBelow(t: seq<Candidate>, u: seq<Candidate>, c: Candidate, bound: nat)
    requires multiset(t) == multiset(u) + multiset{c}
    requires c.score <= bound && forall j :: 0 <= j < |u| ==> u[j].score <= bound
    ensures forall j :: 0 <= j < |t| ==> t[j].score <= bound
  {
    forall j | 0 <= j < |t| ensures t[j].score <= bound {
      assert t[j] in multiset(t);
    }
  }

  /** A candidate scoring at least every score of a sorted list can go in front of it. */
  lemma ConsSorted(x: Candidate, t: seq<Candidate>)
    requires SortedByScoreDesc(t) && forall j :: 0 <= j < |t| ==> t[j].score <= x.score
    ensures SortedByScoreDesc([x] + t)
  {
  }

  /**
   * `cs.sort(key=lambda x: x[1], reverse=True)`: Python's list sort is stable,
   * also in reverse, so equal scores keep their original order.
   */
  function SortByScoreDesc(cs: seq<Candidate>): (r: seq<Candidate>)
    ensures SortedByScoreDesc(r)
    ensures multiset(r) == multiset(cs)
    ensures |r| == |cs|
  {
    if cs == [] then []
    else
      assert cs == [cs[0]] + cs[1..];
      Insert(cs[0], SortByScoreDesc(cs[1..]))
  }

  /** The position of the first candidate of maximal score. */
  function BestIndex(cs: seq<Candidate>): (k: nat)
    requires cs != []
    ensures k < |cs|
    ensures forall j :: 0 <= j < |cs| ==> cs[j].score <= cs[k].score
    ensures forall j :: 0 <= j < k ==> cs[j].score < cs[k].score
  {
    if |cs| == 1 then 0
    else
      var k := BestIndex(cs[1..]) + 1;
      if cs[k].score <= cs[0].score then 0 else k
  }

  /** When something in `a` outscores all of `b`, the first maximum of `a + b` lies in `a`. */
  lemma BestInFront(a: seq<Candidate>, b: seq<Candidate>, x: Candidate)
    requires x in a && forall j :: 0 <= j < |b| ==> b[j].score < x.score
    ensures BestIndex(a + b) < |a|
  {
    var cs := a + b;
    var k := BestIndex(cs);
    var i :| 0 <= i < |a| && a[i] == x;
    assert cs[i] == x;
  }

  /** After the stable descending sort, the first candidate is the first one of maximal score. */
  lemma {:induction false} SortedHeadIsBest(cs: seq<Candidate>)
    requires cs != []
    ensures SortByScoreDesc(cs)[0] == cs[BestIndex(cs)]
  {
    if |cs| > 1 {
      SortedHeadIsBest(cs[1..]);
      var s := SortByScoreDesc(cs[1..]);
      assert s[0] == cs[1..][BestIndex(cs[1..])];
    }
  }

  /**
   * What `find_logo_in_soup` returns for its candidate list: `None` for an
   * empty list, otherwise the URL at the head of the sorted list, which is the
   * URL of a maximal-score candidate with no candidate of that score before it.
   */
  function PickBest(cs: seq<Candidate>): (r: Option<string>)
    ensures r.None? <==> cs == []
    ensures r.Some? ==>
              exists k :: 0 <= k < |cs| && r.value == cs[k].url &&
                (forall j :: 0 <= j < |cs| ==> cs[j].score <= cs[k].score) &&
                (forall j :: 0 <= j < k ==> cs[j].score < cs[k].score)
  {
    if cs == [] then None
    else
      SortedHeadIsBest(cs);
      Some(SortByScoreDesc(cs)[0].url)
  }
}
