/** The browse page's filters over the listed properties: a case-insensitive
    search on title or location, a price bucket and a property type, and the
    featured list. */
module Listings {
  import opened Text

  datatype Listing = Listing(title: string, location: string, price: int, kind: string, featured: bool)

  /** `a` is `b` with some elements left out, order kept. */
  predicate Subsequence<T(==)>(a: seq<T>, b: seq<T>)
    decreases |b|
  {
    |a| == 0 || (|b| > 0 && (if a[0] == b[0] then Subsequence(a[1..], b[1..]) else Subsequence(a, b[1..])))
  }

  /** `Array.prototype.filter`: the elements satisfying `p`, in order, each
      as often as it occurs. */
  function Keep<T(==,!new)>(s: seq<T>, p: T -> bool): (r: seq<T>)
    ensures forall x :: x in r <==> x in s && p(x)
    ensures forall x :: multiset(r)[x] == if p(x) then multiset(s)[x] else 0
    ensures Subsequence(r, s)
    decreases |s|
  {
    if |s| == 0 then []
    else
      var rest := Keep(s[1..], p);
      assert s == [s[0]] + s[1..];
      if p(s[0]) then
        assert ([s[0]] + rest)[1..] == rest;
        [s[0]] + rest
      else
        assert |rest| > 0 ==> rest[0] in rest && rest[0] != s[0];
        rest
  }

  /** The search box: an empty query matches everything; otherwise the
      lower-cased query is a substring of the lower-cased title or location. */
  predicate MatchesSearch(l: Listing, query: string) {
    Contains(Lower(l.title), Lower(query)) || Contains(Lower(l.location), Lower(query))
  }

  const Under50k: string := "under50k"
  const Between50kAnd100k: string := "50k-100k"
  const Above100k: string := "above100k"

  predicate MatchesPrice(l: Listing, range: string) {
    || range == "all"
    || (range == Under50k && l.price < 50000)
    || (range == Between50kAnd100k && 50000 <= l.price <= 100000)
    || (range == Above100k && l.price > 100000)
  }

  predicate MatchesType(l: Listing, kind: string) {
    kind == "all" || l.kind == kind
  }

  predicate Matches(l: Listing, query: string, range: string, kind: string) {
    MatchesSearch(l, query) && MatchesPrice(l, range) && MatchesType(l, kind)
  }

  /** `filteredProperties`: the listings matching all three criteria, in order. */
  function Filtered(ps: seq<Listing>, query: string, range: string, kind: string): (r: seq<Listing>)
    ensures forall l :: l in r <==> l in ps && Matches(l, query, range, kind)
    ensures forall l :: multiset(r)[l] == if Matches(l, query, range, kind) then multiset(ps)[l] else 0
    ensures Subsequence(r, ps)
  {
    Keep(ps, (l: Listing) => Matches(l, query, range, kind))
  }

  /** `featuredProperties`: the featured listings, in order. */
  function Featured(ps: seq<Listing>): (r: seq<Listing>)
    ensures forall l :: l in r <==> l in ps && l.featured
    ensures forall l :: multiset(r)[l] == if l.featured then multiset(ps)[l] else 0
    ensures Subsequence(r, ps)
  {
    Keep(ps, (l: Listing) => l.featured)
  }

  /** With no criteria the whole list is shown. */
  lemma NoCriteriaShowsAll(ps: seq<Listing>)
    ensures Filtered(ps, "", "all", "all") == ps
  {
    forall l | l in ps ensures Matches(l, "", "all", "all") {
      ContainsEmpty(Lower(l.title));
    }
    KeepAll(ps, (l: Listing) => Matches(l, "", "all", "all"));
  }

  lemma {:induction false} KeepAll<T(!new)>(s: seq<T>, p: T -> bool)
    requires forall x :: x in s ==> p(x)
    ensures Keep(s, p) == s
    decreases |s|
  {
    if |s| > 0 {
      assert s == [s[0]] + s[1..];
      assert p(s[0]);
      KeepAll(s[1..], p);
      assert Keep(s, p) == [s[0]] + Keep(s[1..], p);
    }
  }

  /** The search ignores letter case in the query. */
  lemma SearchIgnoresQueryCase(l: Listing, query: string)
    ensures MatchesSearch(l, Lower(query)) == MatchesSearch(l, query)
  {
    LowerIdempotent(query);
  }

  /** The three named buckets partition the prices: every price is in exactly
      one of them. */
  lemma BucketsPartition(l: Listing)
    ensures MatchesPrice(l, Under50k) || MatchesPrice(l, Between50kAnd100k) || MatchesPrice(l, Above100k)
    ensures !(MatchesPrice(l, Under50k) && MatchesPrice(l, Between50kAnd100k))
    ensures !(MatchesPrice(l, Under50k) && MatchesPrice(l, Above100k))
    ensures !(MatchesPrice(l, Between50kAnd100k) && MatchesPrice(l, Above100k))
  {
  }

  /** A price range that is none of the four options matches nothing, so the
      filtered list is empty. */
  lemma UnknownRangeShowsNothing(ps: seq<Listing>, query: string, range: string, kind: string)
    requires range !in {"all", Under50k, Between50kAnd100k, Above100k}
    ensures Filtered(ps, query, range, kind) == []
  {
  }
}
