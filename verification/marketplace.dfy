/** The marketplace catalogue query: a conjunctive filter over the gig list followed by a
    stable sort on the basic package's price. */
module Marketplace {
  import opened Arrays
  import opened Text
  import opened Types

  const All := "all"
  const PriceLow := "price_low"
  const PriceHigh := "price_high"

  /** The view's state that the query reads: search box, category radio, budget slider, sort select. */
  datatype QueryParams = QueryParams(searchTerm: string, categoryFilter: string, priceRange: int, sortOption: string)

  function BasicPrice(g: Gig): int { g.packages.basic.price }

  predicate MatchesSearch(g: Gig, searchTerm: string)
  {
    ContainsIgnoringCase(g.title, searchTerm) || ContainsIgnoringCase(g.description, searchTerm)
  }

  predicate MatchesCategory(g: Gig, categoryFilter: string)
  {
    categoryFilter == All || g.category == categoryFilter
  }

  predicate MatchesPrice(g: Gig, priceRange: int)
  {
    BasicPrice(g) <= priceRange
  }

  predicate Matches(q: QueryParams, g: Gig)
  {
    MatchesSearch(g, q.searchTerm) && MatchesCategory(g, q.categoryFilter) && MatchesPrice(g, q.priceRange)
  }

  /** The gigs that pass all three tests, in catalogue order. */
  function Filtered(gigs: seq<Gig>, q: QueryParams): seq<Gig>
  {
    Filter(gigs, g => Matches(q, g))
  }

  // ---------------------------------------------------------------------------------------
  // Sorting

  /** The number each sort option orders gigs by; the comparator is the difference of keys. */
  function SortKey(sortOption: string, g: Gig): int
  {
    if sortOption == PriceLow then BasicPrice(g)
    else if sortOption == PriceHigh then -BasicPrice(g)
    else 0
  }

  /** The comparator handed to `sort`. */
  function Compare(sortOption: string, a: Gig, b: Gig): (r: int)
    ensures r == SortKey(sortOption, a) - SortKey(sortOption, b)
  {
    if sortOption == PriceLow then BasicPrice(a) - BasicPrice(b)
    else if sortOption == PriceHigh then BasicPrice(b) - BasicPrice(a)
    else 0
  }

  ghost predicate SortedBy(sortOption: string, s: seq<Gig>)
  {
    forall i, j :: 0 <= i < j < |s| ==> SortKey(sortOption, s[i]) <= SortKey(sortOption, s[j])
  }

  /** The gigs of `s` whose key is `k`, in the order of `s`. */
  function Ties(sortOption: string, s: seq<Gig>, k: int): seq<Gig>
  {
    Filter(s, g => SortKey(sortOption, g) == k)
  }

  /** A stable sort keeps, for every key, the subsequence of gigs with that key. */
  ghost predicate KeepsTies(sortOption: string, r: seq<Gig>, s: seq<Gig>)
  {
    forall k :: Ties(sortOption, r, k) == Ties(sortOption, s, k)
  }

  /** `r` has the ties of `s`, with `x` added in front of the gigs sharing its key. */
  ghost predicate TiesWithFirst(sortOption: string, r: seq<Gig>, x: Gig, s: seq<Gig>)
  {
    forall k :: Ties(sortOption, r, k) ==
                (if SortKey(sortOption, x) == k then [x] + Ties(sortOption, s, k) else Ties(sortOption, s, k))
  }

  lemma TiesCons(sortOption: string, x: Gig, s: seq<Gig>, k: int)
    ensures Ties(sortOption, [x] + s, k) ==
            if SortKey(sortOption, x) == k then [x] + Ties(sortOption, s, k) else Ties(sortOption, s, k)
  {
    assert ([x] + s)[0] == x && ([x] + s)[1..] == s;
  }

  /** Inserting `x` in front of the first element whose key is not smaller than its own. */
  function Insert(sortOption: string, x: Gig, s: seq<Gig>): seq<Gig>
  {
    if s == [] || Compare(sortOption, x, s[0]) <= 0 then [x] + s
    else [s[0]] + Insert(sortOption, x, s[1..])
  }

  /** A gig whose key is at most every key of a sorted sequence can go in front of it. */
  lemma ConsSorted(sortOption: string, y: Gig, s: seq<Gig>)
    requires SortedBy(sortOption, s)
    requires forall i :: 0 <= i < |s| ==> SortKey(sortOption, y) <= SortKey(sortOption, s[i])
    ensures SortedBy(sortOption, [y] + s)
  {
    var r := [y] + s;
    forall i, j | 0 <= i < j < |r| ensures SortKey(sortOption, r[i]) <= SortKey(sortOption, r[j]) {
      assert r[j] == s[j - 1];
      if i > 0 {
        assert r[i] == s[i - 1];
      }
    }
  }

  /** Inserting into a sorted sequence keeps it sorted and adds exactly `x`. */
  lemma {:induction false} InsertSorted(sortOption: string, x: Gig, s: seq<Gig>)
    requires SortedBy(sortOption, s)
    ensures SortedBy(sortOption, Insert(sortOption, x, s))
    ensures multiset(Insert(sortOption, x, s)) == multiset(s) + multiset{x}
  {
    if s == [] || Compare(sortOption, x, s[0]) <= 0 {
      ConsSorted(sortOption, x, s);
    } else {
      var rest := Insert(sortOption, x, s[1..]);
      InsertSorted(sortOption, x, s[1..]);
      assert s == [s[0]] + s[1..];
      forall i | 0 <= i < |rest| ensures SortKey(sortOption, s[0]) <= SortKey(sortOption, rest[i]) {
        assert rest[i] in multiset(rest);
        if rest[i] != x {
          assert rest[i] in s[1..];
          var k :| 0 <= k < |s[1..]| && s[1..][k] == rest[i];
          assert s[k + 1] == rest[i];
        }
      }
      ConsSorted(sortOption, s[0], rest);
      assert multiset([s[0]] + rest) == multiset{s[0]} + multiset(rest);
    }
  }

  /** `x` lands in front of every gig that shares its key, and no other tie moves. */
  lemma {:induction false} InsertTies(sortOption: string, x: Gig, s: seq<Gig>)
    ensures TiesWithFirst(sortOption, Insert(sortOption, x, s), x, s)
  {
    var r := Insert(sortOption, x, s);
    if s == [] || Compare(sortOption, x, s[0]) <= 0 {
      forall k ensures Ties(sortOption, r, k) ==
        (if SortKey(sortOption, x) == k then [x] + Ties(sortOption, s, k) else Ties(sortOption, s, k)) {
        TiesCons(sortOption, x, s, k);
      }
    } else {
      var rest := Insert(sortOption, x, s[1..]);
      InsertTies(sortOption, x, s[1..]);
      assert s == [s[0]] + s[1..];
      forall k ensures Ties(sortOption, r, k) ==
        (if SortKey(sortOption, x) == k then [x] + Ties(sortOption, s, k) else Ties(sortOption, s, k)) {
        TiesCons(sortOption, s[0], rest, k);
        TiesCons(sortOption, s[0], s[1..], k);
      }
    }
  }

  /** `sort` with the view's comparator: an insertion sort, stable because each gig is
      placed before the later gigs with an equal key. */
  function StableSort(sortOption: string, s: seq<Gig>): seq<Gig>
  {
    if s == [] then [] else Insert(sortOption, s[0], StableSort(sortOption, s[1..]))
  }

  /** The sort orders by the comparator and is a permutation of its input. */
  lemma {:induction false} StableSortSorted(sortOption: string, s: seq<Gig>)
    ensures SortedBy(sortOption, StableSort(sortOption, s))
    ensures multiset(StableSort(sortOption, s)) == multiset(s)
  {
    if s != [] {
      StableSortSorted(sortOption, s[1..]);
      InsertSorted(sortOption, s[0], StableSort(sortOption, s[1..]));
      assert s == [s[0]] + s[1..];
    }
  }

  /** The sort is stable: for every key, the gigs with that key keep their relative order. */
  lemma {:induction false} StableSortKeepsTies(sortOption: string, s: seq<Gig>)
    ensures KeepsTies(sortOption, StableSort(sortOption, s), s)
  {
    if s != [] {
      var rest := StableSort(sortOption, s[1..]);
      StableSortKeepsTies(sortOption, s[1..]);
      InsertTies(sortOption, s[0], rest);
      assert s == [s[0]] + s[1..];
      forall k ensures Ties(sortOption, StableSort(sortOption, s), k) == Ties(sortOption, s, k) {
        TiesCons(sortOption, s[0], s[1..], k);
      }
    }
  }

  /** `filteredGigs`: the filtered catalogue, sorted by the selected option. */
  function FilteredGigs(gigs: seq<Gig>, q: QueryParams): seq<Gig>
  {
    StableSort(q.sortOption, Filtered(gigs, q))
  }
}

/** What the marketplace promises about the result of its catalogue query. */
module MarketplaceProperties {
  import opened Arrays
  import opened Text
  import opened Types
  import opened Marketplace

  /** Two sequences sorted by the same key and holding the same ties are equal. */
  lemma {:induction false} SortedTiesDetermine(sortOption: string, t: seq<Gig>, u: seq<Gig>)
    requires SortedBy(sortOption, t) && SortedBy(sortOption, u)
    requires forall k :: Ties(sortOption, t, k) == Ties(sortOption, u, k)
    ensures t == u
    decreases |t|
  {
    if t != [] {
      SameTiesSameElements(sortOption, t, u, t[0]);
    }
    if u != [] {
      SameTiesSameElements(sortOption, u, t, u[0]);
    }
    if t != [] && u != [] {
      var k := SortKey(sortOption, t[0]);
      assert k == SortKey(sortOption, u[0]);
      assert t == [t[0]] + t[1..] && u == [u[0]] + u[1..];
      TiesCons(sortOption, t[0], t[1..], k);
      TiesCons(sortOption, u[0], u[1..], k);
      assert Ties(sortOption, t, k)[0] == t[0] && Ties(sortOption, u, k)[0] == u[0];
      forall k' ensures Ties(sortOption, t[1..], k') == Ties(sortOption, u[1..], k') {
        TiesCons(sortOption, t[0], t[1..], k');
        TiesCons(sortOption, u[0], u[1..], k');
        if k' == k {
          assert Ties(sortOption, t, k)[1..] == Ties(sortOption, t[1..], k);
          assert Ties(sortOption, u, k)[1..] == Ties(sortOption, u[1..], k);
        }
      }
      SortedTiesDetermine(sortOption, t[1..], u[1..]);
    }
  }

  lemma SameTiesSameElements(sortOption: string, t: seq<Gig>, u: seq<Gig>, x: Gig)
    requires forall k :: Ties(sortOption, t, k) == Ties(sortOption, u, k)
    requires x in t
    ensures x in u
  {
    var k := SortKey(sortOption, x);
    assert x in Ties(sortOption, t, k);
    assert x in Ties(sortOption, u, k);
  }

  /** Any sort that orders by the comparator and keeps equal gigs in order gives `StableSort`'s result:
      the query's order does not depend on which stable sorting algorithm the runtime uses. */
  lemma StableSortIsUnique(sortOption: string, s: seq<Gig>, t: seq<Gig>)
    requires SortedBy(sortOption, t)
    requires KeepsTies(sortOption, t, s)
    ensures t == StableSort(sortOption, s)
  {
    StableSortKeepsTies(sortOption, s);
    StableSortSorted(sortOption, s);
    SortedTiesDetermine(sortOption, t, StableSort(sortOption, s));
  }

  /** Every gig in the result passes the text, category and price tests together. */
  lemma FilteredGigsSound(gigs: seq<Gig>, q: QueryParams)
    ensures forall g :: g in FilteredGigs(gigs, q) ==>
      && (ContainsIgnoringCase(g.title, q.searchTerm) || ContainsIgnoringCase(g.description, q.searchTerm))
      && (q.categoryFilter == "all" || g.category == q.categoryFilter)
      && g.packages.basic.price <= q.priceRange
  {
    var f := Filtered(gigs, q);
    var r := StableSort(q.sortOption, f);
    StableSortSorted(q.sortOption, f);
    forall g | g in r ensures Matches(q, g) {
      assert g in multiset(r);
      assert g in f;
    }
  }

  /** The result holds exactly the catalogue gigs that pass, each as often as in the catalogue. */
  lemma FilteredGigsExact(gigs: seq<Gig>, q: QueryParams)
    ensures forall g :: multiset(FilteredGigs(gigs, q))[g] == if Matches(q, g) then multiset(gigs)[g] else 0
    ensures forall g :: g in FilteredGigs(gigs, q) <==> g in gigs && Matches(q, g)
    ensures |FilteredGigs(gigs, q)| <= |gigs|
  {
    var f := Filtered(gigs, q);
    var r := FilteredGigs(gigs, q);
    StableSortSorted(q.sortOption, f);
    FilterMultiplicity(gigs, g => Matches(q, g));
    assert |r| == |multiset(r)| == |multiset(f)| == |f|;
    forall g ensures g in r <==> g in gigs && Matches(q, g) {
      assert g in r <==> g in multiset(r);
    }
  }

  /** An empty term, category "all" and a ceiling no basic price exceeds keep the whole catalogue. */
  lemma NeutralQueryKeepsCatalogue(gigs: seq<Gig>, priceRange: int, sortOption: string)
    requires forall g :: g in gigs ==> g.packages.basic.price <= priceRange
    ensures Filtered(gigs, QueryParams("", "all", priceRange, sortOption)) == gigs
    ensures multiset(FilteredGigs(gigs, QueryParams("", "all", priceRange, sortOption))) == multiset(gigs)
  {
    var q := QueryParams("", "all", priceRange, sortOption);
    forall g | g in gigs ensures Matches(q, g) {
      ContainsEmpty(g.title);
    }
    FilterKeepsAll(gigs, g => Matches(q, g));
    StableSortSorted(sortOption, gigs);
  }

  /** With "price_low", adjacent results have non-decreasing basic price. */
  lemma PriceLowAscending(gigs: seq<Gig>, q: QueryParams)
    requires q.sortOption == "price_low"
    ensures forall i :: 0 <= i < |FilteredGigs(gigs, q)| - 1 ==>
      FilteredGigs(gigs, q)[i].packages.basic.price <= FilteredGigs(gigs, q)[i + 1].packages.basic.price
  {
    var r := FilteredGigs(gigs, q);
    StableSortSorted(q.sortOption, Filtered(gigs, q));
    assert forall i :: 0 <= i < |r| - 1 ==> SortKey(q.sortOption, r[i]) <= SortKey(q.sortOption, r[i + 1]);
  }

  /** With "price_high", adjacent results have non-increasing basic price. */
  lemma PriceHighDescending(gigs: seq<Gig>, q: QueryParams)
    requires q.sortOption == "price_high"
    ensures forall i :: 0 <= i < |FilteredGigs(gigs, q)| - 1 ==>
      FilteredGigs(gigs, q)[i].packages.basic.price >= FilteredGigs(gigs, q)[i + 1].packages.basic.price
  {
    var r := FilteredGigs(gigs, q);
    StableSortSorted(q.sortOption, Filtered(gigs, q));
    assert forall i :: 0 <= i < |r| - 1 ==> SortKey(q.sortOption, r[i]) <= SortKey(q.sortOption, r[i + 1]);
  }

  /** The gigs of `s` whose basic price is `price`, in the order of `s`. */
  function PricedAt(s: seq<Gig>, price: int): seq<Gig>
  {
    Filter(s, (g: Gig) => g.packages.basic.price == price)
  }

  /** Under either price sort, gigs of equal basic price keep their catalogue order. */
  lemma PriceTiesKeepCatalogueOrder(gigs: seq<Gig>, q: QueryParams, price: int)
    requires q.sortOption == "price_low" || q.sortOption == "price_high"
    ensures PricedAt(FilteredGigs(gigs, q), price) == PricedAt(Filtered(gigs, q), price)
  {
    var o, f := q.sortOption, Filtered(gigs, q);
    var r := StableSort(o, f);
    StableSortKeepsTies(o, f);
    var k := if o == PriceLow then price else -price;
    FilterExtensional(r, g => SortKey(o, g) == k, (g: Gig) => g.packages.basic.price == price);
    FilterExtensional(f, g => SortKey(o, g) == k, (g: Gig) => g.packages.basic.price == price);
    assert Ties(o, r, k) == Ties(o, f, k);
  }

  /** For any other option ("recommended", "newest", ...) the comparator returns 0 and the result is
      the filtered catalogue in catalogue order. */
  lemma OtherSortKeepsCatalogueOrder(gigs: seq<Gig>, q: QueryParams)
    requires q.sortOption != "price_low" && q.sortOption != "price_high"
    ensures forall a, b :: Compare(q.sortOption, a, b) == 0
    ensures FilteredGigs(gigs, q) == Filtered(gigs, q)
    ensures IsSubsequence(FilteredGigs(gigs, q), gigs)
  {
    var o, f := q.sortOption, Filtered(gigs, q);
    var r := StableSort(o, f);
    StableSortKeepsTies(o, f);
    FilterKeepsAll(r, g => SortKey(o, g) == 0);
    FilterKeepsAll(f, g => SortKey(o, g) == 0);
    assert Ties(o, r, 0) == Ties(o, f, 0);
    FilterIsSubsequence(gigs, g => Matches(q, g));
  }

  /** `x` occurs before `y` in `s`. */
  predicate Precedes(s: seq<Gig>, x: Gig, y: Gig)
  {
    exists i, j :: 0 <= i < j < |s| && s[i] == x && s[j] == y
  }

  /** Under "price_low", of two catalogue gigs that both match, the cheaper one is listed first. */
  lemma CheaperMatchComesFirst(gigs: seq<Gig>, q: QueryParams, x: Gig, y: Gig)
    requires q.sortOption == PriceLow
    requires x in gigs && y in gigs && Matches(q, x) && Matches(q, y)
    requires BasicPrice(x) < BasicPrice(y)
    ensures x in FilteredGigs(gigs, q) && y in FilteredGigs(gigs, q)
    ensures Precedes(FilteredGigs(gigs, q), x, y)
  {
    var r := FilteredGigs(gigs, q);
    FilteredGigsExact(gigs, q);
    StableSortSorted(PriceLow, Filtered(gigs, q));
    var i :| 0 <= i < |r| && r[i] == x;
    var j :| 0 <= j < |r| && r[j] == y;
    assert i < j;
  }
}
