/** The catalogue the application ships with (`MOCK_GIGS`), and queries run against it. */
module Fixtures {
  import opened Arrays
  import opened Text
  import opened Types
  import opened Marketplace
  import opened MarketplaceProperties
  import opened Lookup

  // G1's description is written as two joined literals so that its first words can be indexed
  // without unfolding the whole string; the value is the catalogue's text unchanged.
  const G1 := Gig("g1", "I will create a world-class UI/UX for your Nepali Tech Venture",
    "Expert design" + " services focusing on user retention and local market psychology. Full high-fidelity prototypes included.",
    "design", Packages(Package("b1", "Spark", 8000), Package("s1", "Grow", 25000), Package("p1", "Ascend", 65000)))
  const G2 := Gig("g2", "I will build a secure Python Django backend for your E-commerce",
    "Scalable backend development using Django REST Framework. Perfect for local e-commerce sites needing eSewa integration.",
    "dev", Packages(Package("b2", "API Setup", 15000), Package("s2", "E-commerce Core", 40000), Package("p2", "Full Scale", 90000)))
  const G3 := Gig("g3", "I will design a modern Logo for your Startup",
    "Minimalist and memorable logos that stand out in the Nepali market.",
    "design", Packages(Package("b3", "Starter", 5000), Package("s3", "Pro", 12000), Package("p3", "Brand Identity", 30000)))
  const G4 := Gig("g4", "I will write SEO optimized content in Nepali and English",
    "High ranking content for blogs, websites, and social media.",
    "writing", Packages(Package("b4", "Blog Post", 2000), Package("s4", "Website Copy", 8000), Package("p4", "Monthly Pack", 25000)))
  const G5 := Gig("g5", "I will develop a Flutter Mobile App (Android & iOS)",
    "Cross-platform mobile applications with smooth performance.",
    "mobile", Packages(Package("b5", "UI Only", 20000), Package("s5", "Functional App", 60000), Package("p5", "Full Product", 150000)))

  const MockGigs := [G1, G2, G3, G4, G5]

  /** The view's initial state with the price sort selected. */
  lemma EmptySearchSortedByPrice()
    ensures FilteredGigs(MockGigs, QueryParams("", All, 100000, PriceLow)) == [G4, G3, G1, G2, G5]
  {
    var q := QueryParams("", All, 100000, PriceLow);
    assert BasicPrice(G4) == 2000 && BasicPrice(G3) == 5000 && BasicPrice(G1) == 8000;
    assert BasicPrice(G2) == 15000 && BasicPrice(G5) == 20000;
    NeutralQueryKeepsCatalogue(MockGigs, 100000, PriceLow);
    assert FilteredGigs(MockGigs, q) == StableSort(PriceLow, MockGigs);
    SortFiveByPriceLow(G1, G2, G3, G4, G5);
  }

  /** The view as first rendered (empty term, "all", 100000, "recommended") lists the catalogue as is. */
  lemma InitialViewShowsCatalogue()
    ensures FilteredGigs(MockGigs, QueryParams("", All, 100000, "recommended")) == MockGigs
  {
    var q := QueryParams("", All, 100000, "recommended");
    NeutralQueryKeepsCatalogue(MockGigs, 100000, "recommended");
    OtherSortKeepsCatalogueOrder(MockGigs, q);
  }

  /** Sorting five gigs whose basic prices are pairwise distinct, in the order the catalogue's are. */
  lemma SortFiveByPriceLow(a: Gig, b: Gig, c: Gig, d: Gig, e: Gig)
    requires BasicPrice(d) < BasicPrice(c) < BasicPrice(a) < BasicPrice(b) < BasicPrice(e)
    ensures StableSort(PriceLow, [a, b, c, d, e]) == [d, c, a, b, e]
  {
    SortFour(b, c, d, e);
    assert [a, b, c, d, e][1..] == [b, c, d, e];
    InsertAfter(a, d, [c, b, e]);
    InsertAfter(a, c, [b, e]);
    InsertBefore(a, [b, e]);
  }

  lemma SortFour(b: Gig, c: Gig, d: Gig, e: Gig)
    requires BasicPrice(d) < BasicPrice(c) < BasicPrice(b) < BasicPrice(e)
    ensures StableSort(PriceLow, [b, c, d, e]) == [d, c, b, e]
  {
    SortThree(c, d, e);
    assert [b, c, d, e][1..] == [c, d, e];
    InsertAfter(b, d, [c, e]);
    InsertAfter(b, c, [e]);
    InsertBefore(b, [e]);
  }

  lemma SortThree(c: Gig, d: Gig, e: Gig)
    requires BasicPrice(d) < BasicPrice(c) < BasicPrice(e)
    ensures StableSort(PriceLow, [c, d, e]) == [d, c, e]
  {
    assert [c, d, e][1..] == [d, e];
    assert [d, e][1..] == [e];
    assert [e][1..] == [];
    assert StableSort(PriceLow, [e]) == Insert(PriceLow, e, []) == [e];
    InsertBefore(d, [e]);
    assert StableSort(PriceLow, [d, e]) == Insert(PriceLow, d, [e]) == [d, e];
    InsertAfter(c, d, [e]);
    InsertBefore(c, [e]);
  }

  lemma InsertAfter(x: Gig, y: Gig, s: seq<Gig>)
    requires BasicPrice(y) < BasicPrice(x)
    ensures Insert(PriceLow, x, [y] + s) == [y] + Insert(PriceLow, x, s)
  {
    assert ([y] + s)[1..] == s;
  }

  lemma InsertBefore(x: Gig, s: seq<Gig>)
    requires s != [] && BasicPrice(x) <= BasicPrice(s[0])
    ensures Insert(PriceLow, x, s) == [x] + s
  {
  }

  /** "design" occurs in G1's description and G3's title. */
  lemma DesignMatches()
    ensures MatchesSearch(G1, "design") && MatchesSearch(G3, "design")
  {
    var d := G1.description;
    forall j | 0 <= j < 6 ensures SameIgnoringCase(d[7 + j], "design"[j]) {
      assert j == 0 || j == 1 || j == 2 || j == 3 || j == 4 || j == 5;
    }
    forall j | 0 <= j < 6 ensures SameIgnoringCase(G3.title[7 + j], "design"[j]) {
      assert j == 0 || j == 1 || j == 2 || j == 3 || j == 4 || j == 5;
    }
    assert MatchesAt(G1.description, "design", 7);
    assert MatchesAt(G3.title, "design", 7);
    ContainsIgnoringCaseIff(G1.description, "design");
    ContainsIgnoringCaseIff(G3.title, "design");
  }

  /** With the "design" category selected, g1 and g3 pass. */
  lemma DesignCategoryVerdicts()
    ensures Matches(QueryParams("design", "design", 100000, PriceLow), G1)
    ensures Matches(QueryParams("design", "design", 100000, PriceLow), G3)
  {
    DesignMatches();
  }

  /** g2, g4 and g5 are not in the "design" category. */
  lemma OtherCategories()
    ensures !MatchesCategory(G2, "design") && !MatchesCategory(G4, "design") && !MatchesCategory(G5, "design")
  {
  }

  /** Searching "design" within the "design" category, cheapest first, lists g3 and then g1. */
  lemma DesignCategoryListing()
    ensures FilteredGigs(MockGigs, QueryParams("design", "design", 100000, PriceLow)) == [G3, G1]
  {
    DesignCategoryVerdicts();
    OtherCategories();
    FirstAndThirdOfFive(G1, G2, G3, G4, G5, QueryParams("design", "design", 100000, PriceLow));
  }

  /** With category "all", g1 and g3 pass the search for "design". */
  lemma DesignAllCategoriesVerdicts()
    ensures Matches(QueryParams("design", All, 100000, PriceLow), G1)
    ensures Matches(QueryParams("design", All, 100000, PriceLow), G3)
  {
    DesignMatches();
  }

  /** A five-gig catalogue shaped like the shipped one: when only the first and third pass and the
      third is cheaper, "price_low" lists the third and then the first. */
  lemma FirstAndThirdOfFive(a: Gig, b: Gig, c: Gig, d: Gig, e: Gig, q: QueryParams)
    requires q.sortOption == PriceLow
    requires Matches(q, a) && !Matches(q, b) && Matches(q, c) && !Matches(q, d) && !Matches(q, e)
    requires BasicPrice(c) < BasicPrice(a)
    ensures FilteredGigs([a, b, c, d, e], q) == [c, a]
  {
    assert [a, b, c, d, e][1..] == [b, c, d, e];
    assert [b, c, d, e][1..] == [c, d, e];
    assert [c, d, e][1..] == [d, e];
    assert [d, e][1..] == [e];
    assert [e][1..] == [];
    assert Filtered([e], q) == [];
    assert Filtered([d, e], q) == [];
    assert Filtered([c, d, e], q) == [c];
    assert Filtered([b, c, d, e], q) == [c];
    assert Filtered([a, b, c, d, e], q) == [a, c];
    assert [a, c][1..] == [c];
    assert [c][1..] == [];
    assert StableSort(PriceLow, [c]) == Insert(PriceLow, c, []) == [c];
    InsertAfter(a, c, []);
  }

  /** Opening the detail page of "g3" shows g3; an unknown id falls back to the first gig. */
  lemma GigDetailLookup()
    ensures FindByIdOrFirst(MockGigs, (g: Gig) => g.id, "g3") == G3
    ensures FindByIdOrFirst(MockGigs, (g: Gig) => g.id, "g9") == G1
  {
    assert DistinctIds(MockGigs, (g: Gig) => g.id);
    LookupOwnId(MockGigs, (g: Gig) => g.id, 2);
    assert forall i :: 0 <= i < |MockGigs| ==> MockGigs[i].id != "g9";
  }
}
