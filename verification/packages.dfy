/**
 The package catalogue of `src/pages/Packages.tsx`: a constant list of six
 packages filtered by a search box, a difficulty select and a price-range
 select, with a "Clear Filters" button that resets all three.
 */
module Packages {
  import opened Text
  import Seqs

  datatype Package = Package(id: string, title: string, destination: string, price: int, difficulty: string)

  /** The three filter controls: free text, `"all"`/a difficulty, `"all"`/a price bucket. */
  datatype Filters = Filters(search: string, difficulty: string, priceRange: string)

  /** The initial filters, and what "Clear Filters" sets them back to. */
  const Cleared := Filters("", "all", "all")

  /** The catalogue the page filters (ids, titles, destinations, prices, difficulties). */
  const AllPackages: seq<Package> := [
    Package("1", "Maasai Mara Safari Experience", "Maasai Mara, Kenya", 85000, "Easy"),
    Package("2", "Coastal Paradise Escape", "Diani Beach, Kenya", 55000, "Easy"),
    Package("3", "Urban Discovery Tour", "Nairobi, Kenya", 35000, "Easy"),
    Package("4", "Mountain Trekking Adventure", "Mount Kenya", 95000, "Challenging"),
    Package("5", "Amboseli Elephant Safari", "Amboseli, Kenya", 75000, "Easy"),
    Package("6", "Lamu Cultural Experience", "Lamu Island, Kenya", 65000, "Easy")
  ]

  /** Title or destination contains the search term, ignoring case. */
  predicate MatchesSearch(pkg: Package, search: string)
  {
    Includes(Lower(pkg.title), Lower(search)) || Includes(Lower(pkg.destination), Lower(search))
  }

  /** `"all"`, or the package's difficulty equals the selection ignoring case. */
  predicate MatchesDifficulty(pkg: Package, difficulty: string)
  {
    difficulty == "all" || Lower(pkg.difficulty) == Lower(difficulty)
  }

  /** `"all"`, or the price falls into the selected bucket; any other selection matches nothing. */
  predicate MatchesPrice(pkg: Package, priceRange: string)
  {
    || priceRange == "all"
    || (priceRange == "low" && pkg.price < 50000)
    || (priceRange == "medium" && pkg.price >= 50000 && pkg.price < 80000)
    || (priceRange == "high" && pkg.price >= 80000)
  }

  /** A package is shown when it passes all three controls. */
  predicate Matches(pkg: Package, f: Filters)
  {
    MatchesSearch(pkg, f.search) && MatchesDifficulty(pkg, f.difficulty) && MatchesPrice(pkg, f.priceRange)
  }

  /** `filteredPackages`. */
  function FilterPackages(all: seq<Package>, f: Filters): (r: seq<Package>)
    ensures |r| <= |all|
    ensures forall pkg :: pkg in r ==> pkg in all && Matches(pkg, f)
  {
    Seqs.Filter(all, pkg => Matches(pkg, f))
  }

  /** The price bucket a price belongs to, stated on its own. */
  function BucketOf(price: int): string
  {
    if price < 50000 then "low" else if price < 80000 then "medium" else "high"
  }

  /** The price select accepts a package exactly when it is `"all"` or names the package's bucket. */
  lemma MatchesPriceIffBucket(pkg: Package, priceRange: string)
    ensures MatchesPrice(pkg, priceRange) <==> priceRange == "all" || priceRange == BucketOf(pkg.price)
  {
  }

  /** The three buckets are pairwise disjoint and together cover every price. */
  lemma PriceBucketsPartition(pkg: Package)
    ensures MatchesPrice(pkg, "low") || MatchesPrice(pkg, "medium") || MatchesPrice(pkg, "high")
    ensures !(MatchesPrice(pkg, "low") && MatchesPrice(pkg, "medium"))
    ensures !(MatchesPrice(pkg, "low") && MatchesPrice(pkg, "high"))
    ensures !(MatchesPrice(pkg, "medium") && MatchesPrice(pkg, "high"))
  {
  }

  /** Lower-case `"easy"` selects a package whose difficulty is written `"Easy"`. */
  lemma DifficultyIgnoresCase(pkg: Package)
    requires pkg.difficulty == "Easy"
    ensures MatchesDifficulty(pkg, "easy")
  {
    assert Lower("Easy") == "easy";
    assert Lower("easy") == "easy";
  }

  /** Changing only the case of the selection does not change which packages pass. */
  lemma DifficultyCaseInsensitive(pkg: Package, d: string)
    requires d != "all" && Lower(d) != "all"
    ensures MatchesDifficulty(pkg, d) <==> MatchesDifficulty(pkg, Lower(d))
  {
    LowerIdempotent(d);
  }

  /** The cleared filters accept every package. */
  lemma ClearedMatchesEverything(pkg: Package)
    ensures Matches(pkg, Cleared)
  {
    LowerEmpty();
    IncludesEmpty(Lower(pkg.title));
  }

  /** After "Clear Filters" the whole catalogue is shown. */
  lemma ClearedShowsAll(all: seq<Package>)
    ensures FilterPackages(all, Cleared) == all
  {
    forall pkg | pkg in all
      ensures Matches(pkg, Cleared)
    {
      ClearedMatchesEverything(pkg);
    }
    Seqs.FilterAll(all, pkg => Matches(pkg, Cleared));
  }

  /**
   The shown packages are exactly the catalogue entries that pass all three
   controls, in catalogue order, so "Showing X of Y" has X <= Y.
   */
  lemma FilterPackagesExact(all: seq<Package>, f: Filters)
    ensures Seqs.IsSubsequence(FilterPackages(all, f), all)
    ensures forall pkg :: pkg in all ==> (pkg in FilterPackages(all, f) <==> Matches(pkg, f))
    ensures |FilterPackages(all, f)| <= |all|
  {
    Seqs.FilterIsSubsequence(all, pkg => Matches(pkg, f));
    Seqs.FilterKeepsMatches(all, pkg => Matches(pkg, f));
  }

  /** Every shown package has the lower-cased term in its lower-cased title or destination. */
  lemma ShownPackagesContainTerm(all: seq<Package>, f: Filters, pkg: Package)
    requires pkg in FilterPackages(all, f)
    ensures Occurs(Lower(pkg.title), Lower(f.search)) || Occurs(Lower(pkg.destination), Lower(f.search))
  {
    assert MatchesSearch(pkg, f.search);
    IncludesIffOccurs(Lower(pkg.title), Lower(f.search));
    IncludesIffOccurs(Lower(pkg.destination), Lower(f.search));
  }

  /** The "No packages match your filters" branch is taken exactly when no package passes. */
  lemma NoMatchesIff(all: seq<Package>, f: Filters)
    ensures |FilterPackages(all, f)| == 0 <==> forall pkg :: pkg in all ==> !Matches(pkg, f)
  {
    Seqs.FilterEmptyIff(all, pkg => Matches(pkg, f));
  }

  /** With an empty search and every difficulty, only the price select decides. */
  lemma OnlyPriceSelects(pkg: Package, priceRange: string)
    ensures Matches(pkg, Filters("", "all", priceRange)) <==> MatchesPrice(pkg, priceRange)
  {
    LowerEmpty();
    IncludesEmpty(Lower(pkg.title));
  }

  /** Of the six catalogue entries only the third is under KES 50 000. */
  lemma CatalogueLowEntries(f: Filters)
    requires f.search == "" && f.difficulty == "all" && f.priceRange == "low"
    ensures forall i :: 0 <= i < |AllPackages| ==> (Matches(AllPackages[i], f) <==> i == 2)
  {
    forall i | 0 <= i < |AllPackages|
      ensures Matches(AllPackages[i], f) <==> i == 2
    {
      OnlyPriceSelects(AllPackages[i], "low");
    }
  }

  /** In the catalogue, "Under KES 50K" alone leaves only the Nairobi city tour. */
  lemma LowBucketOfCatalogue(f: Filters)
    requires f.search == "" && f.difficulty == "all" && f.priceRange == "low"
    ensures FilterPackages(AllPackages, f) == [AllPackages[2]]
  {
    CatalogueLowEntries(f);
    Seqs.FilterSingle(AllPackages, pkg => Matches(pkg, f), 2);
  }
}
