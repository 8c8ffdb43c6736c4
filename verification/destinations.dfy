/**
 The destination search of `src/pages/Destinations.tsx`: the fetched list of
 published destinations filtered by one search box, and the choice between
 the spinner, the card grid and the "No destinations found" message.
 */
module Destinations {
  import opened Text
  import Seqs

  import opened Options

  datatype Destination = Destination(id: string, title: string, country: string, region: Option<string>)

  /** What the page body shows. */
  datatype View = Spinner | Grid(cards: seq<Destination>) | NotFound

  /**
   Title, country or (when present) region contains the search term, ignoring
   case; `dest.region?.…` is `undefined`, so false, for a missing region.
   */
  predicate Matches(dest: Destination, term: string)
  {
    || Includes(Lower(dest.title), Lower(term))
    || Includes(Lower(dest.country), Lower(term))
    || (dest.region.Some? && Includes(Lower(dest.region.value), Lower(term)))
  }

  /** `destinations?.filter(…)`: nothing to filter while the query has no data. */
  function FilterDestinations(fetched: Option<seq<Destination>>, term: string): (r: Option<seq<Destination>>)
    ensures r.Some? <==> fetched.Some?
    ensures r.Some? ==> |r.value| <= |fetched.value|
    ensures r.Some? ==> forall d :: d in r.value ==> d in fetched.value && Matches(d, term)
  {
    match fetched
    case None => None
    case Some(ds) => Some(Seqs.Filter(ds, d => Matches(d, term)))
  }

  /** The page body: spinner while loading, the grid when something matched, otherwise the message. */
  function Render(isLoading: bool, filtered: Option<seq<Destination>>): (v: View)
    ensures isLoading <==> v.Spinner?
    ensures v.Grid? <==> !isLoading && filtered.Some? && |filtered.value| > 0
    ensures v.Grid? ==> v.cards == filtered.value
  {
    if isLoading then Spinner
    else if filtered.Some? && |filtered.value| > 0 then Grid(filtered.value)
    else NotFound
  }

  /**
   A destination is kept exactly when the lower-cased term occurs in its
   lower-cased title, country or present region.
   */
  lemma MatchesIffOccurs(dest: Destination, term: string)
    ensures Matches(dest, term) <==>
      || Occurs(Lower(dest.title), Lower(term))
      || Occurs(Lower(dest.country), Lower(term))
      || (dest.region.Some? && Occurs(Lower(dest.region.value), Lower(term)))
  {
    IncludesIffOccurs(Lower(dest.title), Lower(term));
    IncludesIffOccurs(Lower(dest.country), Lower(term));
    if dest.region.Some? {
      IncludesIffOccurs(Lower(dest.region.value), Lower(term));
    }
  }

  /** The filtered list is the fetched list minus the non-matching entries, in the same order. */
  lemma FilterDestinationsExact(ds: seq<Destination>, term: string)
    ensures FilterDestinations(Some(ds), term).Some?
    ensures Seqs.IsSubsequence(FilterDestinations(Some(ds), term).value, ds)
    ensures forall d :: d in ds ==> (d in FilterDestinations(Some(ds), term).value <==> Matches(d, term))
  {
    Seqs.FilterIsSubsequence(ds, d => Matches(d, term));
    Seqs.FilterKeepsMatches(ds, d => Matches(d, term));
  }

  /** An empty search keeps every fetched destination. */
  lemma EmptySearchKeepsAll(ds: seq<Destination>)
    ensures FilterDestinations(Some(ds), "") == Some(ds)
  {
    LowerEmpty();
    forall d | d in ds
      ensures Matches(d, "")
    {
      IncludesEmpty(Lower(d.title));
    }
    Seqs.FilterAll(ds, d => Matches(d, ""));
  }

  /** Without a region, only the title and the country can match. */
  lemma NoRegionMatchesTitleOrCountry(dest: Destination, term: string)
    requires dest.region.None?
    ensures Matches(dest, term) <==> Occurs(Lower(dest.title), Lower(term)) || Occurs(Lower(dest.country), Lower(term))
  {
    MatchesIffOccurs(dest, term);
  }

  /** Once loaded, the message is shown exactly when no fetched destination matches. */
  lemma NotFoundIffNoMatch(ds: seq<Destination>, term: string)
    ensures Render(false, FilterDestinations(Some(ds), term)).NotFound? <==> forall d :: d in ds ==> !Matches(d, term)
  {
    Seqs.FilterEmptyIff(ds, d => Matches(d, term));
  }

  /** A finished query that returned no data also shows the message. */
  lemma NoDataShowsNotFound(term: string)
    ensures Render(false, FilterDestinations(None, term)) == NotFound
  {
  }
}
