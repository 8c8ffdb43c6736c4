/**
 The read-only destinations table of
 `src/components/admin/DestinationsManager.tsx`: per row, the region cell,
 the highlight badges (at most three plus a "+N" overflow badge) and the
 status badge.
 */
module DestinationsManager {
  import opened Badge

  import opened Options

  datatype Destination = Destination(
    title: string,
    country: string,
    region: Option<string>,
    highlights: Option<seq<string>>,
    status: string)

  /** The highlights cell: the "None" label, or some badges and an optional overflow count. */
  datatype HighlightsCell = NoneLabel | Badges(shown: seq<string>, overflow: Option<int>)

  /** How many highlight badges a row shows before collapsing the rest into "+N". */
  const MaxHighlightBadges := 3

  /** `destination.region || "N/A"`: a missing or empty region reads "N/A". */
  function RegionCell(region: Option<string>): (r: string)
    ensures r == "N/A" <==> region.None? || region.value == "" || region.value == "N/A"
    ensures region.Some? && region.value != "" ==> r == region.value
  {
    match region
    case None => "N/A"
    case Some(v) => if v == "" then "N/A" else v
  }

  /** The highlights cell of one row. */
  function HighlightsCellOf(highlights: Option<seq<string>>): (c: HighlightsCell)
    ensures c.NoneLabel? <==> highlights.None? || |highlights.value| == 0
    ensures c.Badges? ==> |c.shown| <= MaxHighlightBadges && c.shown <= highlights.value
    ensures c.Badges? ==> (c.overflow.Some? <==> |highlights.value| > MaxHighlightBadges)
    ensures c.Badges? && c.overflow.Some? ==>
      && c.shown == highlights.value[..MaxHighlightBadges]
      && c.overflow.value == |highlights.value| - MaxHighlightBadges
      && c.overflow.value >= 1
    ensures c.Badges? && c.overflow.None? ==> c.shown == highlights.value
  {
    match highlights
    case None => NoneLabel
    case Some(hs) =>
      if |hs| == 0 then NoneLabel
      else if |hs| > MaxHighlightBadges then Badges(hs[..MaxHighlightBadges], Some(|hs| - MaxHighlightBadges))
      else Badges(hs, None)
  }

  /**
   Every highlight is accounted for: the badges followed by the highlights
   they hide give back the whole list, and "+N" counts exactly the hidden ones.
   */
  lemma HighlightsAccounted(hs: seq<string>)
    requires |hs| > 0
    ensures HighlightsCellOf(Some(hs)).Badges?
    ensures var c := HighlightsCellOf(Some(hs));
      && c.shown + hs[|c.shown|..] == hs
      && (c.overflow.Some? ==> c.overflow.value == |hs[|c.shown|..]|)
      && (c.overflow.None? ==> hs[|c.shown|..] == [])
  {
  }

  /** The status badge: `default` exactly for a published destination. */
  function StatusVariant(status: string): (v: Variant)
    ensures v == Default <==> status == "published"
    ensures v == Default || v == Secondary
  {
    if status == "published" then Default else Secondary
  }

  /** What the card body shows: the table, or "No destinations found" when the list is missing or empty. */
  function TableRows(destinations: Option<seq<Destination>>): (r: Option<seq<Destination>>)
    ensures r.None? <==> destinations.None? || |destinations.value| == 0
    ensures r.Some? ==> r.value == destinations.value
  {
    match destinations
    case None => None
    case Some(ds) => if |ds| == 0 then None else Some(ds)
  }
}
