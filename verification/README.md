# Safari booking site: the pure logic of its pages, in Dafny

The site is a React front-end for a tour operator. It lists destinations and tour
packages, shows detail pages with an image gallery, takes multi-traveller bookings,
and offers admin tables for bookings and destinations. Persistence, authentication
and storage all go through a hosted backend. This project models the parts of the
pages that are plain sequential logic. Each piece of component state is an immutable
record, and each event handler is a pure function from the old state to the new one.

- `Text` (`text.dfy`): `toLowerCase` restricted to ASCII, and `String.prototype.includes`.
  The lemma `IncludesIffOccurs` ties `includes` to a plain occurrence definition.
- `Seqs` (`seqs.dfy`): `Array.prototype.filter`. It is proved to keep exactly the
  matching positions, in order.
- `Booking` (`booking.dfy`): the booking form. It covers the traveller count and its
  +/- buttons, the per-traveller detail cards, the total, and the submit guards that
  build the inserted `bookings` row.
- `Packages` (`packages.dfy`): the six-package catalogue. It has a search box, a
  difficulty select, a price-range select and "Clear Filters".
- `Destinations` (`destinations.dfy`): the destination search and the choice of page body.
- `ImageGallery` (`image_gallery.dfy`): the main image, the thumbnails with the
  "+N more" overlay, the circular lightbox and its counter.
- `DestinationsManager` (`destinations_manager.dfy`): the region, highlight and
  status cells of the admin destinations table.
- `BookingsManager` (`bookings_manager.dfy`): the status badges, the status select,
  and the single "row being updated" flag of the admin bookings table.
- `Badge` (`badge.dfy`): the four badge variants.
- `Options` (`options.dfy`): the optional value shared by the modules above.

Two facts about the code worth knowing:

- Only the "+" and "-" buttons clamp the traveller count to `[1, seats_available]`. The
  count-change handler stores a typed count as is, so the form state can hold a count above
  the seats (`Booking.TypedCountIsNotClamped`). The number input's `min` and `max` attributes let
  the browser block such a submit before `handleSubmit` runs. That check is listed under "Left out".
- The catalogue page (`src/pages/Packages.tsx`) only filters. It has no sort control.

## Model

| member | source | states |
|---|---|---|
| Text.Lower | src/pages/Packages.tsx:89-91 | lower-casing keeps the length and lower-cases each character in place |
| Text.IncludesIffOccurs | src/pages/Packages.tsx:89-90 | `includes` holds exactly when the needle occurs at some position of the haystack |
| Seqs.Filter | src/pages/Packages.tsx:88 | the filtered list is no longer than the input, and everything in it comes from the input and satisfies the predicate |
| Seqs.FilterExact | src/pages/Packages.tsx:88 | the filter reads the input off at strictly increasing positions, and a position is kept exactly when its element satisfies the predicate |
| Seqs.FilterAll | src/pages/Packages.tsx:88 | a predicate that accepts every element returns the list unchanged |
| Seqs.FilterEmptyIff | src/pages/Destinations.tsx:26 | the filtered list is empty exactly when no element satisfies the predicate |
| Booking.Resize | src/pages/Booking.tsx:51-53 | the new list has `count` entries (0 for a negative count); existing entries below the new length are kept and new slots are blank |
| Booking.ChangeTravelerCount | src/pages/Booking.tsx:49-55 | after a count change there is exactly one card per traveller, and the date, the requests and the surviving cards are unchanged |
| Booking.ResizeGrowShrink | src/pages/Booking.tsx:51-53 | growing the list and shrinking it back restores the original cards |
| Booking.ResizeShrinkGrow | src/pages/Booking.tsx:51-53 | shrinking discards cards: growing back yields the kept prefix followed by blank cards |
| Booking.Set | src/pages/Booking.tsx:59 | the spread-and-override sets the named field and leaves the other three fields as they were |
| Booking.ChangeTravelerDetail | src/pages/Booking.tsx:57-61 | exactly one field of one card changes; the length, the other cards, the other fields and the rest of the form are unchanged |
| Booking.ChangeTravelerDetailUndo | src/pages/Booking.tsx:57-61 | typing a field's old value back into it restores the whole form |
| Booking.ChangeTravelerDetailWellFormed | src/pages/Booking.tsx:57-61 | editing a card keeps one card per traveller |
| Booking.InitialWellFormed | src/pages/Booking.tsx:27-31 | the form starts with one traveller and one card |
| Booking.DecrementTarget | src/pages/Booking.tsx:205 | the "-" target is never below 1, and it is one less than the count whenever the count exceeds 1 |
| Booking.IncrementTarget | src/pages/Booking.tsx:223 | the "+" target never exceeds the available seats, and it is one more than the count whenever the count is below them |
| Booking.PressDecrement | src/pages/Booking.tsx:205-206 | a disabled "-" (count <= 1) changes nothing; otherwise the count drops by one to a value >= 1 and the last card is removed |
| Booking.PressIncrement | src/pages/Booking.tsx:223-224 | a disabled "+" (count >= seats) changes nothing; otherwise the count rises by one, stays within the seats, and a blank card is appended |
| Booking.IncrementThenDecrement | src/pages/Booking.tsx:201-227 | within the seat limit, "+" then "-" restores the count and every card |
| Booking.DecrementThenIncrement | src/pages/Booking.tsx:201-227 | "-" then "+" restores the count, but the removed card comes back blank |
| Booking.ButtonsKeepCountInRange | src/pages/Booking.tsx:201-227 | starting in [1, seats], both buttons keep the count in [1, seats] |
| Booking.TypedCount | src/pages/Booking.tsx:216 | the typed count is the parsed number, except that NaN and 0 become 1 |
| Booking.TypedCountIsNotClamped | src/pages/Booking.tsx:210-218 | the change handler stores a typed count above the seats in the form state as is |
| Booking.ButtonsMoveTotalByOnePrice | src/pages/Booking.tsx:201-227 | measured by the summary total `price_kes * numTravelers` of line 145, an enabled "+" raises the summary total by one unit price, an enabled "-" lowers it by one, and a disabled button leaves it unchanged |
| Booking.OptionalText | src/pages/Booking.tsx:91 | empty special requests are sent as absent, and any other text as is |
| Booking.RowOf | src/pages/Booking.tsx:94-104 | the inserted row carries the user and the package, and both its booking and payment statuses are `pending` |
| Booking.Submit | src/pages/Booking.tsx:63-120 | the guards run in the order user, date, package, schema; an insert happens exactly when all pass, and its row carries the user, the form's count, date and cards, total = price x count, the special requests (absent when empty, otherwise the typed text) and two `pending` statuses |
| Booking.SubmitChecksUserFirst | src/pages/Booking.tsx:66-70 | without a user the outcome is the login redirect, whatever the date, package or form |
| Booking.SubmittedTotalMatchesSummary | src/pages/Booking.tsx:82 | the total in an inserted row equals the total shown in the summary card |
| Packages.FilterPackages | src/pages/Packages.tsx:88-98 | the shown packages come from the catalogue and pass all three controls |
| Packages.MatchesPriceIffBucket | src/pages/Packages.tsx:92-95 | the price select accepts a package exactly when it is `all` or names the package's price bucket |
| Packages.PriceBucketsPartition | src/pages/Packages.tsx:92-95 | the low, medium and high buckets are pairwise disjoint and together cover every price |
| Packages.DifficultyIgnoresCase | src/pages/Packages.tsx:91 | the select value `easy` matches a package whose difficulty is `Easy` |
| Packages.DifficultyCaseInsensitive | src/pages/Packages.tsx:91 | changing only the case of the difficulty selection does not change which packages pass, unless the selection lower-cases to `all` (only the exact `all` disables the control) |
| Packages.ClearedMatchesEverything | src/pages/Packages.tsx:88-97 | an empty search with `all` and `all` accepts every package |
| Packages.ClearedShowsAll | src/pages/Packages.tsx:157-161 | after "Clear Filters" the whole list is shown, in order |
| Packages.FilterPackagesExact | src/pages/Packages.tsx:88-98 | the shown list is an order-preserving subsequence of the catalogue, a package is shown exactly when it passes all three controls, and "Showing X of Y" has X <= Y |
| Packages.ShownPackagesContainTerm | src/pages/Packages.tsx:89-90 | every shown package has the lower-cased term in its lower-cased title or destination |
| Packages.NoMatchesIff | src/pages/Packages.tsx:178-186 | the "No packages match" branch is taken exactly when no package passes the controls |
| Packages.OnlyPriceSelects | src/pages/Packages.tsx:88-97 | with an empty search and every difficulty, only the price select decides |
| Packages.CatalogueLowEntries | src/pages/Packages.tsx:19-86 | of the six catalogue entries only the third is under KES 50 000 |
| Packages.LowBucketOfCatalogue | src/pages/Packages.tsx:88-98 | on the catalogue, the "Under KES 50K" filter alone shows only the Nairobi city tour |
| Destinations.FilterDestinations | src/pages/Destinations.tsx:26-30 | no data gives no list; otherwise the list is no longer than the fetched one and holds only matching destinations |
| Destinations.MatchesIffOccurs | src/pages/Destinations.tsx:26-30 | a destination is kept exactly when the lower-cased term occurs in its lower-cased title, country or present region |
| Destinations.FilterDestinationsExact | src/pages/Destinations.tsx:26 | the result is an order-preserving subsequence of the fetched list, and it holds exactly the matching destinations |
| Destinations.EmptySearchKeepsAll | src/pages/Destinations.tsx:26-30 | an empty search keeps every fetched destination |
| Destinations.NoRegionMatchesTitleOrCountry | src/pages/Destinations.tsx:29 | a destination without a region matches only through its title or country |
| Destinations.Render | src/pages/Destinations.tsx:57-79 | the spinner shows exactly while loading; the grid shows exactly when the filtered list is non-empty, and then it shows that list |
| Destinations.NotFoundIffNoMatch | src/pages/Destinations.tsx:61-78 | once loaded, "No destinations found" shows exactly when no fetched destination matches |
| Destinations.NoDataShowsNotFound | src/pages/Destinations.tsx:57-78 | a finished query without data shows "No destinations found" |
| ImageGallery.AllImages | src/components/ImageGallery.tsx:15 | the main image comes first and the extra images follow, so there are `images.length + 1` >= 1 entries |
| ImageGallery.JsRemOfNatural | src/components/ImageGallery.tsx:27 | on non-negative operands the truncating `%` agrees with the mathematical remainder and lies in [0, n) |
| ImageGallery.Open | src/components/ImageGallery.tsx:17-20 | opening sets the position and shows the image at that position |
| ImageGallery.Close | src/components/ImageGallery.tsx:22-24 | closing clears the image, hides the lightbox and keeps the position |
| ImageGallery.CloseValid | src/components/ImageGallery.tsx:22-24 | closing keeps the position in range |
| ImageGallery.InitialValid | src/components/ImageGallery.tsx:12-13 | the starting state (nothing shown, position 0) is valid for every gallery |
| ImageGallery.Next | src/components/ImageGallery.tsx:26-30 | "next" moves one step forward and wraps from the last image to the main one; the position stays in [0, n) and the shown image is the one at the new position |
| ImageGallery.Prev | src/components/ImageGallery.tsx:32-36 | "previous" moves one step back and wraps from the main image to the last one; the position stays in [0, n) and the shown image is the one at the new position |
| ImageGallery.PrevUndoesNext | src/components/ImageGallery.tsx:26-36 | "previous" after "next" restores the position, and the whole state when the lightbox was open |
| ImageGallery.NextUndoesPrev | src/components/ImageGallery.tsx:26-36 | "next" after "previous" restores the position, and the whole state when the lightbox was open |
| ImageGallery.NextTimes | src/components/ImageGallery.tsx:26-30 | any number of "next" presses keeps the position in range |
| ImageGallery.NextTimesPosition | src/components/ImageGallery.tsx:26-30 | within one lap, k presses of "next" advance the position by k and wrap at most once |
| ImageGallery.NextFullCircle | src/components/ImageGallery.tsx:26-30 | one press per image brings the lightbox back to where it started |
| ImageGallery.Thumbnails | src/components/ImageGallery.tsx:60-84 | at most 4 thumbnails, the first extra images in order; thumbnail k opens position k+1, which holds that image; only the 4th, and only with more than 4 images, carries "+N more" with N = images.length - 3 |
| ImageGallery.ThumbnailOpensItsImage | src/components/ImageGallery.tsx:62-66 | clicking thumbnail k shows extra image k in the lightbox |
| ImageGallery.CounterOf | src/components/ImageGallery.tsx:115 | the counter shows `currentIndex + 1` of `images.length + 1`, and the shown position lies in [1, total] |
| ImageGallery.CounterAfterNext | src/components/ImageGallery.tsx:26-30 | read on the counter of line 115, "next" keeps the total and advances the counter by one, except that from the last image it reads 1 |
| ImageGallery.CounterAfterPrev | src/components/ImageGallery.tsx:32-36 | read on the counter of line 115, "previous" moves the counter back by one, except that from 1 it reads the total |
| ImageGallery.CounterAfterClick | src/components/ImageGallery.tsx:44-66 | read on the counter of line 115, clicking the main image shows position 1, and clicking thumbnail k shows position k + 2 |
| DestinationsManager.RegionCell | src/components/admin/DestinationsManager.tsx:63 | a missing or empty region reads "N/A", and any other region reads as itself |
| DestinationsManager.HighlightsCellOf | src/components/admin/DestinationsManager.tsx:64-82 | missing or empty highlights read "None"; otherwise all highlights when there are at most 3, and else exactly the first 3 plus a "+N" badge with N = length - 3 |
| DestinationsManager.HighlightsAccounted | src/components/admin/DestinationsManager.tsx:68-77 | the badges followed by the hidden highlights give back the whole list, and "+N" counts exactly the hidden ones |
| DestinationsManager.StatusVariant | src/components/admin/DestinationsManager.tsx:85 | the status badge is `default` exactly for `published`, and `secondary` otherwise |
| DestinationsManager.TableRows | src/components/admin/DestinationsManager.tsx:46-98 | the table shows the fetched rows unchanged, and "No destinations found" shows exactly when the list is missing or empty |
| BookingsManager.StatusBadge | src/components/admin/BookingsManager.tsx:72-80 | pending maps to outline, confirmed to default, cancelled to destructive and completed to secondary; any other status falls back to default |
| BookingsManager.StatusBadgeDistinguishes | src/components/admin/BookingsManager.tsx:73-79 | destructive, outline and secondary each belong to exactly one status |
| BookingsManager.StartStatusChange | src/components/admin/BookingsManager.tsx:67-70 | choosing a status marks that booking as being updated and leaves the rows as they are |
| BookingsManager.ApplyStatusUpdate | src/components/admin/BookingsManager.tsx:47-51 | the update overwrites only `booking_status`, and only in the rows with the given id; the length and all other rows are unchanged |
| BookingsManager.Settle | src/components/admin/BookingsManager.tsx:55-64 | success and error both reset the updating flag; success shows the updated rows and error leaves them unchanged |
| BookingsManager.StartDisablesOnlyThatRow | src/components/admin/BookingsManager.tsx:135 | while an update is in flight, a row's select is disabled exactly when its id is the one being updated |
| BookingsManager.SettleEnablesEveryRow | src/components/admin/BookingsManager.tsx:55-64 | once the update settles, no row is disabled |
| BookingsManager.SuccessfulChange | src/components/admin/BookingsManager.tsx:46-70 | a successful change gives the chosen booking the new status, leaves every other row untouched and clears the flag |
| BookingsManager.AnyTransitionAccepted | src/components/admin/BookingsManager.tsx:140-145 | any of the four statuses is accepted from any current status: there is no transition check |
| BookingsManager.ApplySameStatusIsIdentity | src/components/admin/BookingsManager.tsx:49-51 | setting a booking to the status it already has changes nothing |
| BookingsManager.LastUpdateWins | src/components/admin/BookingsManager.tsx:49-51 | two updates of the same booking leave the later status |
| BookingsManager.OverlappingChangesShareOneFlag | src/components/admin/BookingsManager.tsx:55-70 | the flag holds one id: when a second change starts before the first settles, the first settling re-enables the second row too |

## Left out

- Backend calls are not modelled: the selects, inserts, updates, role checks, auth sessions and storage. The model builds the inserted booking row and the updated booking list as values. Whether the backend accepts them is outside the model.
- The booking schema in `src/lib/bookingValidation` is not part of this model. `Booking.Submit` takes it as a predicate `accepts`. It assumes a successful parse returns its input unchanged. The schema's messages are not modelled.
- Booking.Submit: the browser's form validation before `handleSubmit` is not modelled. It covers the `required` inputs, the `type="email"` format and the number input's `min="1"` and `max={seats_available}`. It can stop the submit event before any modelled guard runs.
- Booking.Submit: the `isSubmitting` flag, the toasts, the navigation and a failing insert are not modelled. Those outcomes differ only in what is shown to the user.
- Dates: the calendar's `date < new Date()` rule and the `format(date, "yyyy-MM-dd")` text are left out because they depend on the clock and the locale. A date is a plain record.
- `toLowerCase` is modelled for ASCII letters only. Full Unicode case mapping is left out.
- Prices and totals are integers. JavaScript numbers can be fractional, and `toLocaleString` formatting is not modelled.
- Booking.ChangeTravelerDetail: requires an index of an existing card. The handler is only called with the index of a rendered card. An out-of-range index would make JavaScript create a sparse entry, which the model does not represent.
- Booking.Set: the field is one of the four card inputs, not an arbitrary string key, because the form only ever passes those four names.
- Booking.Resize: a length of 2^32 or more, which makes `Array.from` throw, is not modelled.
- Booking.TypedCount: takes the already parsed number (`None` for NaN). Parsing the input text is left out.
- ImageGallery.Next and ImageGallery.Prev: require the current position to be in range. Every handler keeps the position in range, as `Valid` shows. A change of props that shortens the image list under an open lightbox is not modelled.
- BookingsManager.StatusBadge: a status that is the name of an `Object.prototype` property (such as `constructor`) is not modelled. JavaScript would look that name up on the prototype.
- BookingsManager.Settle: a successful update is modelled as the refetched list with the update applied. This assumes no other writer changed the table in between.
- Query caching, invalidation timing, the admin statistics and all rendering and styling are left out.
