/**
 The image gallery of `src/components/ImageGallery.tsx`: a main image and
 up to four thumbnails, and a lightbox that steps circularly through the
 main image followed by the extra images.
 */
module ImageGallery {
  import opened Options

  datatype Image = Image(src: string, alt: string)

  /** The component's props. */
  datatype Props = Props(images: seq<Image>, mainImage: string, mainAlt: string)

  /** The component's state: the source shown in the lightbox (if any) and its position. */
  datatype State = State(selected: Option<string>, currentIndex: int)

  /** One thumbnail: the image, the position it opens, and the "+N more" overlay if it carries one. */
  datatype Thumb = Thumb(image: Image, opens: int, more: Option<int>)

  /** The lightbox counter, `position / total`. */
  datatype Counter = Counter(position: int, total: int)

  const Initial := State(None, 0)

  /** `allImages`: the main image first, then the extra images. */
  function AllImages(g: Props): (r: seq<Image>)
    ensures |r| == |g.images| + 1
    ensures r[0].src == g.mainImage && r[0].alt == g.mainAlt
    ensures r[1..] == g.images
  {
    [Image(g.mainImage, g.mainAlt)] + g.images
  }

  /** JavaScript's `%`: the remainder takes the sign of the dividend. */
  function JsRem(a: int, b: int): int
    requires b != 0
  {
    var m := (if a < 0 then -a else a) % (if b < 0 then -b else b);
    if a < 0 then -m else m
  }

  /** On non-negative operands JavaScript's `%` agrees with Dafny's. */
  lemma JsRemOfNatural(a: int, b: int)
    requires a >= 0 && b > 0
    ensures JsRem(a, b) == a % b
    ensures 0 <= JsRem(a, b) < b
  {
  }

  /** The lightbox state agrees with the props: a valid position, showing that position's image. */
  ghost predicate Valid(g: Props, s: State)
  {
    && 0 <= s.currentIndex < |AllImages(g)|
    && (s.selected.Some? ==> s.selected.value == AllImages(g)[s.currentIndex].src)
  }

  /** `{selectedImage && …}`: the lightbox is rendered only for a non-empty source. */
  predicate LightboxShown(s: State)
  {
    s.selected.Some? && s.selected.value != ""
  }

  /** `openLightbox(index)`. */
  function Open(g: Props, index: int): (r: State)
    requires 0 <= index < |AllImages(g)|
    ensures Valid(g, r)
    ensures r.currentIndex == index && r.selected.Some?
  {
    State(Some(AllImages(g)[index].src), index)
  }

  /** `closeLightbox()`: the image is cleared, the position is kept. */
  function Close(s: State): (r: State)
    ensures r.selected.None? && !LightboxShown(r)
    ensures r.currentIndex == s.currentIndex
  {
    s.(selected := None)
  }

  /** `nextImage()`: one step forward, wrapping from the last image to the main one. */
  function Next(g: Props, s: State): (r: State)
    requires 0 <= s.currentIndex < |AllImages(g)|
    ensures Valid(g, r) && r.selected.Some?
    ensures s.currentIndex < |g.images| ==> r.currentIndex == s.currentIndex + 1
    ensures s.currentIndex == |g.images| ==> r.currentIndex == 0
  {
    var n := |AllImages(g)|;
    JsRemOfNatural(s.currentIndex + 1, n);
    var i := JsRem(s.currentIndex + 1, n);
    State(Some(AllImages(g)[i].src), i)
  }

  /** `prevImage()`: one step back, wrapping from the main image to the last one. */
  function Prev(g: Props, s: State): (r: State)
    requires 0 <= s.currentIndex < |AllImages(g)|
    ensures Valid(g, r) && r.selected.Some?
    ensures s.currentIndex > 0 ==> r.currentIndex == s.currentIndex - 1
    ensures s.currentIndex == 0 ==> r.currentIndex == |g.images|
  {
    var n := |AllImages(g)|;
    JsRemOfNatural(s.currentIndex - 1 + n, n);
    var i := JsRem(s.currentIndex - 1 + n, n);
    State(Some(AllImages(g)[i].src), i)
  }

  /** The starting state is valid. */
  lemma InitialValid(g: Props)
    ensures Valid(g, Initial)
  {
  }

  /** Closing keeps a valid state valid. */
  lemma CloseValid(g: Props, s: State)
    requires Valid(g, s)
    ensures Valid(g, Close(s))
  {
  }

  /** "Previous" undoes "next": the position comes back, and so does an open lightbox. */
  lemma PrevUndoesNext(g: Props, s: State)
    requires Valid(g, s)
    ensures Prev(g, Next(g, s)).currentIndex == s.currentIndex
    ensures s.selected.Some? ==> Prev(g, Next(g, s)) == s
  {
  }

  /** "Next" undoes "previous". */
  lemma NextUndoesPrev(g: Props, s: State)
    requires Valid(g, s)
    ensures Next(g, Prev(g, s)).currentIndex == s.currentIndex
    ensures s.selected.Some? ==> Next(g, Prev(g, s)) == s
  {
  }

  /** `k` presses of "next". */
  function NextTimes(g: Props, s: State, k: nat): (r: State)
    requires 0 <= s.currentIndex < |AllImages(g)|
    ensures 0 <= r.currentIndex < |AllImages(g)|
  {
    if k == 0 then s else Next(g, NextTimes(g, s, k - 1))
  }

  /**
   After `k` presses of "next" (at most one lap), the position has advanced
   by `k`, wrapping past the last image back to the main one at most once.
   */
  lemma {:induction false} NextTimesPosition(g: Props, s: State, k: nat)
    requires 0 <= s.currentIndex < |AllImages(g)|
    requires k <= |AllImages(g)|
    ensures NextTimes(g, s, k).currentIndex ==
      if s.currentIndex + k < |AllImages(g)| then s.currentIndex + k else s.currentIndex + k - |AllImages(g)|
  {
    if k > 0 {
      NextTimesPosition(g, s, k - 1);
    }
  }

  /** Pressing "next" once per image walks the whole gallery and comes back to the start. */
  lemma NextFullCircle(g: Props, s: State)
    requires 0 <= s.currentIndex < |AllImages(g)|
    ensures NextTimes(g, s, |AllImages(g)|).currentIndex == s.currentIndex
  {
    NextTimesPosition(g, s, |AllImages(g)|);
  }

  /** The thumbnail strip: the first four extra images, the fourth with "+N more" if more exist. */
  function Thumbnails(g: Props): (r: seq<Thumb>)
    ensures |r| <= 4
    ensures |r| == |g.images| || (|r| == 4 && |g.images| > 4)
    ensures forall k :: 0 <= k < |r| ==> r[k].image == g.images[k]
    ensures forall k :: 0 <= k < |r| ==> r[k].opens == k + 1
    ensures forall k :: 0 <= k < |r| ==> 0 <= r[k].opens < |AllImages(g)| && AllImages(g)[r[k].opens] == r[k].image
    ensures forall k :: 0 <= k < |r| ==> (r[k].more.Some? <==> k == 3 && |g.images| > 4)
    ensures forall k :: 0 <= k < |r| && r[k].more.Some? ==> 3 + r[k].more.value == |g.images|
  {
    var shown := if |g.images| < 4 then |g.images| else 4;
    seq(shown, k requires 0 <= k < shown =>
      Thumb(g.images[k], k + 1, if k == 3 && |g.images| > 4 then Some(|g.images| - 3) else None))
  }

  /** Clicking thumbnail `k` opens the lightbox on extra image `k`. */
  lemma ThumbnailOpensItsImage(g: Props, k: int)
    requires 0 <= k < |Thumbnails(g)|
    ensures Open(g, Thumbnails(g)[k].opens).selected == Some(g.images[k].src)
  {
  }

  /** `{currentIndex + 1} / {allImages.length}`: the 1-based position out of every image. */
  function CounterOf(g: Props, s: State): (c: Counter)
    requires Valid(g, s)
    ensures c.position == s.currentIndex + 1
    ensures c.total == |g.images| + 1
    ensures 1 <= c.position <= c.total
  {
    Counter(s.currentIndex + 1, |AllImages(g)|)
  }

  /** "Next" advances the counter by one, and from the last image it reads 1 again. */
  lemma CounterAfterNext(g: Props, s: State)
    requires Valid(g, s)
    ensures CounterOf(g, Next(g, s)).total == CounterOf(g, s).total
    ensures CounterOf(g, s).position == CounterOf(g, s).total ==> CounterOf(g, Next(g, s)).position == 1
    ensures CounterOf(g, s).position < CounterOf(g, s).total ==>
      CounterOf(g, Next(g, s)).position == CounterOf(g, s).position + 1
  {
  }

  /** "Previous" moves the counter back by one, and from 1 it reads the total. */
  lemma CounterAfterPrev(g: Props, s: State)
    requires Valid(g, s)
    ensures CounterOf(g, s).position == 1 ==> CounterOf(g, Prev(g, s)).position == CounterOf(g, s).total
    ensures CounterOf(g, s).position > 1 ==> CounterOf(g, Prev(g, s)).position == CounterOf(g, s).position - 1
  {
  }

  /** Clicking the main image shows "1 / n", and clicking thumbnail `k` shows "k + 2 / n". */
  lemma CounterAfterClick(g: Props, k: int)
    requires 0 <= k < |Thumbnails(g)|
    ensures CounterOf(g, Open(g, 0)).position == 1
    ensures CounterOf(g, Open(g, Thumbnails(g)[k].opens)).position == k + 2
  {
  }
}
