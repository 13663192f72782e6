/**
 * The geometry and bookkeeping of `stitcher.py`: crop boxes, stitching one
 * scan below the previous one, the split thumbnail rows, and the
 * `ScanCollector` that decides when a stitched image is finished. Images
 * are abstracted to their size; the crop box of a scan is an input, as
 * finding it is pixel work.
 */
module Stitcher {
  import opened Wrappers

  /** `Cropbox`: a rectangle in pixel coordinates, right and bottom exclusive. */
  datatype Cropbox = Cropbox(left: int, top: int, right: int, bottom: int) {
    function Width(): int {
      right - left
    }

    function Height(): int {
      bottom - top
    }

    predicate Empty() {
      right <= left || bottom <= top
    }

    /**
     * `extend_below`: the box holding this one with `other` stacked directly
     * below it, and the paste offsets of the current image and of the new one.
     */
    function ExtendBelow(other: Cropbox): (r: (Cropbox, (int, int), (int, int)))
      ensures r.0.left == Min(left, other.left) && r.0.right == Max(right, other.right)
      ensures r.0.top == top && r.0.Height() == Height() + other.Height()
      ensures r.0.Width() >= Width() && r.0.Width() >= other.Width()
      ensures r.1.0 >= 0 && r.2.0 >= 0 && (r.1.0 == 0 || r.2.0 == 0)
      ensures r.0.left + r.1.0 == left && r.0.left + r.2.0 == other.left
      ensures r.1.1 == 0 && r.2.1 == Height()
    {
      (Cropbox(Min(left, other.left), top, Max(right, other.right), bottom + other.Height()),
       (if left <= other.left then 0 else left - other.left, 0),
       (if other.left <= left then 0 else other.left - left, Height()))
    }
  }

  function Min(a: int, b: int): int {
    if a <= b then a else b
  }

  function Max(a: int, b: int): int {
    if a <= b then b else a
  }

  /** A box is empty exactly when it has no positive width or no positive height. */
  lemma EmptyIffNoArea(cb: Cropbox)
    ensures cb.Empty() <==> cb.Width() <= 0 || cb.Height() <= 0
  {
  }

  /** Both pasted images fit inside the stitched box, one directly below the other. */
  lemma ExtendBelowFits(cur: Cropbox, other: Cropbox)
    requires !cur.Empty() && !other.Empty()
    ensures var (box, at, below) := cur.ExtendBelow(other);
            at.0 + cur.Width() <= box.Width() && below.0 + other.Width() <= box.Width() &&
            at.1 + cur.Height() == below.1 && below.1 + other.Height() == box.Height()
  {
  }

  const MAX_HEIGHT: int := 4000
  const PREVIEW_MARGIN: int := 3

  /**
   * The rows of a split thumbnail of height `h`: the top part ends at `tb`,
   * the bottom part starts at `bt` and is `btSize` rows high. Python's `//`
   * floors, as Dafny's `/` does for a positive divisor.
   */
  function SplitRows(h: int): (r: (int, int, int))
    ensures r.1 == r.0 + PREVIEW_MARGIN
    ensures r.0 + PREVIEW_MARGIN + r.2 == h
    ensures h >= PREVIEW_MARGIN ==> r.0 >= 0 && r.2 >= r.0
  {
    var tb := (h - PREVIEW_MARGIN) / 2;
    var bt := (h + PREVIEW_MARGIN) / 2;
    (tb, bt, h - bt)
  }

  /** An image, by its size. */
  datatype Picture = Picture(width: int, height: int)

  /** The scan cut to its crop box. */
  function Crop(cb: Cropbox): Picture {
    Picture(cb.Width(), cb.Height())
  }

  /** The thumbnail of the current image: scaled whole, or its top and bottom with a margin between. */
  datatype Thumb = Whole | Split(top: int, bottomAt: int, bottomSize: int)

  // ---- The end-of-page test -------------------------------------------------

  /**
   * The end-of-page test as written: `img` was rebound to the cropped scan
   * just before, so its height is the crop box's height.
   */
  predicate EndGapAsWritten(cb: Cropbox) {
    cb.bottom < Crop(cb).height - 10
  }

  /** As written the test fires only for a box starting more than 10 rows above the scan. */
  lemma EndGapAsWrittenNever(cb: Cropbox)
    requires cb.top >= 0
    ensures !EndGapAsWritten(cb)
  {
  }

  /** The test as intended: more than 10 blank rows below the content of the scanned page. */
  predicate EndGap(cb: Cropbox, scanned: Picture) {
    cb.bottom < scanned.height - 10
  }

  /** A half-filled page ends the stitched image as intended, but not as written. */
  lemma EndGapMissed()
    ensures var cb := Cropbox(0, 0, 100, 50);
            EndGap(cb, Picture(100, 100)) && !EndGapAsWritten(cb)
  {
  }

  /** A page filled to within 10 rows of its end does not end the stitched image. */
  lemma FullPageContinues(cb: Cropbox, scanned: Picture)
    requires cb.bottom >= scanned.height - 10
    ensures !EndGap(cb, scanned)
  {
  }

  // ---- The collector ----------------------------------------------------------

  /**
   * The state of a `ScanCollector`: the image being stitched and its box,
   * the finished images, the thumbnail counters and the current thumbnail.
   */
  datatype Collector = Collector(cur: Option<Picture>, box: Cropbox, imgs: seq<Picture>,
                                 thumbX: int, thumbWidth: int, thumb: Option<Thumb>)

  /** The current image is always exactly as large as its box. */
  predicate Matches(s: Collector) {
    s.cur.Some? ==> s.cur.value == Crop(s.box)
  }

  /** `_finalize_current`: the current image joins the finished ones. */
  function Finalized(s: Collector): (r: Collector)
    requires s.cur.Some?
    ensures r.cur.None? && r.imgs == s.imgs + [s.cur.value]
  {
    s.(cur := None, imgs := s.imgs + [s.cur.value])
  }

  /** The thumbnail `append` draws, with the aspect-ratio choice given as `simple`. */
  function ThumbFor(simple: bool, thumbHeight: int): Thumb {
    if simple then Whole
    else var (tb, bt, size) := SplitRows(thumbHeight); Split(tb, bt, size)
  }

  /** The three branches of `append`: start a new image, finish and start anew, or stitch below. */
  function Placed(s: Collector, cb: Cropbox): Collector {
    if s.cur.None? then
      s.(cur := Some(Crop(cb)), box := cb, thumbX := s.thumbX + s.thumbWidth, thumbWidth := 0)
    else if s.cur.value.height + cb.Height() > MAX_HEIGHT || cb.top > 10 then
      Finalized(s).(cur := Some(Crop(cb)), box := cb, thumbX := s.thumbX + s.thumbWidth, thumbWidth := 0)
    else
      var box := s.box.ExtendBelow(cb).0;
      s.(cur := Some(Crop(box)), box := box)
  }

  /**
   * `append` of a scan with crop box `cb` that passed the calibration-width
   * check, with the outcome of the end-of-page test given as `pageEnds`: an
   * empty box changes nothing; otherwise the scan is placed, the thumbnail
   * redrawn, and the image finished when the page ends early.
   */
  function AppendedWhen(s: Collector, cb: Cropbox, simple: bool, thumbHeight: int, pageEnds: bool): Collector {
    if cb.Empty() then s
    else
      var p := Placed(s, cb).(thumb := Some(ThumbFor(simple, thumbHeight)));
      if pageEnds then Finalized(p) else p
  }

  /** `append` with the end-of-page test as evidently intended; the collector uses this one. */
  function Appended(s: Collector, cb: Cropbox, scanned: Picture, simple: bool, thumbHeight: int): Collector {
    AppendedWhen(s, cb, simple, thumbHeight, EndGap(cb, scanned))
  }

  /** `append` with the end-of-page test as written. */
  function AppendedAsWritten(s: Collector, cb: Cropbox, simple: bool, thumbHeight: int): Collector {
    AppendedWhen(s, cb, simple, thumbHeight, EndGapAsWritten(cb))
  }

  /**
   * As written, `append` of a non-empty scan inside the page always leaves
   * an image to continue: an early end of page never finishes it.
   */
  lemma AppendedAsWrittenContinues(s: Collector, cb: Cropbox, simple: bool, thumbHeight: int)
    requires !cb.Empty() && cb.top >= 0
    ensures AppendedAsWritten(s, cb, simple, thumbHeight).cur.Some?
  {
    EndGapAsWrittenNever(cb);
  }

  /**
   * Where the two differ: when the page ends early, `append` as written leaves
   * the stitched image open, while as intended it finishes exactly that image.
   */
  lemma AppendedDiverges(s: Collector, cb: Cropbox, scanned: Picture, simple: bool, thumbHeight: int)
    requires !cb.Empty() && cb.top >= 0 && EndGap(cb, scanned)
    ensures var w := AppendedAsWritten(s, cb, simple, thumbHeight);
            w.cur.Some? && Appended(s, cb, scanned, simple, thumbHeight) == Finalized(w)
  {
    EndGapAsWrittenNever(cb);
  }

  /** The total height of the finished images. */
  function Heights(imgs: seq<Picture>): int {
    if imgs == [] then 0 else Heights(imgs[..|imgs| - 1]) + imgs[|imgs| - 1].height
  }

  /** Every row scanned so far, finished or still being stitched. */
  function Rows(s: Collector): int {
    Heights(s.imgs) + if s.cur.Some? then s.cur.value.height else 0
  }

  lemma FinalizedRows(s: Collector)
    requires s.cur.Some?
    ensures Rows(Finalized(s)) == Rows(s)
  {
    assert Finalized(s).imgs[..|s.imgs|] == s.imgs;
  }

  /** `append`, whatever the end-of-page test decides, keeps every image exactly as large as its box. */
  lemma AppendedMatches(s: Collector, cb: Cropbox, simple: bool, thumbHeight: int, pageEnds: bool)
    requires Matches(s)
    ensures Matches(AppendedWhen(s, cb, simple, thumbHeight, pageEnds))
  {
  }

  /** No row is lost or duplicated: a non-empty scan adds exactly its crop box's height. */
  lemma AppendedRows(s: Collector, cb: Cropbox, simple: bool, thumbHeight: int, pageEnds: bool)
    requires Matches(s)
    ensures Rows(AppendedWhen(s, cb, simple, thumbHeight, pageEnds)) == Rows(s) + if cb.Empty() then 0 else cb.Height()
  {
    if !cb.Empty() {
      if s.cur.Some? {
        FinalizedRows(s);
      }
      var p := Placed(s, cb).(thumb := Some(ThumbFor(simple, thumbHeight)));
      assert Rows(p) == Rows(s) + cb.Height();
      if pageEnds {
        FinalizedRows(p);
      }
    }
  }

  /**
   * `append` finishes at most two images (the previous one and this one);
   * it finishes one exactly in the finish-and-start-anew branch when the page
   * is full, and an early end of page leaves nothing to continue.
   */
  lemma AppendedFinishes(s: Collector, cb: Cropbox, scanned: Picture, simple: bool, thumbHeight: int)
    ensures var r := Appended(s, cb, scanned, simple, thumbHeight);
            s.imgs <= r.imgs && |r.imgs| <= |s.imgs| + 2 &&
            (cb.Empty() ==> r == s) &&
            (!cb.Empty() && EndGap(cb, scanned) ==> r.cur.None?) &&
            (!cb.Empty() && !EndGap(cb, scanned) ==> r.cur.Some?) &&
            (!cb.Empty() && !EndGap(cb, scanned) && s.cur.Some? &&
             (s.cur.value.height + cb.Height() > MAX_HEIGHT || cb.top > 10) ==>
               r.imgs == s.imgs + [s.cur.value])
  {
  }

  /** A stitched image stays within `MAX_HEIGHT`, unless a single scan alone is taller. */
  lemma AppendedBounded(s: Collector, cb: Cropbox, simple: bool, thumbHeight: int, pageEnds: bool)
    requires Matches(s) && (s.cur.Some? ==> s.cur.value.height <= MAX_HEIGHT)
    ensures var r := AppendedWhen(s, cb, simple, thumbHeight, pageEnds);
            r.cur.Some? ==> r.cur.value.height <= MAX_HEIGHT || r.cur.value == Crop(cb)
  {
  }

  /** `ScanCollector` */
  class ScanCollector {
    var cur: Option<Picture>
    var box: Cropbox
    var imgs: seq<Picture>
    var thumbX: int
    var thumbWidth: int
    var thumb: Option<Thumb>
    /** The height of `thumbnail_size`. */
    const thumbHeight: int
    /** The width of the calibration image every scan must match. */
    const calibWidth: int

    function State(): Collector
      reads this
    {
      Collector(cur, box, imgs, thumbX, thumbWidth, thumb)
    }

    predicate Valid()
      reads this
    {
      Matches(State())
    }

    constructor (thumbHeight: int, calibWidth: int)
      ensures Valid() && cur.None? && imgs == [] && thumbX == 0 && thumbWidth == 0 && thumb.None?
      ensures this.thumbHeight == thumbHeight && this.calibWidth == calibWidth
    {
      cur := None;
      box := Cropbox(0, 0, 0, 0);
      imgs := [];
      thumbX, thumbWidth := 0, 0;
      thumb := None;
      this.thumbHeight := thumbHeight;
      this.calibWidth := calibWidth;
    }

    /** `can_continue` */
    predicate CanContinue()
      reads this
    {
      cur.Some?
    }

    /** `begin_next`: the next scan starts a new image; nothing is finished. */
    method BeginNext()
      modifies this
      ensures State() == old(State()).(cur := None)
    {
      cur := None;
    }

    /** `_finalize_current`: fails its assertion when there is no current image. */
    method FinalizeCurrent() returns (raised: bool)
      modifies this
      ensures raised <==> old(cur).None?
      ensures raised ==> State() == old(State())
      ensures !raised ==> State() == Finalized(old(State()))
    {
      if cur.None? {
        raised := true;
        return;
      }
      imgs := imgs + [cur.value];
      cur := None;
      raised := false;
    }

    /** `get_all`: finishes the current image, if any, and returns every finished image. */
    method GetAll() returns (all: seq<Picture>)
      modifies this
      ensures State() == if old(cur).Some? then Finalized(old(State())) else old(State())
      ensures all == imgs && cur.None?
    {
      if cur.Some? {
        var _ := FinalizeCurrent();
      }
      all := imgs;
    }

    /**
     * `append` of a scan of size `scanned` whose content lies in `cb`;
     * `simple` is the aspect-ratio choice between a whole and a split
     * thumbnail. A scan whose width differs from the calibration image fails
     * the assertion, after an empty box has already returned.
     */
    method Append(cb: Cropbox, scanned: Picture, simple: bool) returns (raised: bool)
      modifies this
      requires Valid()
      ensures Valid()
      ensures raised <==> !cb.Empty() && scanned.width != calibWidth
      ensures raised ==> State() == old(State())
      ensures !raised ==> State() == Appended(old(State()), cb, scanned, simple, thumbHeight)
    {
      if cb.Empty() {
        return false;
      }
      if scanned.width != calibWidth {
        return true;
      }
      var img := Crop(cb);
      if cur.None? {
        cur := Some(img);
        box := cb;
        thumbX := thumbX + thumbWidth;
        thumbWidth := 0;
      } else if cur.value.height + cb.Height() > MAX_HEIGHT || cb.top > 10 {
        var _ := FinalizeCurrent();
        cur := Some(img);
        box := cb;
        thumbX := thumbX + thumbWidth;
        thumbWidth := 0;
      } else {
        var (extended, _, _) := box.ExtendBelow(cb);
        cur := Some(Crop(extended));
        box := extended;
      }
      thumb := Some(ThumbFor(simple, thumbHeight));
      if EndGap(cb, scanned) {
        var _ := FinalizeCurrent();
      }
      AppendedMatches(old(State()), cb, simple, thumbHeight, EndGap(cb, scanned));
      raised := false;
    }
  }

  /**
   * Two short pages stitch into one image; a third page that starts lower
   * than 10 rows finishes it and starts a new one, and `get_all` returns both.
   */
  method StitchPages() returns (all: seq<Picture>)
    ensures all == [Picture(200, 1500), Picture(200, 700)]
  {
    var c := new ScanCollector(100, 210);
    var raised := c.Append(Cropbox(5, 0, 205, 1000), Picture(210, 1000), true);
    raised := c.Append(Cropbox(5, 0, 205, 500), Picture(210, 505), true);
    assert c.cur == Some(Picture(200, 1500));
    raised := c.Append(Cropbox(5, 20, 205, 720), Picture(210, 725), false);
    all := c.GetAll();
  }
}
