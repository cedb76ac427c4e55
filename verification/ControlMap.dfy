/**
The control-map pages of the native control presentation: scenes are split into balanced pages of at
most six rows, and every row links to a slide number that is only assigned later.
*/
module ControlMap {

  const ROWS := 6

  /** A row of the map: which scene it lists and the slide number its link names. */
  datatype Row = Row(scene: nat, link: nat)

  datatype Content = Cover | Architecture | MapPage(rows: seq<Row>) | Clip(scene: nat)

  datatype Slide = Slide(id: nat, content: Content)

  // ----- the arithmetic of the pages

  function PageCount(n: nat): nat { (n + ROWS - 1) / ROWS }

  function PageSize(n: nat): nat
    requires n > 0
  {
    n / PageCount(n)
  }

  function LongerPages(n: nat): nat
    requires n > 0
  {
    n % PageCount(n)
  }

  function Min(a: nat, b: nat): nat { if a < b then a else b }

  function Offset(n: nat, page: nat): nat
    requires n > 0
  {
    page * PageSize(n) + Min(page, LongerPages(n))
  }

  function PageLength(n: nat, page: nat): nat
    requires n > 0
  {
    PageSize(n) + if page < LongerPages(n) then 1 else 0
  }

  lemma MultiplesGrow(k: nat, l: nat, size: nat)
    requires k <= l
    ensures k * size <= l * size
  {
  }

  /** A count that is enough at six each, and no larger, leaves between one and six each. */
  lemma SizesFit(n: nat, count: nat, size: nat, longer: nat)
    requires 0 < count <= n && n == count * size + longer && longer < count && count * ROWS >= n
    ensures 1 <= size <= ROWS && (longer > 0 ==> size < ROWS)
  {
    assert size == 0 ==> count * size == 0;
    if size >= ROWS {
      MultiplesGrow(ROWS, size, count);
    }
    if size > ROWS {
      MultiplesGrow(ROWS + 1, size, count);
    }
  }

  lemma PagesAreBalanced(n: nat)
    requires n > 0
    ensures 0 < PageCount(n) <= n
    ensures PageCount(n) * PageSize(n) + LongerPages(n) == n && LongerPages(n) < PageCount(n)
    ensures 6 * (PageCount(n) - 1) < n <= 6 * PageCount(n)
    ensures forall p :: 0 <= p < PageCount(n) ==> 1 <= PageLength(n, p) <= 6
    ensures forall p, q :: 0 <= p < q < PageCount(n) ==> PageLength(n, q) <= PageLength(n, p) <= PageLength(n, q) + 1
  {
    var count, size, longer := PageCount(n), PageSize(n), LongerPages(n);
    assert count * ROWS >= n > (count - 1) * ROWS;
    SizesFit(n, count, size, longer);
  }

  lemma NextMultiple(k: nat, size: nat)
    ensures (k + 1) * size == k * size + size
  {
  }

  /** Each page starts where the one before it ends; the first starts at 0 and the last ends at n. */
  lemma PagesPartition(n: nat, page: nat)
    requires n > 0 && page < PageCount(n)
    ensures Offset(n, 0) == 0 && Offset(n, PageCount(n)) == n
    ensures Offset(n, page + 1) == Offset(n, page) + PageLength(n, page) <= n
  {
    PagesAreBalanced(n);
    var size, count := PageSize(n), PageCount(n);
    NextMultiple(page, size);
    MultiplesGrow(page + 1, count, size);
  }

  lemma {:induction false} OffsetsIncrease(n: nat, p: nat, q: nat)
    requires n > 0 && p < q <= PageCount(n)
    ensures Offset(n, p) + PageLength(n, p) <= Offset(n, q)
    decreases q - p
  {
    PagesPartition(n, p);
    if p + 1 < q {
      OffsetsIncrease(n, p + 1, q);
    }
  }

  /** Every scene is on some page. */
  lemma {:induction false} SceneHasPage(n: nat, scene: nat, upTo: nat) returns (page: nat)
    requires n > 0 && upTo <= PageCount(n) && scene < Offset(n, upTo)
    ensures page < upTo && Offset(n, page) <= scene < Offset(n, page) + PageLength(n, page)
    decreases upTo
  {
    assert Offset(n, 0) == 0;
    PagesPartition(n, upTo - 1);
    if scene >= Offset(n, upTo - 1) {
      page := upTo - 1;
    } else {
      page := SceneHasPage(n, scene, upTo - 1);
    }
  }

  // ----- the deck

  function FirstClip(n: nat): nat { 3 + PageCount(n) }

  /** The slide after the first two and `page` map pages is the next map page, with its rows and links. */
  predicate IsMapPage(n: nat, page: nat, slides: seq<Slide>)
    requires n > 0
  {
    && 2 + page < |slides|
    && var s := slides[2 + page];
    && s.id == 3 + page && s.content.MapPage? && |s.content.rows| == PageLength(n, page)
    && forall r :: 0 <= r < |s.content.rows| ==>
       s.content.rows[r] == Row(Offset(n, page) + r, FirstClip(n) + Offset(n, page) + r)
  }

  /** Row `r` of page `page` lists this scene. */
  predicate Lists(slides: seq<Slide>, page: nat, r: nat, scene: nat) {
    && 2 + page < |slides| && slides[2 + page].content.MapPage? && r < |slides[2 + page].content.rows|
    && slides[2 + page].content.rows[r].scene == scene
  }

  lemma MapPagesStay(n: nat, pages: nat, before: seq<Slide>, after: seq<Slide>)
    requires n > 0 && before <= after
    requires forall p :: 0 <= p < pages ==> IsMapPage(n, p, before)
    ensures forall p :: 0 <= p < pages ==> IsMapPage(n, p, after)
  {
    forall p | 0 <= p < pages
      ensures IsMapPage(n, p, after)
    {
      assert IsMapPage(n, p, before);
      assert after[2 + p] == before[2 + p];
    }
  }

  /** What `Build` leaves behind. */
  predicate IsDeck(n: nat, slides: seq<Slide>) {
    && n > 0 && |slides| == 2 + PageCount(n) + n
    && slides[0] == Slide(1, Cover) && slides[1] == Slide(2, Architecture)
    && (forall page :: 0 <= page < PageCount(n) ==> IsMapPage(n, page, slides))
    && (forall scene :: 0 <= scene < n ==> slides[FirstClip(n) + scene - 1] == Slide(FirstClip(n) + scene, Clip(scene)))
  }

  class Deck {
    var slides: seq<Slide>

    constructor ()
      ensures slides == []
    {
      slides := [];
    }

    /** `add`: the new slide's number is its position. */
    method Add(content: Content)
      modifies this
      ensures slides == old(slides) + [Slide(|old(slides)| + 1, content)]
    {
      var position := |slides| + 1;
      slides := slides + [Slide(position, content)];
    }

    /** One row for each scene from `offset` on. */
    method RowsFrom(offset: nat, stop: nat, firstClip: nat) returns (rows: seq<Row>)
      requires offset <= stop
      ensures |rows| == stop - offset
      ensures forall r :: 0 <= r < |rows| ==> rows[r] == Row(offset + r, firstClip + offset + r)
    {
      rows := [];
      for index := offset to stop
        invariant |rows| == index - offset
        invariant forall r :: 0 <= r < |rows| ==> rows[r] == Row(offset + r, firstClip + offset + r)
      {
        rows := rows + [Row(index, firstClip + index)];
      }
    }

    /** The rows of one page. */
    method MapRows(n: nat, page: nat) returns (rows: seq<Row>)
      requires n > 0 && page < PageCount(n)
      ensures |rows| == PageLength(n, page)
      ensures forall r :: 0 <= r < |rows| ==> rows[r] == Row(Offset(n, page) + r, FirstClip(n) + Offset(n, page) + r)
    {
      var matrixCount := PageCount(n);
      var pageSize, longerPages := n / matrixCount, n % matrixCount;
      MultiplesGrow(0, page, pageSize);
      var offset := page * pageSize + Min(page, longerPages);
      var stop := offset + pageSize + (if page < longerPages then 1 else 0);
      rows := RowsFrom(offset, stop, 3 + matrixCount);
    }

    method AddMapPages(n: nat)
      requires n > 0 && |slides| == 2
      modifies this
      ensures old(slides) <= slides && |slides| == 2 + PageCount(n)
      ensures forall page :: 0 <= page < PageCount(n) ==> IsMapPage(n, page, slides)
    {
      for page := 0 to PageCount(n)
        invariant old(slides) <= slides && |slides| == 2 + page
        invariant forall p :: 0 <= p < page ==> IsMapPage(n, p, slides)
      {
        var rows := MapRows(n, page);
        ghost var before := slides;
        Add(MapPage(rows));
        MapPagesStay(n, page, before, slides);
        assert IsMapPage(n, page, slides);
      }
    }

    method AddClips(n: nat)
      modifies this
      ensures old(slides) <= slides && |slides| == |old(slides)| + n
      ensures forall scene :: 0 <= scene < n ==>
        slides[|old(slides)| + scene] == Slide(|old(slides)| + scene + 1, Clip(scene))
    {
      for scene := 0 to n
        invariant old(slides) <= slides && |slides| == |old(slides)| + scene
        invariant forall i :: 0 <= i < scene ==> slides[|old(slides)| + i] == Slide(|old(slides)| + i + 1, Clip(i))
      {
        Add(Clip(scene));
      }
    }

    /** The cover, the architecture, the map pages and then one slide per scene; no scenes, no map to divide. */
    method Build(n: nat) returns (built: bool)
      requires slides == []
      modifies this
      ensures built <==> n > 0
      ensures built ==> IsDeck(n, slides)
    {
      Add(Cover);
      Add(Architecture);
      if n == 0 {
        return false;
      }
      AddMapPages(n);
      ghost var before := slides;
      AddClips(n);
      MapPagesStay(n, PageCount(n), before, slides);
      forall scene | 0 <= scene < n
        ensures slides[FirstClip(n) + scene - 1] == Slide(FirstClip(n) + scene, Clip(scene))
      {
        assert slides[|before| + scene] == Slide(|before| + scene + 1, Clip(scene));
      }
      return true;
    }
  }

  /** Every scene is listed in exactly one row, and that row's link is the number of the scene's own slide. */
  lemma EveryLinkResolves(n: nat, slides: seq<Slide>, scene: nat) returns (page: nat, r: nat)
    requires IsDeck(n, slides) && scene < n
    ensures page < PageCount(n) && Lists(slides, page, r, scene)
    ensures
      var link := slides[2 + page].content.rows[r].link;
      0 < link <= |slides| && slides[link - 1] == Slide(link, Clip(scene))
    ensures forall p: nat, q: nat :: p < PageCount(n) && Lists(slides, p, q, scene) ==> p == page && q == r
  {
    PagesPartition(n, PageCount(n) - 1);
    page := SceneHasPage(n, scene, PageCount(n));
    r := scene - Offset(n, page);
    assert IsMapPage(n, page, slides);
    forall p: nat, q: nat | p < PageCount(n) && Lists(slides, p, q, scene)
      ensures p == page && q == r
    {
      assert IsMapPage(n, p, slides);
      if p < page { OffsetsIncrease(n, p, page); }
      if page < p { OffsetsIncrease(n, page, p); }
    }
  }
}
