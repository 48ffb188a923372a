/**
 * The home page's dynamic frame layout: nine university frames on a 3x3
 * grid of 4x4 cells inside a 12-unit grid, whose hovered row and column grow
 * while the other two share what is left.
 *
 * Grid arithmetic and the frame-list updates are functions; the component's
 * state (`frames`, `hovered`, `hoverSize`, `gapSize`, `showControls`,
 * `cleanInterface`) is the `Layout` class, whose handlers are methods.
 * Numbers that a slider can make fractional are `real`s under exact arithmetic.
 */
module FrameLayout {
  import opened Wrappers

  const GridSize: int := 12
  const GridColumns: int := 3
  const CellSize: int := 4

  /** A rectangle in grid units. */
  datatype Position = Position(x: int, y: int, w: int, h: int)

  /** One frame of the layout; `image` names the imported logo asset. */
  datatype Frame = Frame(
    id: int,
    image: string,
    defaultPos: Position,
    corner: string,
    edgeHorizontal: string,
    edgeVertical: string,
    mediaSize: real,
    borderThickness: real,
    borderSize: real,
    isHovered: bool,
    acronym: string,
    name: string)

  /** The frame under the pointer, with its grid row and column. */
  datatype Hover = Hover(row: int, col: int, id: int)

  /** A cell of the 3x3 grid. */
  datatype Cell = Cell(row: int, col: int)

  /** The numeric frame properties the frame controls edit. */
  datatype NumericProperty = MediaSize | BorderThickness | BorderSize

  /** The quotient JavaScript's `%` pairs with: `a / d` rounded toward zero. */
  function TruncQuot(a: int, d: int): int
    requires d > 0
  {
    if a >= 0 then a / d else -((-a) / d)
  }

  /**
   * JavaScript's `%`: what is left of `a` after taking away the quotient
   * rounded toward zero, so the remainder takes the sign of the dividend.
   */
  function TruncRem(a: int, d: int): (r: int)
    requires d > 0
    ensures a == d * TruncQuot(a, d) + r
    ensures a >= 0 ==> 0 <= r < d
    ensures a < 0 ==> -d < r <= 0
  {
    if a >= 0 then a % d else -((-a) % d)
  }

  /**
   * `calculatePosition(index)`: row `Math.floor(index / 3)`, column
   * `index % 3` with JavaScript's remainder, each scaled by the cell size.
   * Dafny's `/` with a positive divisor is floor division.
   */
  function CalculatePosition(index: int): (p: Position)
    ensures p.w == CellSize && p.h == CellSize
    ensures index >= 0 ==> p.x in {0, 4, 8} && 0 <= p.y && p.y % CellSize == 0
    ensures index < 0 ==> p.x in {-8, -4, 0} && p.y < 0
  {
    var row := index / GridColumns;
    var col := TruncRem(index, GridColumns);
    Position(col * CellSize, row * CellSize, CellSize, CellSize)
  }

  /** The grid cell of a position, as the render loop derives it: `Math.floor(y / 4)`, `Math.floor(x / 4)`. */
  function CellOf(p: Position): (c: Cell)
    ensures CellSize * c.row <= p.y < CellSize * c.row + CellSize
    ensures CellSize * c.col <= p.x < CellSize * c.col + CellSize
  {
    Cell(p.y / CellSize, p.x / CellSize)
  }

  predicate OnGrid(c: Cell)
  {
    0 <= c.row < 3 && 0 <= c.col < 3
  }

  /** Row-major index of a grid cell. */
  function CellIndex(c: Cell): int
  {
    c.row * GridColumns + c.col
  }

  /**
   * For the nine frame indices, `calculatePosition` puts the frame at an
   * offset from {0, 4, 8} on both axes, in row-major cell `index`.
   */
  lemma CalculatePositionOnGrid(index: int)
    requires 0 <= index < 9
    ensures CalculatePosition(index).x in {0, 4, 8} && CalculatePosition(index).y in {0, 4, 8}
    ensures CellOf(CalculatePosition(index)) == Cell(index / 3, index % 3)
    ensures OnGrid(CellOf(CalculatePosition(index)))
    ensures CellIndex(CellOf(CalculatePosition(index))) == index
  {
    var p := CalculatePosition(index);
    assert p.x == (index % 3) * 4 && p.y == (index / 3) * 4;
    assert p.x / 4 == index % 3 && p.y / 4 == index / 3;
  }

  /** Distinct frame indices get distinct positions. */
  lemma CalculatePositionInjective(i: int, j: int)
    requires 0 <= i < 9 && 0 <= j < 9 && i != j
    ensures CalculatePosition(i) != CalculatePosition(j)
  {
    CalculatePositionOnGrid(i);
    CalculatePositionOnGrid(j);
  }

  /** The grid-track weights for one axis, given the hovered track (if any). */
  function TrackSizes(hoveredTrack: Option<int>, hoverSize: real): (r: seq<real>)
    ensures |r| == 3
  {
    match hoveredTrack
    case None => [4.0, 4.0, 4.0]
    case Some(t) =>
      var nonHoveredSize := (GridSize as real - hoverSize) / 2.0;
      seq(3, k requires 0 <= k < 3 => if k == t then hoverSize else nonHoveredSize)
  }

  function Sum3(r: seq<real>): real
    requires |r| == 3
  {
    r[0] + r[1] + r[2]
  }

  /**
   * Without a hover the three tracks weigh 4 each; with track `t` hovered,
   * `t` weighs `hoverSize` and the other two share the rest of 12 equally.
   * Whenever the hovered track is one of the three, the weights total 12.
   */
  lemma TrackSizesShareTwelve(hoveredTrack: Option<int>, hoverSize: real)
    requires hoveredTrack.Some? ==> 0 <= hoveredTrack.value < 3
    ensures Sum3(TrackSizes(hoveredTrack, hoverSize)) == GridSize as real
    ensures hoveredTrack.None? ==> forall k :: 0 <= k < 3 ==> TrackSizes(hoveredTrack, hoverSize)[k] == 4.0
    ensures hoveredTrack.Some? ==>
              && TrackSizes(hoveredTrack, hoverSize)[hoveredTrack.value] == hoverSize
              && forall k :: 0 <= k < 3 && k != hoveredTrack.value ==>
                   TrackSizes(hoveredTrack, hoverSize)[k] == (12.0 - hoverSize) / 2.0
  {
    if hoveredTrack.Some? {
      var t := hoveredTrack.value;
      var r := TrackSizes(hoveredTrack, hoverSize);
      var rest := (12.0 - hoverSize) / 2.0;
      assert r[t] == hoverSize;
      assert forall k :: 0 <= k < 3 && k != t ==> r[k] == rest;
      if t == 0 { assert Sum3(r) == hoverSize + rest + rest; }
      else if t == 1 { assert Sum3(r) == rest + hoverSize + rest; }
      else { assert Sum3(r) == rest + rest + hoverSize; }
    }
  }

  /**
   * `getRowSizes`: the weights of `gridTemplateRows`, as numbers rather than
   * "Nfr" text. Nothing hovered gives three equal rows; a hovered row of the
   * grid gets `hoverSize`, the two others split the rest, and the whole is 12.
   */
  function RowSizes(hovered: Option<Hover>, hoverSize: real): (r: seq<real>)
    ensures |r| == 3
    ensures hovered.None? ==> r == [4.0, 4.0, 4.0]
    ensures hovered.Some? && 0 <= hovered.value.row < 3 ==>
              && r[hovered.value.row] == hoverSize
              && (forall k :: 0 <= k < 3 && k != hovered.value.row ==> r[k] == (12.0 - hoverSize) / 2.0)
              && Sum3(r) == 12.0
  {
    var track := if hovered.Some? then Some(hovered.value.row) else None;
    TrackSizes(track, hoverSize)
  }

  /** `getColSizes`: the same for the columns of `gridTemplateColumns`, from the hovered column. */
  function ColSizes(hovered: Option<Hover>, hoverSize: real): (r: seq<real>)
    ensures |r| == 3
    ensures hovered.None? ==> r == [4.0, 4.0, 4.0]
    ensures hovered.Some? && 0 <= hovered.value.col < 3 ==>
              && r[hovered.value.col] == hoverSize
              && (forall k :: 0 <= k < 3 && k != hovered.value.col ==> r[k] == (12.0 - hoverSize) / 2.0)
              && Sum3(r) == 12.0
  {
    var track := if hovered.Some? then Some(hovered.value.col) else None;
    TrackSizes(track, hoverSize)
  }

  /** A hovered track outside the grid leaves every track at the non-hovered weight. */
  lemma TrackSizesOffGrid(t: int, hoverSize: real)
    requires t < 0 || t >= 3
    ensures forall k :: 0 <= k < 3 ==> TrackSizes(Some(t), hoverSize)[k] == (12.0 - hoverSize) / 2.0
  {
  }

  /**
   * Over the hover-size slider's range [4, 8] the hovered track is never
   * narrower than the others, and every weight stays within [2, 8].
   */
  lemma HoveredTrackWidest(t: int, hoverSize: real)
    requires 0 <= t < 3 && 4.0 <= hoverSize <= 8.0
    ensures forall k :: 0 <= k < 3 ==> TrackSizes(Some(t), hoverSize)[k] <= TrackSizes(Some(t), hoverSize)[t]
    ensures forall k :: 0 <= k < 3 ==> 2.0 <= TrackSizes(Some(t), hoverSize)[k] <= 8.0
  {
  }

  /** The two words of a CSS `transform-origin`. */
  datatype Origin = Origin(vertical: string, horizontal: string)

  /** `getTransformOrigin(x, y)`: y 0 / 4 / else gives top / center / bottom, x 0 / 4 / else left / center / right. */
  function TransformOrigin(x: int, y: int): (o: Origin)
    ensures o.vertical in {"top", "center", "bottom"}
    ensures o.horizontal in {"left", "center", "right"}
  {
    var vertical := if y == 0 then "top" else if y == 4 then "center" else "bottom";
    var horizontal := if x == 0 then "left" else if x == 4 then "center" else "right";
    Origin(vertical, horizontal)
  }

  /** The CSS text `${vertical} ${horizontal}`. */
  function OriginCss(o: Origin): string
  {
    o.vertical + " " + o.horizontal
  }

  /**
   * A frame placed by `calculatePosition` grows from the grid edge it sits
   * on: the top row from the top, the bottom row from the bottom, the middle
   * row from the centre, and likewise left/right for the columns.
   */
  lemma TransformOriginFollowsCell(index: int)
    requires 0 <= index < 9
    ensures TransformOrigin(CalculatePosition(index).x, CalculatePosition(index).y)
            == Origin(["top", "center", "bottom"][index / 3], ["left", "center", "right"][index % 3])
  {
    CalculatePositionOnGrid(index);
  }

  /** The CSS text of frame `index`'s origin: its row's word, a space, its column's word. */
  lemma OriginCssFollowsCell(index: int)
    requires 0 <= index < 9
    ensures OriginCss(TransformOrigin(CalculatePosition(index).x, CalculatePosition(index).y))
            == ["top", "center", "bottom"][index / 3] + " " + ["left", "center", "right"][index % 3]
  {
    TransformOriginFollowsCell(index);
  }

  /** The value of one numeric property. */
  function Property(f: Frame, p: NumericProperty): real
  {
    match p
    case MediaSize => f.mediaSize
    case BorderThickness => f.borderThickness
    case BorderSize => f.borderSize
  }

  /** A frame with its three numeric properties blanked: what must stay equal when only they change. */
  function NonNumeric(f: Frame): Frame
  {
    f.(mediaSize := 0.0, borderThickness := 0.0, borderSize := 0.0)
  }

  /** `{ ...frame, [property]: value }`. */
  function WithProperty(f: Frame, p: NumericProperty, v: real): (g: Frame)
    ensures Property(g, p) == v
    ensures forall q :: q != p ==> Property(g, q) == Property(f, q)
    ensures NonNumeric(g) == NonNumeric(f)
  {
    match p
    case MediaSize => f.(mediaSize := v)
    case BorderThickness => f.(borderThickness := v)
    case BorderSize => f.(borderSize := v)
  }

  /**
   * The list `updateFrameProperty(id, p, v)` stores: property `p` of every
   * frame with that id becomes `v`; all other frames and fields, the length
   * and the order are unchanged.
   */
  function SetFrameProperty(frames: seq<Frame>, id: int, p: NumericProperty, v: real): (r: seq<Frame>)
    ensures |r| == |frames|
    ensures forall i :: 0 <= i < |frames| && frames[i].id != id ==> r[i] == frames[i]
    ensures forall i :: 0 <= i < |frames| && frames[i].id == id ==>
              && Property(r[i], p) == v
              && (forall q :: q != p ==> Property(r[i], q) == Property(frames[i], q))
              && NonNumeric(r[i]) == NonNumeric(frames[i])
  {
    seq(|frames|, i requires 0 <= i < |frames| =>
      if frames[i].id == id then WithProperty(frames[i], p, v) else frames[i])
  }

  /**
   * The list `handleFrameHover(row, col, id)` stores: `isHovered` holds
   * exactly on the frames with that id; nothing else changes.
   */
  function HoverFrames(frames: seq<Frame>, id: int): (r: seq<Frame>)
    ensures |r| == |frames|
    ensures forall i :: 0 <= i < |frames| ==> r[i].isHovered == (frames[i].id == id)
    ensures forall i :: 0 <= i < |frames| ==> r[i].(isHovered := false) == frames[i].(isHovered := false)
  {
    seq(|frames|, i requires 0 <= i < |frames| => frames[i].(isHovered := frames[i].id == id))
  }

  predicate DistinctIds(frames: seq<Frame>)
  {
    forall i, j :: 0 <= i < j < |frames| ==> frames[i].id != frames[j].id
  }

  /** With distinct ids, hovering a frame's id marks that frame and no other. */
  lemma HoverMarksOne(frames: seq<Frame>, k: nat)
    requires DistinctIds(frames) && k < |frames|
    ensures forall i :: 0 <= i < |frames| ==> (HoverFrames(frames, frames[k].id)[i].isHovered <==> i == k)
  {
    forall i | 0 <= i < |frames| && i != k
      ensures !HoverFrames(frames, frames[k].id)[i].isHovered
    {
      if i < k { assert frames[i].id != frames[k].id; }
      else { assert frames[k].id != frames[i].id; }
    }
  }

  /**
   * The layout invariant: nine frames with distinct ids, frame `i` at the
   * position `calculatePosition(i)` gives it.
   */
  predicate Tiles(frames: seq<Frame>)
  {
    && |frames| == 9
    && DistinctIds(frames)
    && (forall i :: 0 <= i < 9 ==> frames[i].defaultPos == CalculatePosition(i))
  }

  /**
   * Under the invariant the frames' cells, derived as the render loop does,
   * cover each cell of the 3x3 grid exactly once.
   */
  lemma TilesCoversEveryCell(frames: seq<Frame>, c: Cell)
    requires Tiles(frames) && OnGrid(c)
    ensures exists i :: 0 <= i < 9 && CellOf(frames[i].defaultPos) == c
    ensures forall i, j ::
              0 <= i < 9 && 0 <= j < 9 && CellOf(frames[i].defaultPos) == c && CellOf(frames[j].defaultPos) == c
              ==> i == j
  {
    var k := CellIndex(c);
    CalculatePositionOnGrid(k);
    assert CellOf(frames[k].defaultPos) == c;
    forall i, j | 0 <= i < 9 && 0 <= j < 9 && CellOf(frames[i].defaultPos) == c && CellOf(frames[j].defaultPos) == c
      ensures i == j
    {
      CalculatePositionOnGrid(i);
      CalculatePositionOnGrid(j);
    }
  }

  /** Under the invariant no two frames share a cell and every frame lies on the grid. */
  lemma TilesDistinctCells(frames: seq<Frame>, i: int, j: int)
    requires Tiles(frames) && 0 <= i < 9 && 0 <= j < 9 && i != j
    ensures OnGrid(CellOf(frames[i].defaultPos))
    ensures CellOf(frames[i].defaultPos) != CellOf(frames[j].defaultPos)
  {
    CalculatePositionOnGrid(i);
    CalculatePositionOnGrid(j);
  }

  /** Hovering keeps ids and positions, so the layout still tiles the grid. */
  lemma HoverKeepsTiling(frames: seq<Frame>, id: int)
    requires Tiles(frames)
    ensures Tiles(HoverFrames(frames, id))
  {
    var r := HoverFrames(frames, id);
    assert forall i :: 0 <= i < 9 ==> r[i].id == frames[i].id && r[i].defaultPos == frames[i].defaultPos;
  }

  /** Editing a numeric property keeps ids and positions, so the layout still tiles the grid. */
  lemma SetPropertyKeepsTiling(frames: seq<Frame>, id: int, p: NumericProperty, v: real)
    requires Tiles(frames)
    ensures Tiles(SetFrameProperty(frames, id, p, v))
  {
    var r := SetFrameProperty(frames, id, p, v);
    forall i | 0 <= i < 9
      ensures r[i].id == frames[i].id && r[i].defaultPos == frames[i].defaultPos
    {
      if frames[i].id == id {
        assert NonNumeric(r[i]) == NonNumeric(frames[i]);
      }
    }
  }

  const Placeholder: string := "https://via.placeholder.com/50"

  function InitialFrame(id: int, image: string, x: int, y: int, acronym: string, name: string): Frame
  {
    Frame(id, image, Position(x, y, 4, 4), Placeholder, Placeholder, Placeholder,
          1.0, 0.0, 80.0, false, acronym, name)
  }

  /** The `initialFrames` table. */
  function InitialFrames(): (r: seq<Frame>)
    ensures |r| == 9
    ensures forall i :: 0 <= i < 9 ==> r[i].id == i + 1 && !r[i].isHovered
    ensures forall i :: 0 <= i < 9 ==> r[i].defaultPos.w == CellSize && r[i].defaultPos.h == CellSize
  {
    [
      InitialFrame(1, "dlsl.png", 0, 0, "DLSL", "De La Salle Lipa"),
      InitialFrame(2, "dlsu-logo.png", 4, 0, "DLSU", "De La Salle University"),
      InitialFrame(3, "up-logo.png", 8, 0, "UP", "University of the Philippines"),
      InitialFrame(4, "ateneo-logo.png", 0, 4, "ATENEO", "Ateneo de Manila University"),
      InitialFrame(5, "ust-logo.jpg", 4, 4, "UST", "University of Santo Tomas"),
      InitialFrame(6, "lpu-logo.png", 8, 4, "LPU", "Lyceum of the Philippines University"),
      InitialFrame(7, "poly-logo.png", 0, 8, "POLY", "Polytechnic University of the Philippines"),
      InitialFrame(8, "nu-logo.png", 4, 8, "NU", "National University"),
      InitialFrame(9, "ue-logo.png", 8, 8, "UE", "University of the East")
    ]
  }

  /**
   * The initial table: frame `i` has id `i + 1`, sits where
   * `calculatePosition(i)` puts it, is not hovered, and the nine frames tile
   * the grid.
   */
  lemma InitialFramesTile()
    ensures |InitialFrames()| == 9
    ensures forall i :: 0 <= i < 9 ==> InitialFrames()[i].id == i + 1
    ensures forall i :: 0 <= i < 9 ==> InitialFrames()[i].defaultPos == CalculatePosition(i)
    ensures forall i :: 0 <= i < 9 ==> !InitialFrames()[i].isHovered
    ensures Tiles(InitialFrames())
  {
    forall i | 0 <= i < 9 ensures InitialFrames()[i].defaultPos == CalculatePosition(i) {
      assert InitialFrames()[i].defaultPos == Position((i % 3) * 4, (i / 3) * 4, 4, 4);
    }
  }

  /** The acronyms of the initial table, the routing keys the frames link to, are pairwise distinct. */
  lemma InitialAcronymsDistinct()
    ensures forall i, j :: 0 <= i < j < |InitialFrames()| ==> InitialFrames()[i].acronym != InitialFrames()[j].acronym
  {
    var acronyms := ["DLSL", "DLSU", "UP", "ATENEO", "UST", "LPU", "POLY", "NU", "UE"];
    assert forall i :: 0 <= i < 9 ==> InitialFrames()[i].acronym == acronyms[i];
  }

  /** The state of the `DynamicFrameLayout` component. */
  class Layout {
    var frames: seq<Frame>
    var hovered: Option<Hover>
    var hoverSize: real
    var gapSize: real
    var showControls: bool
    var cleanInterface: bool

    ghost predicate Valid()
      reads this
    {
      Tiles(frames)
    }

    /** The initial state: `initialFrames`, nothing hovered, hover size 6, gap 4, controls hidden, clean interface. */
    constructor ()
      ensures Valid()
      ensures frames == InitialFrames() && hovered == None
      ensures hoverSize == 6.0 && gapSize == 4.0
      ensures !showControls && cleanInterface
    {
      frames := InitialFrames();
      hovered := None;
      hoverSize := 6.0;
      gapSize := 4.0;
      showControls := false;
      cleanInterface := true;
      InitialFramesTile();
    }

    /** `handleFrameHover(row, col, id)`. */
    method HandleFrameHover(row: int, col: int, id: int)
      requires Valid()
      modifies this
      ensures Valid()
      ensures hovered == Some(Hover(row, col, id))
      ensures frames == HoverFrames(old(frames), id)
      ensures hoverSize == old(hoverSize) && gapSize == old(gapSize)
      ensures showControls == old(showControls) && cleanInterface == old(cleanInterface)
    {
      HoverKeepsTiling(frames, id);
      hovered := Some(Hover(row, col, id));
      frames := HoverFrames(frames, id);
    }

    /** The pointer leaving a frame: `setHovered(null)`; the frames' own flags stay as they are. */
    method HandleFrameLeave()
      requires Valid()
      modifies this`hovered
      ensures Valid() && hovered == None
    {
      hovered := None;
    }

    /** `updateFrameProperty(id, property, value)`. */
    method UpdateFrameProperty(id: int, p: NumericProperty, v: real)
      requires Valid()
      modifies this`frames
      ensures Valid()
      ensures frames == SetFrameProperty(old(frames), id, p, v)
    {
      SetPropertyKeepsTiling(frames, id, p, v);
      frames := SetFrameProperty(frames, id, p, v);
    }

    /** `toggleControls`. */
    method ToggleControls()
      modifies this`showControls
      ensures showControls == !old(showControls)
    {
      showControls := !showControls;
    }

    /**
     * `toggleCleanInterface`: flips `cleanInterface`; switching the clean
     * interface on (from false) also hides the controls, switching it off
     * leaves them as they were.
     */
    method ToggleCleanInterface()
      modifies this`cleanInterface, this`showControls
      ensures cleanInterface == !old(cleanInterface)
      ensures !old(cleanInterface) ==> !showControls
      ensures old(cleanInterface) ==> showControls == old(showControls)
    {
      var wasClean := cleanInterface;
      cleanInterface := !wasClean;
      if !wasClean {
        showControls := false;
      }
    }

    /** The hover-size slider. */
    method SetHoverSize(v: real)
      modifies this`hoverSize
      ensures hoverSize == v
    {
      hoverSize := v;
    }
  }

  /**
   * A hover that the render loop issues for frame `k` (row and column from its
   * default position) yields row and column weights that each total 12, with
   * the frame's own row and column at `hoverSize`.
   */
  lemma HoverFromRenderSharesTwelve(frames: seq<Frame>, k: nat, hoverSize: real)
    requires Tiles(frames) && k < 9
    ensures var c := CellOf(frames[k].defaultPos);
            var h := Some(Hover(c.row, c.col, frames[k].id));
            && Sum3(RowSizes(h, hoverSize)) == 12.0 && Sum3(ColSizes(h, hoverSize)) == 12.0
            && RowSizes(h, hoverSize)[c.row] == hoverSize && ColSizes(h, hoverSize)[c.col] == hoverSize
  {
    var c := CellOf(frames[k].defaultPos);
    CalculatePositionOnGrid(k);
    TrackSizesShareTwelve(Some(c.row), hoverSize);
    TrackSizesShareTwelve(Some(c.col), hoverSize);
  }
}
