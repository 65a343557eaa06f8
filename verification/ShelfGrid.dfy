/** The dashboard grid: panels are placed left to right on shelves 24 columns wide,
    and a panel that does not fit starts the next shelf. */
module ShelfGrid {

  const COLUMNS := 24

  datatype Panel = Panel(name: string, width: int, height: int)

  datatype Place = Place(x: int, y: int, panel: Panel)

  /** No panel has a negative size. */
  ghost predicate Sized(items: seq<Panel>) {
    forall i :: 0 <= i < |items| ==> items[i].width >= 0 && items[i].height >= 0
  }

  function Max(a: int, b: int): int {
    if a < b then b else a
  }

  /** The columns or rows of two panels do not meet. */
  predicate Apart(a: Place, b: Place) {
    || a.x + a.panel.width <= b.x || b.x + b.panel.width <= a.x
    || a.y + a.panel.height <= b.y || b.y + b.panel.height <= a.y
  }

  ghost predicate NoOverlap(placed: seq<Place>) {
    forall i, j :: 0 <= i < j < |placed| ==> Apart(placed[i], placed[j])
  }

  function TotalWidth(items: seq<Panel>): int {
    if items == [] then 0 else TotalWidth(items[..|items| - 1]) + items[|items| - 1].width
  }

  /** The heights at which panels start: one per shelf in use. */
  function Tops(placed: seq<Place>): set<int> {
    set p | p in placed :: p.y
  }

  /** Where the next panel would go; the count of shelves opened is not in the
      program but in the account kept of it. */
  datatype Pen = Pen(x: int, y: int, rowHeight: int, shelves: nat)

  function Turn(p: Pen, width: int): Pen {
    if p.x + width > COLUMNS then Pen(0, p.y + p.rowHeight, 0, p.shelves + 1) else p
  }

  function PenAfter(items: seq<Panel>): Pen {
    if items == [] then Pen(0, 0, 0, 1)
    else
      var item := items[|items| - 1];
      var p := Turn(PenAfter(items[..|items| - 1]), item.width);
      p.(x := p.x + item.width, rowHeight := Max(p.rowHeight, item.height))
  }

  function Layout(items: seq<Panel>): seq<Place> {
    if items == [] then []
    else
      var before := items[..|items| - 1];
      var item := items[|items| - 1];
      var p := Turn(PenAfter(before), item.width);
      Layout(before) + [Place(p.x, p.y, item)]
  }

  /** The packer as a loop. */
  method Grid(items: seq<Panel>) returns (placed: seq<Place>)
    ensures placed == Layout(items)
  {
    placed := [];
    var x, y, rowHeight := 0, 0, 0;
    for i := 0 to |items|
      invariant placed == Layout(items[..i])
      invariant x == PenAfter(items[..i]).x && y == PenAfter(items[..i]).y
          && rowHeight == PenAfter(items[..i]).rowHeight
    {
      assert items[..i + 1][..i] == items[..i];
      var width, height := items[i].width, items[i].height;
      if x + width > COLUMNS {
        x, y, rowHeight := 0, y + rowHeight, 0;
      }
      placed := placed + [Place(x, y, items[i])];
      x := x + width;
      rowHeight := Max(rowHeight, height);
    }
    assert items[..|items|] == items;
  }

  /** Everything already placed lies left of the pen on its shelf, or above it. */
  ghost predicate Behind(placed: seq<Place>, p: Pen) {
    && 0 <= p.x && 0 <= p.y && 0 <= p.rowHeight
    && forall i :: 0 <= i < |placed| ==> Left(placed[i], p)
  }

  ghost predicate Left(a: Place, p: Pen) {
    || a.y + a.panel.height <= p.y
    || (a.y == p.y && a.x + a.panel.width <= p.x && a.panel.height <= p.rowHeight)
  }

  /** Every panel is placed once, in order, at a place inside the quarter-plane. */
  lemma {:induction false} PlacedInOrder(items: seq<Panel>)
    requires Sized(items)
    ensures |Layout(items)| == |items|
    ensures forall i :: 0 <= i < |items| ==> Layout(items)[i].panel == items[i]
    ensures Behind(Layout(items), PenAfter(items))
    ensures forall i :: 0 <= i < |items| ==> Layout(items)[i].x >= 0 && Layout(items)[i].y >= 0
  {
    if items != [] {
      PlacedInOrder(items[..|items| - 1]);
    }
  }

  /** No two panels overlap, whatever their widths. */
  lemma {:induction false} PanelsDoNotOverlap(items: seq<Panel>)
    requires Sized(items)
    ensures NoOverlap(Layout(items))
  {
    if items != [] {
      var n := |items| - 1;
      PanelsDoNotOverlap(items[..n]);
      PlacedInOrder(items[..n]);
      var before := Layout(items[..n]);
      var p := Turn(PenAfter(items[..n]), items[n].width);
      assert Behind(before, p);
      PlaceApart(before, p, Place(p.x, p.y, items[n]));
    }
  }

  lemma PlaceApart(placed: seq<Place>, p: Pen, place: Place)
    requires NoOverlap(placed) && Behind(placed, p)
    requires place.x == p.x && place.y == p.y
    ensures NoOverlap(placed + [place])
  {
    forall i, j | 0 <= i < j < |placed + [place]|
      ensures Apart((placed + [place])[i], (placed + [place])[j])
    {
      if j < |placed| {
        assert Apart(placed[i], placed[j]);
      } else {
        assert Left(placed[i], p);
      }
    }
  }

  lemma TurnFits(p: Pen, width: int)
    requires p.x >= 0 && width >= 0
    ensures Turn(p, width).x + width <= COLUMNS <==> width <= COLUMNS
  {
  }

  /** A panel lies within the columns exactly when it is not wider than them. */
  lemma {:induction false} WithinColumnsIff(items: seq<Panel>, i: nat)
    requires Sized(items) && i < |items|
    ensures i < |Layout(items)|
    ensures Layout(items)[i].x + items[i].width <= COLUMNS <==> items[i].width <= COLUMNS
  {
    var n := |items| - 1;
    var before, pen := Layout(items[..n]), PenAfter(items[..n]);
    PlacedInOrder(items[..n]);
    TurnFits(pen, items[n].width);
    if i < n {
      WithinColumnsIff(items[..n], i);
      assert Layout(items)[i] == before[i];
    } else {
      assert Layout(items)[i].x == Turn(pen, items[n].width).x;
    }
  }

  // ------------------------------------------------------------ where shelves break

  /** The pen stands right of the last panel, on its shelf, and knows that shelf's height. */
  ghost predicate AtEnd(placed: seq<Place>, p: Pen) {
    && placed != []
    && var last := placed[|placed| - 1];
       p.x == last.x + last.panel.width && p.y == last.y && Tallest(placed, p.y, p.y + p.rowHeight)
  }

  /** The lowest edge among the panels that start at some height. */
  ghost predicate Tallest(placed: seq<Place>, y: int, bottom: int) {
    && (forall j :: 0 <= j < |placed| && placed[j].y == y ==> y + placed[j].panel.height <= bottom)
    && exists j :: 0 <= j < |placed| && placed[j].y == y && y + placed[j].panel.height == bottom
  }

  lemma {:induction false} PenIsAtEnd(items: seq<Panel>)
    requires Sized(items) && items != []
    ensures AtEnd(Layout(items), PenAfter(items))
  {
    var n := |items| - 1;
    var before, pen := Layout(items[..n]), PenAfter(items[..n]);
    var p := Turn(pen, items[n].width);
    PlacedInOrder(items[..n]);
    if n > 0 {
      PenIsAtEnd(items[..n]);
    }
    TallerBy(before, pen, p, items[n]);
  }

  lemma TallerBy(before: seq<Place>, pen: Pen, p: Pen, item: Panel)
    requires Behind(before, pen) && p == Turn(pen, item.width) && item.height >= 0
    requires before == [] ==> pen.rowHeight == 0
    requires before != [] ==> AtEnd(before, pen)
    ensures Tallest(before + [Place(p.x, p.y, item)], p.y, p.y + Max(p.rowHeight, item.height))
  {
    var placed, n := before + [Place(p.x, p.y, item)], |before|;
    assert placed[n].y == p.y;
    forall j | 0 <= j < n && placed[j].y == p.y
      ensures placed[j].panel.height <= Max(p.rowHeight, item.height)
    {
      assert Left(before[j], pen);
    }
    if item.height < p.rowHeight {
      var j :| 0 <= j < n && before[j].y == pen.y && pen.y + before[j].panel.height == pen.y + pen.rowHeight;
      assert placed[j] == before[j];
    }
  }

  /** Where a panel goes after those already placed. */
  ghost predicate Beside(placed: seq<Place>, b: Place) {
    if placed == [] then b.x == 0 && b.y == 0
    else
      var a := placed[|placed| - 1];
      if a.x + a.panel.width + b.panel.width <= 24 then b.x == a.x + a.panel.width && b.y == a.y
      else b.x == 0 && Tallest(placed, a.y, b.y)
  }

  lemma LastIsBeside(items: seq<Panel>)
    requires Sized(items) && items != []
    ensures
      var n := |items| - 1;
      && |Layout(items)| == |items| && Layout(items)[..n] == Layout(items[..n])
      && Beside(Layout(items[..n]), Layout(items)[n])
  {
    var n := |items| - 1;
    PlacedInOrder(items);
    PlacedInOrder(items[..n]);
    if n > 0 {
      PenIsAtEnd(items[..n]);
    }
  }

  /** The first panel stands in the corner; every other one stands right of the panel
      before it if the two fit within 24 columns from where that one stands, and
      otherwise starts a new shelf, right below the tallest panel of the last. */
  lemma {:induction false} NewShelfIff(items: seq<Panel>, i: nat)
    requires Sized(items) && i < |items|
    ensures i < |Layout(items)| && Beside(Layout(items)[..i], Layout(items)[i])
  {
    var n := |items| - 1;
    LastIsBeside(items);
    if i < n {
      NewShelfIff(items[..n], i);
      assert Layout(items)[..i] == Layout(items[..n])[..i];
    }
  }

  // ------------------------------------------------------------ shelves in use

  /** Two shelves in a row hold more than 24 columns, so n shelves need about 12 n:
      the account of total width against the number of shelves opened. */
  ghost predicate Paid(total: int, x: int, shelves: nat) {
    && shelves >= 1 && x >= 0
    && (shelves % 2 == 1 ==> total - x >= COLUMNS / 2 * (shelves - 1))
    && (shelves % 2 == 0 ==> total >= COLUMNS / 2 * shelves)
  }

  lemma PaidStep(total: int, p: Pen, width: int)
    requires Paid(total, p.x, p.shelves) && width >= 0
    ensures Paid(total + width, Turn(p, width).x + width, Turn(p, width).shelves)
  {
  }

  lemma {:induction false} ShelvesArePaid(items: seq<Panel>)
    requires Sized(items)
    ensures Paid(TotalWidth(items), PenAfter(items).x, PenAfter(items).shelves)
  {
    if items != [] {
      var n := |items| - 1;
      ShelvesArePaid(items[..n]);
      PaidStep(TotalWidth(items[..n]), PenAfter(items[..n]), items[n].width);
    }
  }

  lemma {:induction false} TopsAreCounted(items: seq<Panel>)
    ensures |Tops(Layout(items)) + {PenAfter(items).y}| <= PenAfter(items).shelves
  {
    if items != [] {
      var n := |items| - 1;
      TopsAreCounted(items[..n]);
      var before := PenAfter(items[..n]);
      var p := Turn(before, items[n].width);
      var tops := Tops(Layout(items[..n]));
      TopsExtend(Layout(items[..n]), Place(p.x, p.y, items[n]));
      assert tops + {p.y} + {p.y} == tops + {p.y};
      OneMoreTop(tops, before.y, p.y);
    }
  }

  lemma TopsExtend(placed: seq<Place>, place: Place)
    ensures Tops(placed + [place]) == Tops(placed) + {place.y}
  {
    assert forall p :: p in placed + [place] <==> p in placed || p == place;
  }

  lemma OneMoreTop(tops: set<int>, y: int, z: int)
    ensures |tops + {z}| <= |tops + {y}| + if y == z then 0 else 1
  {
    assert tops + {z} <= tops + {y} + {z};
    Smaller(tops + {z}, tops + {y} + {z});
  }

  lemma Smaller(a: set<int>, b: set<int>)
    requires a <= b
    ensures |a| <= |b|
  {
    assert a + (b - a) == b;
  }

  /** The shelves in use number at most one more than the total width has
      half-shelves: the next-fit bound. */
  lemma FewShelves(items: seq<Panel>)
    requires Sized(items)
    ensures |Tops(Layout(items))| <= 2 * TotalWidth(items) / COLUMNS + 1
  {
    var tops, pen := Tops(Layout(items)), PenAfter(items);
    ShelvesArePaid(items);
    TopsAreCounted(items);
    Smaller(tops, tops + {pen.y});
    HalfShelves(TotalWidth(items), pen.x, pen.shelves);
  }

  lemma HalfShelves(total: int, x: int, shelves: nat)
    requires Paid(total, x, shelves)
    ensures shelves <= 2 * total / COLUMNS + 1
  {
    assert total >= 12 * (shelves - 1);
  }
}
