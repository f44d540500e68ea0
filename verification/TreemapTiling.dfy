/** The treemap layout is a tiling: every item gets a rectangle of its share, and every point of the
    whole lies in exactly one of them. */
module TreemapTiling {
  import opened Treemap

  // ---------------------------------------------------------------- geometry

  /** Left and upper edges belong to a rectangle, right and lower ones do not. */
  predicate Contains(r: Rect, px: real, py: real) {
    r.x <= px < r.x + r.width && r.y <= py < r.y + r.height
  }

  /** How many rectangles a point lies in. */
  function Hits(ps: seq<Placed>, px: real, py: real): nat {
    if ps == [] then 0 else Hits(ps[..|ps| - 1], px, py) + if Contains(ps[|ps| - 1].rect, px, py) then 1 else 0
  }

  function Area(r: Rect): real {
    r.width * r.height
  }

  predicate Proper(r: Rect) {
    r.width > 0.0 && r.height > 0.0
  }

  predicate Inside(r: Rect, whole: Rect) {
    && whole.x <= r.x && r.x + r.width <= whole.x + whole.width
    && whole.y <= r.y && r.y + r.height <= whole.y + whole.height
  }

  lemma {:induction false} HitsConcat(a: seq<Placed>, b: seq<Placed>, px: real, py: real)
    ensures Hits(a + b, px, py) == Hits(a, px, py) + Hits(b, px, py)
  {
    if b == [] {
      assert a + b == a;
    } else {
      HitsConcat(a, b[..|b| - 1], px, py);
      assert (a + b)[..|a + b| - 1] == a + b[..|b| - 1];
    }
  }

  /** Rectangles a and b part the rectangle r between them. */
  ghost predicate Parts(r: Rect, a: Rect, b: Rect) {
    && Proper(a) && Proper(b) && Inside(a, r) && Inside(b, r)
    && (forall px: real, py: real :: Contains(r, px, py) <==> (Contains(a, px, py) || Contains(b, px, py)))
    && (forall px: real, py: real :: !(Contains(a, px, py) && Contains(b, px, py)))
  }

  lemma {:induction false} CutWide(r: Rect, w: real)
    requires Proper(r) && 0.0 < w < r.width
    ensures Parts(r, Rect(r.x, r.y, w, r.height), Rect(r.x + w, r.y, r.width - w, r.height))
  {
  }

  lemma {:induction false} CutHigh(r: Rect, h: real)
    requires Proper(r) && 0.0 < h < r.height
    ensures Parts(r, Rect(r.x, r.y, r.width, h), Rect(r.x, r.y + h, r.width, r.height - h))
  {
  }

  // ---------------------------------------------------------------- any cut that leaves something

  ghost predicate Leaves(cut: Cut) {
    forall length: real, left: real, right: real ::
      length > 0.0 && left > 0.0 && right > 0.0 ==> 0.0 < cut(length, left, right) < length
  }

  lemma {:induction false} HalvesPart(cut: Cut, r: Rect, left: real, right: real)
    requires Leaves(cut) && Proper(r) && left > 0.0 && right > 0.0
    ensures Parts(r, Halves(cut, r, left, right).0, Halves(cut, r, left, right).1)
  {
    if r.width >= r.height {
      CutWide(r, cut(r.width, left, right));
    } else {
      CutHigh(r, cut(r.height, left, right));
    }
  }

  lemma {:induction false} Sublists(items: seq<Item>, k: nat)
    requires Positive(items) && DescendingWeights(items) && k <= |items|
    ensures Positive(items[..k]) && Positive(items[k..]) && DescendingWeights(items[..k]) && DescendingWeights(items[k..])
    ensures Sum(items) == Sum(items[..k]) + Sum(items[k..])
  {
    SumConcat(items[..k], items[k..]);
    assert items[..k] + items[k..] == items;
    forall i, j | 0 <= i < j < k ensures NotLighter(items[..k], i, j) {
      assert NotLighter(items, i, j);
    }
    forall i, j | 0 <= i < j < |items| - k ensures NotLighter(items[k..], i, j) {
      assert NotLighter(items, k + i, k + j);
    }
  }

  /** The two parts of a list with positive weights and a split that does not fail. */
  lemma {:induction false} SplitParts(items: seq<Item>)
    requires Positive(items) && DescendingWeights(items) && |items| >= 2
    ensures !Degenerate(items) && Sum(items) > 0.0 && 0 < Split(items) < |items|
    ensures Sum(items[..Split(items)]) > 0.0 && Sum(items[Split(items)..]) > 0.0
  {
    SumPositive(items);
    DescendingSplits(items);
    NonEmpty(items[Split(items)..]);
  }

  lemma {:induction false} NonEmpty(items: seq<Item>)
    requires Sum(items) > 0.0
    ensures items != []
  {
  }

  lemma {:induction false} EmptySum(items: seq<Item>)
    requires items == []
    ensures Sum(items) == 0.0
  {
  }

  /** The parts of a rectangle as the recursion makes them. */
  lemma {:induction false} RecParts(cut: Cut, items: seq<Item>, r: Rect) returns (k: nat, a: Rect, b: Rect)
    requires Leaves(cut) && Positive(items) && DescendingWeights(items) && |items| >= 2 && Proper(r)
    ensures 0 < k < |items| && Sum(items) == Sum(items[..k]) + Sum(items[k..])
    ensures Sum(items[..k]) > 0.0 && Sum(items[k..]) > 0.0
    ensures (a, b) == Halves(cut, r, Sum(items[..k]), Sum(items[k..])) && Parts(r, a, b)
    ensures Rec(cut, items, r) == Rec(cut, items[..k], a) + Rec(cut, items[k..], b)
    ensures Positive(items[..k]) && Positive(items[k..]) && DescendingWeights(items[..k]) && DescendingWeights(items[k..])
  {
    SplitParts(items);
    k := Split(items);
    Sublists(items, k);
    HalvesPart(cut, r, Sum(items[..k]), Sum(items[k..]));
    a, b := Halves(cut, r, Sum(items[..k]), Sum(items[k..])).0, Halves(cut, r, Sum(items[..k]), Sum(items[k..])).1;
  }

  lemma {:induction false} OneHit(ps: seq<Placed>, px: real, py: real)
    requires |ps| == 1
    ensures Hits(ps, px, py) == if Contains(ps[0].rect, px, py) then 1 else 0
  {
    assert ps[..0] == [] && Hits([], px, py) == 0;
  }

  /** Every point of the rectangle lies in exactly one of the parts, every other point in none. */
  lemma {:induction false} RecPartitions(cut: Cut, items: seq<Item>, r: Rect, px: real, py: real)
    requires Leaves(cut) && Positive(items) && DescendingWeights(items) && items != [] && Proper(r)
    ensures Hits(Rec(cut, items, r), px, py) == if Contains(r, px, py) then 1 else 0
    decreases |items|
  {
    if |items| == 1 {
      OneHit(Rec(cut, items, r), px, py);
    } else {
      var k, a, b := RecParts(cut, items, r);
      RecPartitions(cut, items[..k], a, px, py);
      RecPartitions(cut, items[k..], b, px, py);
      HitsConcat(Rec(cut, items[..k], a), Rec(cut, items[k..], b), px, py);
    }
  }

  // ---------------------------------------------------------------- shares

  /** An area function under which cuts are fair: an area that is due to two weights together is cut into
      those due to each. */
  ghost predicate Fair(cut: Cut, area: Rect -> real, due: real -> real) {
    forall r: Rect, left: real, right: real ::
      Proper(r) && left > 0.0 && right > 0.0 && area(r) == due(left + right) ==>
        FairHalves(area, due, Halves(cut, r, left, right), left, right)
  }

  ghost predicate FairHalves(area: Rect -> real, due: real -> real, halves: (Rect, Rect), left: real, right: real) {
    area(halves.0) == due(left) && area(halves.1) == due(right)
  }

  /** One rectangle for each item, in order, inside the whole and with the area due to its weight. */
  ghost predicate Tiles(items: seq<Item>, r: Rect, area: Rect -> real, due: real -> real, ps: seq<Placed>) {
    && |ps| == |items|
    && forall i :: 0 <= i < |items| ==> Fits(items[i], r, area, due, ps[i])
  }

  ghost predicate Fits(item: Item, r: Rect, area: Rect -> real, due: real -> real, p: Placed) {
    p.item == item && Proper(p.rect) && Inside(p.rect, r) && area(p.rect) == due(Weight(item))
  }

  lemma {:induction false} JoinTiles(items: seq<Item>, k: nat, r: Rect, a: Rect, b: Rect, area: Rect -> real,
                                     due: real -> real, first: seq<Placed>, second: seq<Placed>)
    requires k <= |items| && Tiles(items[..k], a, area, due, first) && Tiles(items[k..], b, area, due, second)
    requires Inside(a, r) && Inside(b, r)
    ensures Tiles(items, r, area, due, first + second)
  {
    forall i | 0 <= i < |items| ensures Fits(items[i], r, area, due, (first + second)[i]) {
      if i < k {
        assert Fits(items[..k][i], a, area, due, first[i]);
      } else {
        assert Fits(items[k..][i - k], b, area, due, second[i - k]);
      }
    }
  }

  lemma {:induction false} PartAreas(cut: Cut, area: Rect -> real, due: real -> real, r: Rect, left: real, right: real)
    requires Fair(cut, area, due) && Proper(r) && left > 0.0 && right > 0.0 && area(r) == due(left + right)
    ensures area(Halves(cut, r, left, right).0) == due(left) && area(Halves(cut, r, left, right).1) == due(right)
  {
    assert FairHalves(area, due, Halves(cut, r, left, right), left, right);
  }

  lemma {:induction false} OneTile(items: seq<Item>, r: Rect, area: Rect -> real, due: real -> real)
    requires |items| == 1 && Proper(r) && area(r) == due(Sum(items))
    ensures Tiles(items, r, area, due, [Placed(items[0], r)])
  {
    EmptySum(items[..0]);
    assert Sum(items) == Weight(items[0]);
  }

  lemma {:induction false} RecTiles(cut: Cut, items: seq<Item>, r: Rect, area: Rect -> real, due: real -> real,
                                    ps: seq<Placed>)
    requires Leaves(cut) && Fair(cut, area, due) && ps == Rec(cut, items, r)
    requires Positive(items) && DescendingWeights(items) && items != [] && Proper(r) && area(r) == due(Sum(items))
    ensures Tiles(items, r, area, due, ps)
    decreases |items|
  {
    if |items| == 1 {
      OneTile(items, r, area, due);
    } else {
      var k, a, b := RecParts(cut, items, r);
      var left, right := items[..k], items[k..];
      var first, second := Rec(cut, left, a), Rec(cut, right, b);
      PartAreas(cut, area, due, r, Sum(left), Sum(right));
      RecTiles(cut, left, a, area, due, first);
      RecTiles(cut, right, b, area, due, second);
      JoinTiles(items, k, r, a, b, area, due, first, second);
    }
  }

  // ---------------------------------------------------------------- exact multiplication

  lemma {:induction false} Product(a: real, b: real)
    requires a > 0.0 && b > 0.0
    ensures a * b > 0.0
  {
  }

  lemma {:induction false} Distribute(a: real, b: real, c: real)
    ensures (a + b) * c == a * c + b * c && c * (a + b) == c * a + c * b
  {
  }

  lemma {:induction false} Quotients(left: real, right: real, total: real)
    requires left > 0.0 && right > 0.0 && total == left + right
    ensures left / total > 0.0 && right / total > 0.0 && left / total + right / total == 1.0
  {
    var q, p := left / total, right / total;
    assert q * total == left && p * total == right;
    Distribute(q, p, total);
    Cancel(q + p, 1.0, total);
  }

  lemma {:induction false} ShareInRange(length: real, left: real, right: real)
    requires length > 0.0 && left > 0.0 && right > 0.0
    ensures 0.0 < Share(length, left, right) < length
    ensures Share(length, left, right) * (left + right) == length * left
  {
    var total := left + right;
    var q, p := left / total, right / total;
    Quotients(left, right, total);
    Product(length, q);
    Product(length, p);
    Distribute(q, p, length);
    assert q * total == left;
    assert length * q * total == length * (q * total);
  }

  lemma {:induction false} ShareLeaves()
    ensures Leaves(Share)
  {
    forall length: real, left: real, right: real | length > 0.0 && left > 0.0 && right > 0.0
      ensures 0.0 < Share(length, left, right) < length
    {
      ShareInRange(length, left, right);
    }
  }

  lemma {:induction false} Cancel(a: real, b: real, c: real)
    requires c > 0.0 && a * c == b * c
    ensures a == b
  {
    assert (a - b) * c == 0.0;
    if a > b {
      Product(a - b, c);
    } else if a < b {
      Product(b - a, c);
    }
  }

  /** A strip of a rectangle has its share of the area. */
  lemma {:induction false} StripArea(length: real, across: real, cut: real, left: real, right: real, unit: real)
    requires left > 0.0 && right > 0.0
    requires cut * (left + right) == length * left && length * across == (left + right) * unit
    ensures cut * across == left * unit && (length - cut) * across == right * unit
  {
    var total := left + right;
    assert cut * across * total == cut * total * across == length * left * across;
    assert length * left * across == left * (length * across) == left * (total * unit) == left * unit * total;
    Cancel(cut * across, left * unit, total);
    assert (length - cut) * across == length * across - cut * across;
    assert total * unit == left * unit + right * unit;
  }

  /** The area due to a weight, with this area for each unit. */
  function Due(unit: real): real -> real {
    weight => weight * unit
  }

  lemma {:induction false} ShareFair(unit: real)
    ensures Fair(Share, Area, Due(unit))
  {
    forall r: Rect, left: real, right: real | Proper(r) && left > 0.0 && right > 0.0 && Area(r) == Due(unit)(left + right)
      ensures FairHalves(Area, Due(unit), Halves(Share, r, left, right), left, right)
    {
      HalvesFair(r, left, right, unit);
    }
  }

  lemma {:induction false} HalvesFair(r: Rect, left: real, right: real, unit: real)
    requires Proper(r) && left > 0.0 && right > 0.0 && Area(r) == (left + right) * unit
    ensures Area(Halves(Share, r, left, right).0) == left * unit
    ensures Area(Halves(Share, r, left, right).1) == right * unit
  {
    if r.width >= r.height {
      var w := Share(r.width, left, right);
      ShareInRange(r.width, left, right);
      StripArea(r.width, r.height, w, left, right, unit);
    } else {
      var h := Share(r.height, left, right);
      ShareInRange(r.height, left, right);
      assert r.height * r.width == r.width * r.height;
      StripArea(r.height, r.width, h, left, right, unit);
      assert r.width * h == h * r.width && r.width * (r.height - h) == (r.height - h) * r.width;
    }
  }

  // ---------------------------------------------------------------- percentages

  lemma {:induction false} Ordered(a: real, b: real, c: real)
    requires c > 0.0
    ensures a <= b <==> a * c <= b * c
  {
    Distribute(b, -a, c);
    if a < b {
      Product(b - a, c);
    } else if b < a {
      Product(a - b, c);
      Distribute(a, -b, c);
    }
  }

  /** A coordinate is below a point's exactly if its percentage is below the point's. */
  lemma {:induction false} PercentOrdered(a: real, p: real, whole: real)
    requires whole > 0.0
    ensures a / whole * 100.0 <= p <==> a <= p * whole / 100.0
  {
    var q := a / whole;
    assert q * whole == a;
    Ordered(q * 100.0, p, whole);
    assert q * 100.0 * whole == (q * whole) * 100.0;
  }

  lemma {:induction false} PercentSum(a: real, b: real, whole: real)
    requires whole > 0.0
    ensures a / whole * 100.0 + b / whole * 100.0 == (a + b) / whole * 100.0
  {
    var q, p, s := a / whole, b / whole, (a + b) / whole;
    assert q * whole == a && p * whole == b && s * whole == a + b;
    Distribute(q, p, whole);
    Cancel(q + p, s, whole);
  }

  lemma {:induction false} PercentContains(p: Placed, width: real, height: real, px: real, py: real)
    requires width > 0.0 && height > 0.0
    ensures Contains(Percent(p, width, height).rect, px, py)
       <==> Contains(p.rect, px * width / 100.0, py * height / 100.0)
  {
    PercentOrdered(p.rect.x, px, width);
    PercentOrdered(p.rect.y, py, height);
    PercentSum(p.rect.x, p.rect.width, width);
    PercentSum(p.rect.y, p.rect.height, height);
    PercentOrdered(p.rect.x + p.rect.width, px, width);
    PercentOrdered(p.rect.y + p.rect.height, py, height);
  }

  lemma {:induction false} PercentHits(ps: seq<Placed>, width: real, height: real, px: real, py: real, a: real, b: real)
    requires width > 0.0 && height > 0.0 && a == px * width / 100.0 && b == py * height / 100.0
    ensures Hits(Percents(ps, width, height), px, py) == Hits(ps, a, b)
  {
    if ps != [] {
      var last := |ps| - 1;
      PercentHits(ps[..last], width, height, px, py, a, b);
      assert Percents(ps, width, height)[..last] == Percents(ps[..last], width, height);
      PercentContains(ps[last], width, height, px, py);
    }
  }

  // ---------------------------------------------------------------- the whole layout

  lemma {:induction false} NormalizedFits(items: seq<Item>)
    requires Descending(items)
    ensures Positive(Normalized(items)) && DescendingWeights(Normalized(items))
  {
  }

  /** Items sorted in descending order are laid out so that every point of the square of 100 by 100 lies
      in exactly one rectangle, and every other point in none. */
  lemma {:induction false} LayoutPartitions(cut: Cut, items: seq<Item>, width: real, height: real, px: real, py: real)
    requires Leaves(cut) && Descending(items) && items != [] && Sum(items) > 0.0 && width > 0.0 && height > 0.0
    ensures Hits(Layout(cut, items, width, height), px, py) == if 0.0 <= px < 100.0 && 0.0 <= py < 100.0 then 1 else 0
  {
    var r, n := Rect(0.0, 0.0, width, height), Normalized(items);
    NormalizedFits(items);
    var ps := Rec(cut, n, r);
    var a := WholeSquare(px, width);
    var b := WholeSquare(py, height);
    PercentHits(ps, width, height, px, py, a, b);
    RecPartitions(cut, n, r, a, b);
    AtOrigin(width, height, a, b);
  }

  lemma {:induction false} AtOrigin(width: real, height: real, a: real, b: real)
    ensures Contains(Rect(0.0, 0.0, width, height), a, b) <==> 0.0 <= a < width && 0.0 <= b < height
  {
  }

  lemma {:induction false} WholeSquare(p: real, whole: real) returns (a: real)
    requires whole > 0.0
    ensures a == p * whole / 100.0 && (0.0 <= a < whole <==> 0.0 <= p < 100.0)
  {
    a := p * whole / 100.0;
    PercentOrdered(0.0, p, whole);
    PercentOrdered(whole, p, whole);
    var zero, one := 0.0 / whole, whole / whole;
    assert zero * whole == 0.0 * whole && one * whole == 1.0 * whole;
    Cancel(zero, 0.0, whole);
    Cancel(one, 1.0, whole);
  }

  /** A share of the square of 100 by 100. */
  ghost predicate HasShare(p: Placed, weight: real, total: real) {
    Proper(p.rect) && Area(p.rect) * total == weight * 10000.0
  }

  /** One rectangle for each item, in order, with the item's share of the area; sizes below one count as
      one. (These are the rectangles before they are turned into percentages, see PercentShare.) */
  lemma {:induction false} LayoutShares(cut: Cut, items: seq<Item>, r: Rect, unit: real)
    requires Leaves(cut) && Fair(cut, Area, Due(unit)) && Descending(items) && items != [] && Proper(r)
    requires Area(r) == Due(unit)(Sum(Normalized(items)))
    ensures Tiles(Normalized(items), r, Area, Due(unit), Rec(cut, Normalized(items), r))
  {
    NormalizedFits(items);
    RecTiles(cut, Normalized(items), r, Area, Due(unit), Rec(cut, Normalized(items), r));
  }

  /** Share, the cut that the code makes, is one that these theorems are about. */
  lemma {:induction false} ShareQualifies(width: real, height: real, total: real) returns (unit: real)
    requires width > 0.0 && height > 0.0 && total > 0.0
    ensures Leaves(Share) && Fair(Share, Area, Due(unit))
    ensures Area(Rect(0.0, 0.0, width, height)) == Due(unit)(total) && unit * total == width * height
  {
    ShareLeaves();
    unit := UnitArea(width, height, total);
    ShareFair(unit);
  }

  /** So what layoutTreemap returns for descending items is a tiling of the square. */
  lemma {:induction false} TreemapPartitions(items: seq<Item>, width: real, height: real, px: real, py: real)
    requires Descending(items) && items != [] && Sum(items) > 0.0 && width > 0.0 && height > 0.0
    ensures Hits(Layout(Share, items, width, height), px, py) == if 0.0 <= px < 100.0 && 0.0 <= py < 100.0 then 1 else 0
  {
    ShareLeaves();
    LayoutPartitions(Share, items, width, height, px, py);
  }

  lemma {:induction false} UnitArea(width: real, height: real, total: real) returns (unit: real)
    requires total > 0.0
    ensures Area(Rect(0.0, 0.0, width, height)) == unit * total == width * height
  {
    unit := width * height / total;
  }

  /** The cut is across the longer side, and the first part, which takes the first items, is the left or upper
      one; its length is to the whole as its weight to both. */
  lemma {:induction false} CutsLongerSide(r: Rect, left: real, right: real)
    requires Proper(r) && left > 0.0 && right > 0.0
    ensures var (a, b) := Halves(Share, r, left, right);
            && a.x == r.x && a.y == r.y
            && (if r.width >= r.height then
                  && a.height == r.height && b.height == r.height && b.y == r.y
                  && b.x == r.x + a.width && a.width + b.width == r.width && a.width * (left + right) == r.width * left
                else
                  && a.width == r.width && b.width == r.width && b.x == r.x
                  && b.y == r.y + a.height && a.height + b.height == r.height
                  && a.height * (left + right) == r.height * left)
  {
    ShareInRange(if r.width >= r.height then r.width else r.height, left, right);
  }

  /** As a percentage a tile has its share of the square. */
  lemma {:induction false} PercentShare(item: Item, r: Rect, p: Placed, width: real, height: real, total: real, unit: real)
    requires width > 0.0 && height > 0.0 && unit * total == width * height && Fits(item, r, Area, Due(unit), p)
    ensures HasShare(Percent(p, width, height), Weight(item), total)
  {
    var q, s, weight := p.rect.width / width, p.rect.height / height, Weight(item);
    QuotientPositive(p.rect.width, width);
    QuotientPositive(p.rect.height, height);
    ScaledArea(q, s, p.rect.width, p.rect.height, width, height, weight, total, unit);
  }

  lemma {:induction false} ScaledArea(q: real, s: real, w: real, h: real, width: real, height: real,
                                      weight: real, total: real, unit: real)
    requires q * width == w && s * height == h && width > 0.0 && height > 0.0
    requires w * h == weight * unit && unit * total == width * height
    ensures (q * 100.0) * (s * 100.0) * total == weight * 10000.0
  {
    Product(width, height);
    assert (q * s) * (width * height) == (q * width) * (s * height);
    assert (weight * unit) * total == weight * (unit * total);
    assert (q * s * total) * (width * height) == (q * s) * (width * height) * total;
    Cancel(q * s * total, weight, width * height);
    assert (q * 100.0) * (s * 100.0) == q * s * 10000.0;
    assert q * s * 10000.0 * total == q * s * total * 10000.0;
  }

  lemma {:induction false} QuotientPositive(a: real, b: real)
    requires a > 0.0 && b > 0.0
    ensures a / b > 0.0
  {
    var q := a / b;
    assert q * b == a;
    if q < 0.0 {
      Product(-q, b);
    }
  }

  lemma {:induction false} SharePercent(n: seq<Item>, i: nat, r: Rect, ps: seq<Placed>, width: real, height: real,
                                        total: real, unit: real)
    requires Tiles(n, r, Area, Due(unit), ps) && i < |n|
    requires width > 0.0 && height > 0.0 && unit * total == width * height
    ensures Percents(ps, width, height)[i].item == n[i] && HasShare(Percents(ps, width, height)[i], Weight(n[i]), total)
  {
    assert Fits(n[i], r, Area, Due(unit), ps[i]);
    PercentShare(n[i], r, ps[i], width, height, total, unit);
  }

  /** A size as it is laid out: none, or one below one, counts as one. */
  function Counted(size: real): real {
    if size < 1.0 then 1.0 else size
  }

  function CountedSum(items: seq<Item>): real {
    if items == [] then 0.0 else CountedSum(items[..|items| - 1]) + Counted(items[|items| - 1].size)
  }

  lemma {:induction false} NormalizedSum(items: seq<Item>)
    ensures Sum(Normalized(items)) == CountedSum(items)
  {
    if items != [] {
      var last := |items| - 1;
      NormalizedSum(items[..last]);
      assert Normalized(items)[..last] == Normalized(items[..last]);
    }
  }

  /** Sizes that are not negative have a positive total, even if all are zero. */
  lemma {:induction false} TotalPositive(items: seq<Item>)
    requires items != [] && forall i :: 0 <= i < |items| ==> items[i].size >= 0.0
    ensures Sum(items) > 0.0
  {
    SumPositive(items);
  }

  /** Nothing is laid out where there are no items, or their total or a side is not positive. */
  lemma {:induction false} NothingLaidOut(items: seq<Item>, width: real, height: real)
    requires items == [] || Sum(items) <= 0.0 || width <= 0.0 || height <= 0.0
    ensures Layout(Share, items, width, height) == []
  {
  }

  /** What layoutTreemap returns for descending items: one rectangle for each item, in order, whose area is
      to the square as the item's counted size to that of all items. */
  lemma {:induction false} TreemapShares(items: seq<Item>, width: real, height: real)
    requires Descending(items) && items != [] && Sum(items) > 0.0 && width > 0.0 && height > 0.0
    ensures var out := Layout(Share, items, width, height);
            && |out| == |items|
            && forall i :: 0 <= i < |out| ==>
                 && out[i].item == Item(items[i].key, Counted(items[i].size))
                 && HasShare(out[i], Counted(items[i].size), CountedSum(items))
  {
    var n, r := Normalized(items), Rect(0.0, 0.0, width, height);
    NormalizedFits(items);
    SumPositive(n);
    NormalizedSum(items);
    var total := Sum(n);
    var unit := ShareQualifies(width, height, total);
    LayoutShares(Share, items, r, unit);
    var ps := Rec(Share, n, r);
    forall i | 0 <= i < |n|
      ensures Percents(ps, width, height)[i].item == n[i] && HasShare(Percents(ps, width, height)[i], Weight(n[i]), total)
    {
      SharePercent(n, i, r, ps, width, height, total, unit);
    }
    assert forall i :: 0 <= i < |n| ==> n[i] == Item(items[i].key, Counted(items[i].size)) && Weight(n[i]) == n[i].size;
  }

  /** Where the last item outweighs all others together, a list of two or more positive items is not
      tiled: every item gets the whole rectangle. */
  lemma {:induction false} OverlapsExactlyWhenLastOutweighs(items: seq<Item>, r: Rect)
    requires Positive(items) && |items| >= 2
    ensures Degenerate(items) <==> Weight(items[|items| - 1]) > Sum(items[..|items| - 1])
    ensures Degenerate(items) ==> Rec(Share, items, r) == Everywhere(items, r)
  {
    DegenerateIff(items);
    SumPositive(items);
  }
}
