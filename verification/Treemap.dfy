/** The mempool treemap (static/display.js, lines 779 to 829), over real numbers. */
module Treemap {

  /** A transaction: its key, and its size field, zero standing for none. */
  datatype Item = Item(key: nat, size: real)

  datatype Rect = Rect(x: real, y: real, width: real, height: real)

  datatype Placed = Placed(item: Item, rect: Rect)

  /** c.size || 1 */
  function Weight(c: Item): real {
    if c.size == 0.0 then 1.0 else c.size
  }

  function Sum(items: seq<Item>): real {
    if items == [] then 0.0 else Sum(items[..|items| - 1]) + Weight(items[|items| - 1])
  }

  /** How many items it takes, from i on, for acc to reach half. */
  function SplitFrom(items: seq<Item>, i: nat, acc: real, half: real): (k: nat)
    requires i <= |items|
    ensures i <= k <= |items|
    decreases |items| - i
  {
    if i < |items| && acc < half then SplitFrom(items, i + 1, acc + Weight(items[i]), half) else i
  }

  function Split(items: seq<Item>): (k: nat)
    ensures k <= |items|
    ensures Sum(items) > 0.0 ==> k > 0
  {
    SplitFrom(items, 0, 0.0, Sum(items) / 2.0)
  }

  /** The first part of a length that is shared in this proportion. */
  function Share(length: real, left: real, right: real): real {
    if left + right == 0.0 then 0.0 else length * (left / (left + right))
  }

  /** How a length is cut; Share is how the code does it. The layout is a tiling for any cut that leaves
      something on both sides, so rounding in the multiplication does not matter to it. */
  type Cut = (real, real, real) -> real

  /** The two parts of a rectangle, cut across its longer side. */
  function Halves(cut: Cut, r: Rect, left: real, right: real): (Rect, Rect) {
    if r.width >= r.height then
      var w := cut(r.width, left, right);
      (Rect(r.x, r.y, w, r.height), Rect(r.x + w, r.y, r.width - w, r.height))
    else
      var h := cut(r.height, left, right);
      (Rect(r.x, r.y, r.width, h), Rect(r.x, r.y + h, r.width, r.height - h))
  }

  function Everywhere(items: seq<Item>, r: Rect): seq<Placed> {
    seq(|items|, i requires 0 <= i < |items| => Placed(items[i], r))
  }

  /** The split gives one side nothing, and all items get the whole rectangle. */
  predicate Degenerate(items: seq<Item>) {
    var k := Split(items);
    Sum(items[..k]) <= 0.0 || Sum(items[k..]) <= 0.0
  }

  /** layoutTreemapRec */
  function Rec(cut: Cut, items: seq<Item>, r: Rect): seq<Placed>
    decreases |items|
  {
    if items == [] then []
    else if |items| == 1 then [Placed(items[0], r)]
    else if Sum(items) <= 0.0 then []
    else if Degenerate(items) then Everywhere(items, r)
    else
      var left, right := items[..Split(items)], items[Split(items)..];
      var (a, b) := Halves(cut, r, Sum(left), Sum(right));
      Rec(cut, left, a) + Rec(cut, right, b)
  }

  // ---------------------------------------------------------------- the code

  class RectList {
    var rects: seq<Placed>

    constructor ()
      ensures rects == []
    {
      rects := [];
    }

    method Push(p: Placed)
      modifies this
      ensures rects == old(rects) + [p]
    {
      rects := rects + [p];
    }
  }

  method Reduce(items: seq<Item>) returns (total: real)
    ensures total == Sum(items)
  {
    total := 0.0;
    var i := 0;
    while i < |items|
      invariant i <= |items| && total == Sum(items[..i])
    {
      assert items[..i + 1][..i] == items[..i];
      total := total + Weight(items[i]);
      i := i + 1;
    }
    assert items[..i] == items;
  }

  method PushAll(items: seq<Item>, r: Rect, result: RectList)
    modifies result
    ensures result.rects == old(result.rects) + Everywhere(items, r)
  {
    var i := 0;
    while i < |items|
      invariant i <= |items| && result.rects == old(result.rects) + Everywhere(items, r)[..i]
    {
      result.Push(Placed(items[i], r));
      i := i + 1;
    }
    assert Everywhere(items, r)[..i] == Everywhere(items, r);
  }

  method LayoutTreemapRec(items: seq<Item>, r: Rect, result: RectList)
    modifies result
    ensures result.rects == old(result.rects) + Rec(Share, items, r)
    decreases |items|, 1
  {
    if |items| == 0 {
      assert Rec(Share, items, r) == [];
      return;
    }
    if |items| == 1 {
      result.Push(Placed(items[0], r));
      return;
    }
    var total := Reduce(items);
    if total <= 0.0 {
      assert Rec(Share, items, r) == [];
      return;
    }
    var acc, half, i := 0.0, total / 2.0, 0;
    while i < |items| && acc < half
      invariant i <= |items| && SplitFrom(items, i, acc, half) == Split(items)
    {
      acc := acc + Weight(items[i]);
      i := i + 1;
    }
    var left, right := items[..i], items[i..];
    var leftSum := Reduce(left);
    var rightSum := Reduce(right);
    if leftSum <= 0.0 || rightSum <= 0.0 {
      PushAll(items, r, result);
      return;
    }
    LayoutHalves(left, right, leftSum, rightSum, r, result);
  }

  /** Lines 804 to 813. */
  method LayoutHalves(left: seq<Item>, right: seq<Item>, leftSum: real, rightSum: real, r: Rect, result: RectList)
    requires left != [] && right != [] && leftSum > 0.0 && rightSum > 0.0
    modifies result
    ensures var (a, b) := Halves(Share, r, leftSum, rightSum);
            result.rects == old(result.rects) + (Rec(Share, left, a) + Rec(Share, right, b))
    decreases |left| + |right|, 0
  {
    var a, b := Divide(r, leftSum, rightSum);
    LayoutTreemapRec(left, a, result);
    LayoutTreemapRec(right, b, result);
    PlacedAssoc(old(result.rects), Rec(Share, left, a), Rec(Share, right, b));
  }

  method Divide(r: Rect, leftSum: real, rightSum: real) returns (first: Rect, second: Rect)
    requires leftSum > 0.0 && rightSum > 0.0
    ensures (first, second) == Halves(Share, r, leftSum, rightSum)
  {
    var ratio := leftSum / (leftSum + rightSum);
    if r.width >= r.height {
      var w := r.width * ratio;
      first, second := Rect(r.x, r.y, w, r.height), Rect(r.x + w, r.y, r.width - w, r.height);
      assert w == Share(r.width, leftSum, rightSum);
    } else {
      var h := r.height * ratio;
      first, second := Rect(r.x, r.y, r.width, h), Rect(r.x, r.y + h, r.width, r.height - h);
      assert h == Share(r.height, leftSum, rightSum);
    }
  }

  lemma PlacedAssoc(a: seq<Placed>, b: seq<Placed>, c: seq<Placed>)
    ensures a + b + c == a + (b + c)
  {
  }

  /** layoutTreemap: sizes below one count as one, and coordinates are percentages. */
  function Normalized(items: seq<Item>): (n: seq<Item>)
    ensures |n| == |items|
  {
    seq(|items|, i requires 0 <= i < |items| =>
      Item(items[i].key, if Weight(items[i]) < 1.0 then 1.0 else Weight(items[i])))
  }

  function Percent(p: Placed, width: real, height: real): Placed
    requires width > 0.0 && height > 0.0
  {
    Placed(p.item, Rect(p.rect.x / width * 100.0, p.rect.y / height * 100.0,
                        p.rect.width / width * 100.0, p.rect.height / height * 100.0))
  }

  function Percents(ps: seq<Placed>, width: real, height: real): (r: seq<Placed>)
    requires width > 0.0 && height > 0.0
    ensures |r| == |ps| && forall i :: 0 <= i < |ps| ==> r[i] == Percent(ps[i], width, height)
  {
    seq(|ps|, i requires 0 <= i < |ps| => Percent(ps[i], width, height))
  }

  function Layout(cut: Cut, items: seq<Item>, width: real, height: real): seq<Placed> {
    if Sum(items) <= 0.0 || width <= 0.0 || height <= 0.0 then []
    else Percents(Rec(cut, Normalized(items), Rect(0.0, 0.0, width, height)), width, height)
  }

  method LayoutTreemap(items: seq<Item>, width: real, height: real) returns (out: seq<Placed>)
    ensures out == Layout(Share, items, width, height)
  {
    var total := Reduce(items);
    if total <= 0.0 || width <= 0.0 || height <= 0.0 {
      return [];
    }
    var result := new RectList();
    LayoutTreemapRec(Normalized(items), Rect(0.0, 0.0, width, height), result);
    out := Percents(result.rects, width, height);
    assert [] + Rec(Share, Normalized(items), Rect(0.0, 0.0, width, height)) == result.rects;
  }

  // ---------------------------------------------------------------- sums

  ghost predicate Positive(items: seq<Item>) {
    forall i :: 0 <= i < |items| ==> Weight(items[i]) > 0.0
  }

  /** Largest first, as the mempool feed sorts them. */
  ghost predicate Descending(items: seq<Item>) {
    forall i, j :: 0 <= i < j < |items| ==> items[i].size >= items[j].size
  }

  ghost predicate NotLighter(items: seq<Item>, i: nat, j: nat)
    requires i < |items| && j < |items|
  {
    Weight(items[i]) >= Weight(items[j])
  }

  ghost predicate DescendingWeights(items: seq<Item>) {
    forall i, j :: 0 <= i < j < |items| ==> NotLighter(items, i, j)
  }

  lemma {:induction false} SumConcat(a: seq<Item>, b: seq<Item>)
    ensures Sum(a + b) == Sum(a) + Sum(b)
  {
    if b == [] {
      assert a + b == a;
    } else {
      SumConcat(a, b[..|b| - 1]);
      assert (a + b)[..|a + b| - 1] == a + b[..|b| - 1];
    }
  }

  lemma {:induction false} SumPositive(items: seq<Item>)
    requires Positive(items)
    ensures if items == [] then Sum(items) == 0.0 else Sum(items) > 0.0
  {
    if items != [] {
      SumPositive(items[..|items| - 1]);
    }
  }

  /** The split is the first place where half of the total is reached. */
  lemma {:induction false} SplitIsFirst(items: seq<Item>, i: nat, half: real)
    requires i <= |items|
    ensures var k := SplitFrom(items, i, Sum(items[..i]), half);
            && (k < |items| ==> Sum(items[..k]) >= half)
            && (forall j :: i <= j < k ==> Sum(items[..j]) < half)
    decreases |items| - i
  {
    if i < |items| && Sum(items[..i]) < half {
      assert items[..i + 1][..i] == items[..i];
      SplitIsFirst(items, i + 1, half);
    }
  }

  /** With positive sizes the split fails exactly when the last item outweighs all others together. */
  lemma DegenerateIff(items: seq<Item>)
    requires Positive(items) && |items| >= 2
    ensures Degenerate(items) <==> Weight(items[|items| - 1]) > Sum(items[..|items| - 1])
  {
    var n, half := |items|, Sum(items) / 2.0;
    SumPositive(items);
    assert items[..0] == [];
    SplitIsFirst(items, 0, half);
    var k := Split(items);
    SumPositive(items[..k]);
    SumPositive(items[k..]);
    assert items[..n] == items;
    if k < n {
      SplitMonotone(items, k, n - 1);
    }
  }

  lemma {:induction false} SplitMonotone(items: seq<Item>, i: nat, j: nat)
    requires Positive(items) && i <= j <= |items|
    ensures Sum(items[..i]) <= Sum(items[..j])
  {
    if i < j {
      SplitMonotone(items, i, j - 1);
      assert items[..j][..j - 1] == items[..j - 1];
    }
  }

  /** Sorted in descending order no list of two or more items has such a last item. */
  lemma DescendingSplits(items: seq<Item>)
    requires Positive(items) && DescendingWeights(items) && |items| >= 2
    ensures !Degenerate(items)
  {
    var n := |items|;
    DegenerateIff(items);
    SplitMonotone(items, 1, n - 1);
    assert items[..1] == [items[0]];
    assert Sum([items[0]]) == Sum([]) + Weight(items[0]);
    assert NotLighter(items, 0, n - 1);
  }
}
