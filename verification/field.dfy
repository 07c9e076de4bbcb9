/**
 * Navigation-mesh preparation (server/src/logic/Field.ts): splitting large rectangles so that the
 * polygon-count distance used by the path finder stays close to the real distance.
 */
module Navigation {

  datatype Vertex = Vertex(x: real, y: real)

  /** A navmesh polygon with four vertices, in the order top-left, top-right, bottom-right, bottom-left. */
  datatype Quad = Quad(v0: Vertex, v1: Vertex, v2: Vertex, v3: Vertex)

  /** Largest width or height a rectangle may keep. */
  const MAX_SIZE: real := 4.0

  /** The vertices form an axis-aligned rectangle in the documented order. */
  predicate Aligned(r: Quad)
  {
    r.v0.y == r.v1.y && r.v2.y == r.v3.y && r.v0.x == r.v3.x && r.v1.x == r.v2.x
  }

  function Width(r: Quad): real { r.v1.x - r.v0.x }

  function Height(r: Quad): real { r.v3.y - r.v0.y }

  predicate Small(r: Quad) { Width(r) <= MAX_SIZE && Height(r) <= MAX_SIZE }

  /** The rectangle contains the point, with its left and top edges included and its right and
      bottom edges excluded, so that two halves of a split never share a point. */
  predicate Covers(r: Quad, p: Vertex)
  {
    r.v0.x <= p.x < r.v1.x && r.v0.y <= p.y < r.v3.y
  }

  function Area(r: Quad): real { Width(r) * Height(r) }

  /** How many rectangles of the list contain the point. */
  function Multiplicity(rs: seq<Quad>, p: Vertex): nat
  {
    if rs == [] then 0 else (if Covers(rs[0], p) then 1 else 0) + Multiplicity(rs[1..], p)
  }

  function TotalArea(rs: seq<Quad>): real
  {
    if rs == [] then 0.0 else Area(rs[0]) + TotalArea(rs[1..])
  }

  /** The number of strips a side of the given length ends up as: it is halved while it exceeds the
      maximum size, so a side of length 4 * 2^k + e (0 < e) becomes 2^(k+1) strips. */
  function Strips(len: real): (n: nat)
    ensures n >= 1
    ensures len <= MAX_SIZE <==> n == 1
    decreases if len <= MAX_SIZE then 0 else len.Floor
  {
    if len <= MAX_SIZE then 1 else 2 * Strips(len / 2.0)
  }

  /** The number of rectangles one rectangle is split into. */
  function Pieces(r: Quad): nat
  {
    Strips(Width(r)) * Strips(Height(r))
  }

  function TotalPieces(rs: seq<Quad>): nat
  {
    if rs == [] then 0 else Pieces(rs[0]) + TotalPieces(rs[1..])
  }

  lemma {:induction false} MultiplicityAppend(a: seq<Quad>, b: seq<Quad>, p: Vertex)
    ensures Multiplicity(a + b, p) == Multiplicity(a, p) + Multiplicity(b, p)
  {
    if a != [] {
      assert (a + b)[1..] == a[1..] + b;
      MultiplicityAppend(a[1..], b, p);
    } else {
      assert a + b == b;
    }
  }

  lemma {:induction false} AreaAppend(a: seq<Quad>, b: seq<Quad>)
    ensures TotalArea(a + b) == TotalArea(a) + TotalArea(b)
  {
    if a != [] {
      assert (a + b)[1..] == a[1..] + b;
      AreaAppend(a[1..], b);
    } else {
      assert a + b == b;
    }
  }

  lemma {:induction false} PiecesAppend(a: seq<Quad>, b: seq<Quad>)
    ensures TotalPieces(a + b) == TotalPieces(a) + TotalPieces(b)
  {
    if a != [] {
      assert (a + b)[1..] == a[1..] + b;
      PiecesAppend(a[1..], b);
    } else {
      assert a + b == b;
    }
  }

  /** Replacing the rectangle at `i` by two rectangles `r` (in place) and `q` (appended) changes none of
      the sums when the two together account for the replaced one. */
  lemma ReplaceAndAppend(s: seq<Quad>, i: nat, r: Quad, q: Quad)
    requires i < |s|
    requires forall p :: (if Covers(s[i], p) then 1 else 0) == (if Covers(r, p) then 1 else 0) + (if Covers(q, p) then 1 else 0)
    requires Area(s[i]) == Area(r) + Area(q)
    requires Pieces(s[i]) == Pieces(r) + Pieces(q)
    ensures forall p :: Multiplicity(s[i := r] + [q], p) == Multiplicity(s, p)
    ensures TotalArea(s[i := r] + [q]) == TotalArea(s)
    ensures TotalPieces((s[i := r] + [q])[i..]) == TotalPieces(s[i..])
  {
    forall p ensures Multiplicity(s[i := r] + [q], p) == Multiplicity(s, p) {
      ReplaceMultiplicity(s, i, r, q, p);
    }
    ReplaceArea(s, i, r, q);
    ReplacePieces(s, i, r, q);
  }

  lemma ReplaceMultiplicity(s: seq<Quad>, i: nat, r: Quad, q: Quad, p: Vertex)
    requires i < |s|
    requires (if Covers(s[i], p) then 1 else 0) == (if Covers(r, p) then 1 else 0) + (if Covers(q, p) then 1 else 0)
    ensures Multiplicity(s[i := r] + [q], p) == Multiplicity(s, p)
  {
    var pre, post := s[..i], s[i + 1..];
    assert s == pre + [s[i]] + post;
    assert s[i := r] + [q] == pre + [r] + post + [q];
    MultiplicityAppend(pre + [r] + post, [q], p);
    MultiplicityAppend(pre + [r], post, p);
    MultiplicityAppend(pre, [r], p);
    MultiplicityAppend(pre + [s[i]], post, p);
    MultiplicityAppend(pre, [s[i]], p);
  }

  lemma ReplaceArea(s: seq<Quad>, i: nat, r: Quad, q: Quad)
    requires i < |s| && Area(s[i]) == Area(r) + Area(q)
    ensures TotalArea(s[i := r] + [q]) == TotalArea(s)
  {
    var pre, post := s[..i], s[i + 1..];
    assert s == pre + [s[i]] + post;
    assert s[i := r] + [q] == pre + [r] + post + [q];
    AreaAppend(pre + [r] + post, [q]);
    AreaAppend(pre + [r], post);
    AreaAppend(pre, [r]);
    AreaAppend(pre + [s[i]], post);
    AreaAppend(pre, [s[i]]);
  }

  lemma ReplacePieces(s: seq<Quad>, i: nat, r: Quad, q: Quad)
    requires i < |s| && Pieces(s[i]) == Pieces(r) + Pieces(q)
    ensures TotalPieces((s[i := r] + [q])[i..]) == TotalPieces(s[i..])
  {
    var post := s[i + 1..];
    assert s[i..] == [s[i]] + post;
    assert (s[i := r] + [q])[i..] == [r] + post + [q];
    PiecesAppend([r] + post, [q]);
    PiecesAppend([r], post);
    PiecesAppend([s[i]], post);
  }

  /** Halving the width: the rectangle keeps its left half and the right half is a new rectangle with
      the same vertical extent. Both halves are aligned, and together they replace the original. */
  function SplitWidth(r: Quad): (halves: (Quad, Quad))
    requires Aligned(r) && Width(r) > MAX_SIZE
    ensures var (left, right) := halves;
      && Aligned(left) && Aligned(right)
      && left.v0 == r.v0 && left.v3 == r.v3 && Height(left) == Height(r) && Height(right) == Height(r)
      && Width(left) == Width(r) / 2.0 && Width(right) == Width(r) / 2.0
  {
    var prevX := r.v1.x;
    var midX := r.v0.x + (r.v1.x - r.v0.x) / 2.0;
    var left := r.(v1 := r.v1.(x := midX), v2 := r.v2.(x := midX));
    var right := Quad(Vertex(left.v1.x, left.v0.y), Vertex(prevX, left.v1.y),
                      Vertex(prevX, left.v2.y), Vertex(left.v1.x, left.v3.y));
    (left, right)
  }

  /** Halving the height: the rectangle keeps its top half and the bottom half is a new rectangle with
      the same horizontal extent. */
  function SplitHeight(r: Quad): (halves: (Quad, Quad))
    requires Aligned(r) && Height(r) > MAX_SIZE
    ensures var (top, bottom) := halves;
      && Aligned(top) && Aligned(bottom)
      && top.v0 == r.v0 && top.v1 == r.v1 && Width(top) == Width(r) && Width(bottom) == Width(r)
      && Height(top) == Height(r) / 2.0 && Height(bottom) == Height(r) / 2.0
  {
    var prevY := r.v3.y;
    var midY := r.v0.y + (r.v3.y - r.v0.y) / 2.0;
    var top := r.(v2 := r.v2.(y := midY), v3 := r.v3.(y := midY));
    var bottom := Quad(top.v3, top.v2, Vertex(top.v2.x, prevY), Vertex(top.v3.x, prevY));
    (top, bottom)
  }

  /** A width split partitions the rectangle: every point is in exactly one half or in neither, and
      area and eventual piece count are shared out exactly. */
  lemma SplitWidthPartitions(r: Quad)
    requires Aligned(r) && Width(r) > MAX_SIZE
    ensures var (left, right) := SplitWidth(r);
      && (forall p :: (if Covers(r, p) then 1 else 0) == (if Covers(left, p) then 1 else 0) + (if Covers(right, p) then 1 else 0))
      && Area(r) == Area(left) + Area(right)
      && Pieces(r) == Pieces(left) + Pieces(right)
  {
    var (left, right) := SplitWidth(r);
    var w, h := Width(r), Height(r);
    calc {
      Area(left) + Area(right);
      (w / 2.0) * h + (w / 2.0) * h;
      w * h;
    }
    assert Strips(w) == 2 * Strips(w / 2.0);
  }

  lemma SplitHeightPartitions(r: Quad)
    requires Aligned(r) && Height(r) > MAX_SIZE
    ensures var (top, bottom) := SplitHeight(r);
      && (forall p :: (if Covers(r, p) then 1 else 0) == (if Covers(top, p) then 1 else 0) + (if Covers(bottom, p) then 1 else 0))
      && Area(r) == Area(top) + Area(bottom)
      && Pieces(r) == Pieces(top) + Pieces(bottom)
  {
    var (top, bottom) := SplitHeight(r);
    var w, h := Width(r), Height(r);
    calc {
      Area(top) + Area(bottom);
      w * (h / 2.0) + w * (h / 2.0);
      w * h;
    }
    assert Strips(h) == 2 * Strips(h / 2.0);
  }

  /** Every point lies in as many rectangles of `a` as of `b`. */
  ghost predicate SameCover(a: seq<Quad>, b: seq<Quad>)
  {
    forall p :: Multiplicity(a, p) == Multiplicity(b, p)
  }

  predicate AllAligned(rs: seq<Quad>)
  {
    forall j :: 0 <= j < |rs| ==> Aligned(rs[j])
  }

  /** What one inner loop of splitPolys does to the list: only slot `i` changes, halves are appended,
      and coverage, area and the pieces still to come are unchanged. */
  ghost predicate SplitStep(cur: seq<Quad>, next: seq<Quad>, i: nat)
    requires i < |cur|
  {
    && |cur| <= |next| && next[..|cur|] == cur[i := next[i]]
    && AllAligned(next)
    && next[i].v0 == cur[i].v0
    && SameCover(next, cur)
    && TotalArea(next) == TotalArea(cur)
    && TotalPieces(next[i..]) == TotalPieces(cur[i..])
  }

  /** Halving rectangle `i` once more, in place with the other half appended, keeps the step. */
  lemma HalveStep(cur: seq<Quad>, next: seq<Quad>, i: nat, r: Quad, q: Quad)
    requires i < |cur| && SplitStep(cur, next, i) && Aligned(r) && Aligned(q) && r.v0 == next[i].v0
    requires forall p :: (if Covers(next[i], p) then 1 else 0) == (if Covers(r, p) then 1 else 0) + (if Covers(q, p) then 1 else 0)
    requires Area(next[i]) == Area(r) + Area(q)
    requires Pieces(next[i]) == Pieces(r) + Pieces(q)
    ensures SplitStep(cur, next[i := r] + [q], i)
  {
    ReplaceAndAppend(next, i, r, q);
    var n := next[i := r] + [q];
    assert n[..|cur|] == cur[i := r];
    assert forall j :: 0 <= j < |n| ==> Aligned(n[j]) by {
      forall j | 0 <= j < |n| ensures Aligned(n[j]) {
        if j < |next| && j != i { assert n[j] == next[j]; }
      }
    }
  }

  /** The first inner loop: halve the width of rectangle `i` while it is above the maximum. */
  method SplitWidths(cur: seq<Quad>, i: nat) returns (next: seq<Quad>)
    requires i < |cur| && AllAligned(cur)
    ensures SplitStep(cur, next, i)
    ensures Width(next[i]) <= MAX_SIZE && Height(next[i]) == Height(cur[i])
    ensures Width(cur[i]) <= MAX_SIZE ==> next == cur
  {
    next := cur;
    var rect := cur[i];
    assert cur[..|cur|] == cur[i := rect];
    while Width(rect) > MAX_SIZE
      invariant SplitStep(cur, next, i) && next[i] == rect && Height(rect) == Height(cur[i])
      invariant Width(cur[i]) <= MAX_SIZE ==> next == cur
      decreases Width(rect).Floor
    {
      var (left, right) := SplitWidth(rect);
      SplitWidthPartitions(rect);
      HalveStep(cur, next, i, left, right);
      next := next[i := left] + [right];
      rect := left;
    }
  }

  /** The second inner loop: halve the height of rectangle `i` while it is above the maximum. */
  method SplitHeights(cur: seq<Quad>, i: nat) returns (next: seq<Quad>)
    requires i < |cur| && AllAligned(cur)
    ensures SplitStep(cur, next, i)
    ensures Height(next[i]) <= MAX_SIZE && Width(next[i]) == Width(cur[i])
    ensures Height(cur[i]) <= MAX_SIZE ==> next == cur
  {
    next := cur;
    var rect := cur[i];
    assert cur[..|cur|] == cur[i := rect];
    while Height(rect) > MAX_SIZE
      invariant SplitStep(cur, next, i) && next[i] == rect && Width(rect) == Width(cur[i])
      invariant Height(cur[i]) <= MAX_SIZE ==> next == cur
      decreases Height(rect).Floor
    {
      var (top, bottom) := SplitHeight(rect);
      SplitHeightPartitions(rect);
      HalveStep(cur, next, i, top, bottom);
      next := next[i := top] + [bottom];
      rect := top;
    }
  }

  /** One turn of the outer loop of splitPolys: rectangle `i` is halved until it is small, and only
      slot `i` changes among the existing ones. */
  method SplitRect(cur: seq<Quad>, i: nat) returns (next: seq<Quad>)
    requires i < |cur| && AllAligned(cur)
    ensures |cur| <= |next| && AllAligned(next)
    ensures forall j :: 0 <= j < |cur| && j != i ==> next[j] == cur[j]
    ensures Small(next[i]) && next[i].v0 == cur[i].v0
    ensures Small(cur[i]) ==> next == cur
    ensures SameCover(next, cur) && TotalArea(next) == TotalArea(cur)
    ensures 1 + TotalPieces(next[i + 1..]) == TotalPieces(cur[i..])
  {
    var widths := SplitWidths(cur, i);
    next := SplitHeights(widths, i);
    forall j | 0 <= j < |cur| && j != i
      ensures next[j] == cur[j]
    {
      assert next[..|widths|][j] == widths[j];
      assert widths[..|cur|][j] == cur[j];
    }
    assert next[i..] == [next[i]] + next[i + 1..];
  }

  /** splitPolys. The loop re-reads the length of the growing list, so appended halves are split too.
      The list only grows, every original keeps its index and its top-left corner, rectangles that are
      already small are untouched, every rectangle ends up at most 4 by 4, and the result tiles exactly
      what the input covered: every point lies in as many rectangles as before, the total area is the
      same, and the number of rectangles is the predicted piece count. */
  method SplitPolys(polys: seq<Quad>) returns (result: seq<Quad>)
    requires AllAligned(polys)
    ensures |result| == TotalPieces(polys) && |result| >= |polys|
    ensures forall j :: 0 <= j < |result| ==> Aligned(result[j]) && Small(result[j])
    ensures forall j :: 0 <= j < |polys| ==> result[j].v0 == polys[j].v0
    ensures forall j :: 0 <= j < |polys| && Small(polys[j]) ==> result[j] == polys[j]
    ensures SameCover(result, polys)
    ensures TotalArea(result) == TotalArea(polys)
  {
    var cur := polys;
    var i := 0;
    while i < |cur|
      invariant i <= |cur| && |polys| <= |cur| && AllAligned(cur)
      invariant forall j :: 0 <= j < i ==> Small(cur[j])
      invariant forall j :: i <= j < |polys| ==> cur[j] == polys[j]
      invariant forall j :: 0 <= j < |polys| ==> cur[j].v0 == polys[j].v0
      invariant forall j :: 0 <= j < i && j < |polys| && Small(polys[j]) ==> cur[j] == polys[j]
      invariant SameCover(cur, polys) && TotalArea(cur) == TotalArea(polys)
      invariant i + TotalPieces(cur[i..]) == TotalPieces(polys)
      decreases TotalPieces(cur[i..])
    {
      cur := SplitRect(cur, i);
      i := i + 1;
    }
    result := cur;
  }
}
