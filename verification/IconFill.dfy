/** The icon generator's background removal (site/gen_icons.py): a flood fill from the
    edges over a work queue, then a fade of the pixels at the boundary, both in place. */
module IconFill {
  import opened Basics
  const THRESHOLD := 230
  const FADE_THRESHOLD := 210

  datatype Pixel = Pixel(r: Byte, g: Byte, b: Byte, a: Byte)

  type Cell = (int, int)

  const OFFSETS: seq<Cell> := [(-1, 0), (1, 0), (0, -1), (0, 1)]

  predicate Brighter(p: Pixel, threshold: nat) {
    p.r > threshold && p.g > threshold && p.b > threshold
  }

  // ---------------------------------------------------------------- reachability

  predicate InImage(w: nat, h: nat, c: Cell) { 0 <= c.0 < w && 0 <= c.1 < h }

  predicate OnBorder(w: nat, h: nat, c: Cell) {
    InImage(w, h, c) && (c.0 == 0 || c.0 == w - 1 || c.1 == 0 || c.1 == h - 1)
  }

  function Shifted(c: Cell, d: Cell): Cell { (c.0 + d.0, c.1 + d.1) }

  predicate Adjacent(c: Cell, d: Cell) {
    exists k :: 0 <= k < |OFFSETS| && d == Shifted(c, OFFSETS[k])
  }

  /** The neighbours of a cell are the cells above, below, left and right of it. */
  lemma AdjacentIff(c: Cell, d: Cell)
    ensures Adjacent(c, d) <==>
              || (d.0 == c.0 && (d.1 == c.1 - 1 || d.1 == c.1 + 1))
              || (d.1 == c.1 && (d.0 == c.0 - 1 || d.0 == c.0 + 1))
  {
    assert OFFSETS[0] == (-1, 0) && OFFSETS[1] == (1, 0) && OFFSETS[2] == (0, -1) && OFFSETS[3] == (0, 1);
    if d.0 == c.0 && d.1 == c.1 - 1 { assert d == Shifted(c, OFFSETS[2]); }
    if d.0 == c.0 && d.1 == c.1 + 1 { assert d == Shifted(c, OFFSETS[3]); }
    if d.1 == c.1 && d.0 == c.0 - 1 { assert d == Shifted(c, OFFSETS[0]); }
    if d.1 == c.1 && d.0 == c.0 + 1 { assert d == Shifted(c, OFFSETS[1]); }
  }

  /** A 4-neighbour path through the given cells from a border cell. */
  ghost predicate IsPath(white: set<Cell>, w: nat, h: nat, path: seq<Cell>) {
    && path != [] && OnBorder(w, h, path[0])
    && (forall i :: 0 <= i < |path| ==> path[i] in white)
    && (forall i :: 0 <= i < |path| - 1 ==> Adjacent(path[i], path[i + 1]))
  }

  ghost predicate Reachable(white: set<Cell>, w: nat, h: nat, c: Cell) {
    exists path :: IsPath(white, w, h, path) && path[|path| - 1] == c
  }

  lemma ReachBorder(white: set<Cell>, w: nat, h: nat, c: Cell)
    requires c in white && OnBorder(w, h, c)
    ensures Reachable(white, w, h, c)
  {
    assert IsPath(white, w, h, [c]);
  }

  lemma ReachAdjacent(white: set<Cell>, w: nat, h: nat, c: Cell, d: Cell)
    requires Reachable(white, w, h, c) && Adjacent(c, d) && d in white
    ensures Reachable(white, w, h, d)
  {
    var path :| IsPath(white, w, h, path) && path[|path| - 1] == c;
    var longer := path + [d];
    assert forall i :: 0 <= i < |path| ==> longer[i] == path[i];
    assert IsPath(white, w, h, longer);
  }

  /** A set that holds the white border cells and is closed under white neighbours holds
      every cell a path leads to. */
  lemma {:induction false} ClosedHoldsPath(white: set<Cell>, w: nat, h: nat, closed: set<Cell>, path: seq<Cell>)
    requires IsPath(white, w, h, path)
    requires forall c :: c in white && OnBorder(w, h, c) ==> c in closed
    requires forall c, d :: c in closed && c in white && d in white && Adjacent(c, d) ==> d in closed
    ensures path[|path| - 1] in closed
  {
    var n := |path| - 1;
    if n == 0 {
    } else {
      ClosedHoldsPath(white, w, h, closed, path[..n]);
      assert path[n - 1] in closed && Adjacent(path[n - 1], path[n - 1 + 1]);
    }
  }

  // ---------------------------------------------------------------- the flood fill

  /** The cells of an image whose colour is near white. */
  ghost function NearWhite(pixels: array2<Pixel>): (cells: set<Cell>)
    reads pixels
    ensures forall c ::
              c in cells <==> InImage(pixels.Length0, pixels.Length1, c) && Brighter(pixels[c.0, c.1], THRESHOLD)
  {
    set x, y | 0 <= x < pixels.Length0 && 0 <= y < pixels.Length1 && Brighter(pixels[x, y], THRESHOLD) :: (x, y)
  }

  ghost function Cells(w: nat, h: nat): (cells: set<Cell>)
    ensures forall c :: c in cells <==> InImage(w, h, c)
  {
    set x, y | 0 <= x < w && 0 <= y < h :: (x, y)
  }

  /** The edge cells of a number of columns and rows are queued, and of the image no others. */
  ghost predicate SeedsSoFar(w: nat, h: nat, queue: seq<Cell>, columns: nat, rows: nat) {
    && (forall x :: 0 <= x < columns ==> ColumnQueued(h, queue, x))
    && (forall y :: 0 <= y < rows ==> RowQueued(w, queue, y))
    && (forall c :: c in queue && InImage(w, h, c) ==> OnBorder(w, h, c))
  }

  ghost predicate ColumnQueued(h: nat, queue: seq<Cell>, x: nat) { (x, 0) in queue && (x, h - 1) in queue }

  ghost predicate RowQueued(w: nat, queue: seq<Cell>, y: nat) { (0, y) in queue && (w - 1, y) in queue }

  lemma SeedColumn(w: nat, h: nat, queue: seq<Cell>, columns: nat)
    requires SeedsSoFar(w, h, queue, columns, 0)
    ensures SeedsSoFar(w, h, queue + [(columns, 0), (columns, h - 1)], columns + 1, 0)
  {
    var longer := queue + [(columns, 0), (columns, h - 1)];
    assert longer[|queue|] == (columns, 0) && longer[|queue| + 1] == (columns, h - 1);
    forall x | 0 <= x < columns + 1 ensures ColumnQueued(h, longer, x) {
      if x < columns { assert ColumnQueued(h, queue, x); }
    }
  }

  lemma SeedRow(w: nat, h: nat, queue: seq<Cell>, rows: nat)
    requires SeedsSoFar(w, h, queue, w, rows)
    ensures SeedsSoFar(w, h, queue + [(0, rows), (w - 1, rows)], w, rows + 1)
  {
    var longer := queue + [(0, rows), (w - 1, rows)];
    assert longer[|queue|] == (0, rows) && longer[|queue| + 1] == (w - 1, rows);
    forall x | 0 <= x < w ensures ColumnQueued(h, longer, x) { assert ColumnQueued(h, queue, x); }
    forall y | 0 <= y < rows + 1 ensures RowQueued(w, longer, y) {
      if y < rows { assert RowQueued(w, queue, y); }
    }
  }

  /** The cells of the four edges. */
  method SeedEdges(w: nat, h: nat) returns (queue: seq<Cell>)
    ensures forall c :: OnBorder(w, h, c) ==> c in queue
    ensures forall c :: c in queue && InImage(w, h, c) ==> OnBorder(w, h, c)
  {
    queue := [];
    for x := 0 to w
      invariant SeedsSoFar(w, h, queue, x, 0)
    {
      SeedColumn(w, h, queue, x);
      queue := queue + [(x, 0), (x, h - 1)];
    }
    for y := 0 to h
      invariant SeedsSoFar(w, h, queue, w, y)
    {
      SeedRow(w, h, queue, y);
      queue := queue + [(0, y), (w - 1, y)];
    }
    forall c | OnBorder(w, h, c) ensures c in queue {
      assert c == (c.0, 0) || c == (c.0, h - 1) || c == (0, c.1) || c == (w - 1, c.1);
      assert ColumnQueued(h, queue, c.0) && RowQueued(w, queue, c.1);
    }
  }

  /** Append the neighbours not visited yet. */
  method QueueNeighbours(queue: seq<Cell>, visited: set<Cell>, c: Cell) returns (longer: seq<Cell>)
    ensures forall d :: d in longer <==> d in queue || (Adjacent(c, d) && d !in visited)
  {
    longer := queue;
    for k := 0 to |OFFSETS|
      invariant forall d :: d in longer <==>
                  d in queue || (d !in visited && exists j :: 0 <= j < k && d == Shifted(c, OFFSETS[j]))
    {
      var d := Shifted(c, OFFSETS[k]);
      if d !in visited {
        longer := longer + [d];
      }
    }
  }

  /** A pixel with its colour, made transparent. */
  function Cleared(p: Pixel): Pixel { p.(a := 0) }

  /** What holds between two rounds of the fill. */
  ghost predicate FillOk(white: set<Cell>, w: nat, h: nat, visited: set<Cell>, queue: seq<Cell>) {
    && visited <= Cells(w, h)
    && (forall c :: c in queue && c in white ==> Reachable(white, w, h, c))
    && (forall c :: c in visited && c in white ==> Reachable(white, w, h, c))
    && (forall c :: OnBorder(w, h, c) ==> c in visited || c in queue)
    && (forall c, d :: c in visited && c in white && Adjacent(c, d) && InImage(w, h, d) ==> d in visited || d in queue)
  }

  lemma FillStarts(white: set<Cell>, w: nat, h: nat, queue: seq<Cell>)
    requires white <= Cells(w, h)
    requires forall c :: OnBorder(w, h, c) ==> c in queue
    requires forall c :: c in queue && InImage(w, h, c) ==> OnBorder(w, h, c)
    ensures FillOk(white, w, h, {}, queue)
  {
    forall c | c in queue && c in white ensures Reachable(white, w, h, c) { ReachBorder(white, w, h, c); }
  }

  lemma FillSkips(white: set<Cell>, w: nat, h: nat, visited: set<Cell>, queue: seq<Cell>)
    requires queue != [] && FillOk(white, w, h, visited, queue)
    requires queue[0] in visited || !InImage(w, h, queue[0])
    ensures FillOk(white, w, h, visited, queue[1..])
  {
    assert forall d :: d in queue <==> d == queue[0] || d in queue[1..];
  }

  lemma FillVisits(white: set<Cell>, w: nat, h: nat, visited: set<Cell>, queue: seq<Cell>, longer: seq<Cell>)
    requires queue != [] && FillOk(white, w, h, visited, queue)
    requires InImage(w, h, queue[0])
    requires if queue[0] in white
             then forall d :: d in longer <==> d in queue[1..] || (Adjacent(queue[0], d) && d !in visited + {queue[0]})
             else longer == queue[1..]
    ensures FillOk(white, w, h, visited + {queue[0]}, longer)
  {
    var c := queue[0];
    assert forall d :: d in queue <==> d == c || d in queue[1..];
    forall d | d in longer && d in white ensures Reachable(white, w, h, d) {
      if d !in queue[1..] { ReachAdjacent(white, w, h, c, d); }
    }
  }

  /** With the queue empty the visited white cells are exactly the reachable ones. */
  lemma FillEnds(white: set<Cell>, w: nat, h: nat, visited: set<Cell>, c: Cell)
    requires FillOk(white, w, h, visited, []) && white <= Cells(w, h)
    ensures c in visited && c in white <==> Reachable(white, w, h, c)
  {
    if Reachable(white, w, h, c) {
      var path :| IsPath(white, w, h, path) && path[|path| - 1] == c;
      ClosedHoldsPath(white, w, h, visited, path);
    }
  }

  type Picture = map<Cell, Pixel>

  /** The pixels of an image, as a value. */
  ghost function Snapshot(pixels: array2<Pixel>): (picture: Picture)
    reads pixels
    ensures forall c :: c in picture <==> InImage(pixels.Length0, pixels.Length1, c)
    ensures forall c :: c in picture ==>
              InImage(pixels.Length0, pixels.Length1, c) && picture[c] == pixels[c.0, c.1]
  {
    map c | c in Cells(pixels.Length0, pixels.Length1) :: pixels[c.0, c.1]
  }

  ghost predicate Whites(white: set<Cell>, was: Picture) {
    forall c :: c in white <==> c in was && Brighter(was[c], THRESHOLD)
  }

  /** The picture with the visited white cells cleared. */
  ghost predicate Painted(now: Picture, was: Picture, white: set<Cell>, visited: set<Cell>) {
    && now.Keys == was.Keys
    && forall c :: c in was ==> now[c] == if c in visited && c in white then Cleared(was[c]) else was[c]
  }

  lemma PaintOne(before: Picture, now: Picture, was: Picture, white: set<Cell>, visited: set<Cell>, c: Cell)
    requires c in was && c !in visited && Whites(white, was) && Painted(before, was, white, visited)
    requires now == if Brighter(before[c], THRESHOLD) then before[c := Cleared(before[c])] else before
    ensures Brighter(before[c], THRESHOLD) <==> c in white
    ensures Painted(now, was, white, visited + {c})
  {
  }

  /** Visit the cell at the head of the queue. */
  method Visit(pixels: array2<Pixel>, visited: set<Cell>, queue: seq<Cell>) returns (longer: seq<Cell>)
    requires queue != [] && InImage(pixels.Length0, pixels.Length1, queue[0])
    modifies pixels
    ensures var before, c := old(Snapshot(pixels)), queue[0];
            && Snapshot(pixels) == (if Brighter(before[c], THRESHOLD) then before[c := Cleared(before[c])] else before)
            && if Brighter(before[c], THRESHOLD)
               then forall d :: d in longer <==> d in queue[1..] || (Adjacent(c, d) && d !in visited)
               else longer == queue[1..]
  {
    var c := queue[0];
    longer := queue[1..];
    if Brighter(pixels[c.0, c.1], THRESHOLD) {
      pixels[c.0, c.1] := Cleared(pixels[c.0, c.1]);
      longer := QueueNeighbours(longer, visited, c);
    }
  }

  lemma FewerLeft(all: set<Cell>, visited: set<Cell>, c: Cell)
    requires c in all && c !in visited
    ensures |all - (visited + {c})| < |all - visited|
  {
    assert all - visited == (all - (visited + {c})) + {c};
  }

  /** The fill: a pixel becomes transparent exactly when a path of near-white pixels joins
      it to a near-white border pixel; nothing else changes. */
  method FloodFill(pixels: array2<Pixel>)
    modifies pixels
    ensures var was, now := old(Snapshot(pixels)), Snapshot(pixels);
            && now.Keys == was.Keys
            && forall c :: c in was ==>
                 now[c] == if Reachable(old(NearWhite(pixels)), pixels.Length0, pixels.Length1, c)
                           then Cleared(was[c]) else was[c]
  {
    var w, h := pixels.Length0, pixels.Length1;
    ghost var white, was, all := NearWhite(pixels), Snapshot(pixels), Cells(w, h);
    var queue := SeedEdges(w, h);
    var visited: set<Cell> := {};
    FillStarts(white, w, h, queue);
    while queue != []
      invariant FillOk(white, w, h, visited, queue)
      invariant Painted(Snapshot(pixels), was, white, visited)
      decreases |all - visited|, |queue|
    {
      var c := queue[0];
      if c in visited || !InImage(w, h, c) {
        FillSkips(white, w, h, visited, queue);
        queue := queue[1..];
      } else {
        ghost var before := Snapshot(pixels);
        var longer := Visit(pixels, visited + {c}, queue);
        PaintOne(before, Snapshot(pixels), was, white, visited, c);
        FillVisits(white, w, h, visited, queue, longer);
        FewerLeft(all, visited, c);
        visited := visited + {c};
        queue := longer;
      }
    }
    forall c ensures c in visited && c in white <==> Reachable(white, w, h, c) {
      FillEnds(white, w, h, visited, c);
    }
  }

  // ---------------------------------------------------------------- the fade

  /** Conversion to an integer drops the fraction. */
  function Truncated(x: real): int { if x >= 0.0 then x.Floor else -(-x).Floor }

  function Least(p: Pixel): Byte {
    if p.r <= p.g && p.r <= p.b then p.r else if p.g <= p.b then p.g else p.b
  }

  function Clamped(n: int): Byte { if n < 0 then 0 else if n > 255 then 255 else n }

  /** The share of its opacity a pixel keeps, over the reals. */
  function Share(m: Byte): real { 1.0 - (m as real / 255.0 - 0.82) / 0.18 }

  function Kept(alpha: real, share: real): real { alpha * share }

  function FadedBy(alpha: real, share: real): Byte { Clamped(Truncated(Kept(alpha, share))) }

  function FadedAlpha(p: Pixel): Byte { FadedBy(p.a as real, Share(Least(p))) }

  predicate Fadeable(p: Pixel) { p.a > 0 && Brighter(p, FADE_THRESHOLD) }

  lemma ShareFalls(m: Byte, n: Byte)
    requires FADE_THRESHOLD < m <= n
    ensures 0.0 <= Share(n) <= Share(m) < 1.0
  {
    var x, y := m as real / 255.0, n as real / 255.0;
    assert 0.82 < x <= y <= 1.0;
    assert 0.0 < (x - 0.82) / 0.18 <= (y - 0.82) / 0.18 <= 1.0;
  }

  lemma KeptBelow(a: real, x: real, y: real)
    requires a > 0.0 && 0.0 <= x <= y < 1.0
    ensures 0.0 <= Kept(a, x) <= Kept(a, y) < a
  {
    assert a * (y - x) >= 0.0 && a * (1.0 - y) > 0.0;
  }

  lemma ClampedBelow(u: real, v: real, n: Byte)
    requires 0.0 <= u <= v < n as real
    ensures Clamped(Truncated(u)) <= Clamped(Truncated(v)) < n
  {
    assert u.Floor as real <= u && v.Floor as real <= v;
    assert u.Floor <= v.Floor;
  }

  lemma FadedBelow(n: Byte, x: real, y: real)
    requires n > 0 && 0.0 <= x <= y < 1.0
    ensures FadedBy(n as real, x) <= FadedBy(n as real, y) < n
  {
    KeptBelow(n as real, x, y);
    ClampedBelow(Kept(n as real, x), Kept(n as real, y), n);
  }

  /** A fade lowers the opacity strictly, and a whiter pixel of the same opacity keeps no
      more of it. */
  lemma FadeLowers(p: Pixel, q: Pixel)
    requires Fadeable(p) && Fadeable(q) && p.a == q.a && Least(p) <= Least(q)
    ensures FadedAlpha(q) <= FadedAlpha(p) < p.a
  {
    ShareFalls(Least(p), Least(q));
    FadedBelow(p.a, Share(Least(q)), Share(Least(p)));
  }

  lemma FloorOfQuotient(n: nat, d: nat)
    requires d > 0
    ensures (n as real / d as real).Floor == n / d
  {
    var q, rest := n / d, n % d;
    assert n == q * d + rest;
    assert n as real == q as real * d as real + rest as real;
    assert n as real / d as real == q as real + rest as real / d as real;
  }

  /** The share falls from 44/45.9 for a least component of 211 to nothing for 255. */
  lemma ShareIs(m: Byte)
    ensures Share(m) == (255 - m) as real * 10.0 / 459.0
  {
  }

  /** Exactly what opacity a faded pixel keeps. */
  lemma FadedAlphaIs(p: Pixel)
    requires Fadeable(p)
    ensures FadedAlpha(p) == p.a * (255 - Least(p)) * 10 / 459
  {
    var n := p.a * (255 - Least(p)) * 10;
    ShareIs(Least(p));
    KeptIs(p.a, 255 - Least(p));
    FloorOfQuotient(n, 459);
    QuotientBelow(p.a, 255 - Least(p));
  }

  lemma KeptIs(a: nat, left: nat)
    ensures Kept(a as real, left as real * 10.0 / 459.0) == (a * left * 10) as real / 459.0
  {
    assert (a * left * 10) as real == a as real * left as real * 10.0;
  }

  lemma QuotientBelow(a: nat, left: nat)
    requires a <= 255 && left < 45
    ensures 0 <= a * left * 10 / 459 <= 255
  {
    assert a * left <= 255 * 45;
  }

  ghost predicate Transparent(picture: Picture, c: Cell) { c in picture && picture[c].a == 0 }

  /** The sweep goes down each column, column by column. */
  predicate SweptBefore(d: Cell, c: Cell) { d.0 < c.0 || (d.0 == c.0 && d.1 < c.1) }

  /** Some neighbour is transparent when the sweep comes to the cell: one swept before by
      its new opacity, one swept later by its old. */
  ghost predicate AtBoundary(now: Picture, was: Picture, c: Cell) {
    exists d :: Adjacent(c, d) && if SweptBefore(d, c) then Transparent(now, d) else Transparent(was, d)
  }

  ghost predicate FadedAt(now: Picture, was: Picture, c: Cell)
    requires c in now && c in was
  {
    now[c] == if Fadeable(was[c]) && AtBoundary(now, was, c) then was[c].(a := FadedAlpha(was[c])) else was[c]
  }

  ghost predicate TransparentNeighbour(picture: Picture, c: Cell, d: Cell) {
    Adjacent(c, d) && Transparent(picture, d)
  }

  lemma SomeNeighbour(picture: Picture, c: Cell)
    ensures (exists k :: 0 <= k < |OFFSETS| && Transparent(picture, Shifted(c, OFFSETS[k])))
            <==> exists d :: TransparentNeighbour(picture, c, d)
  {
    forall k | 0 <= k < |OFFSETS| && Transparent(picture, Shifted(c, OFFSETS[k]))
      ensures TransparentNeighbour(picture, c, Shifted(c, OFFSETS[k])) {}
  }

  method CountTransparent(pixels: array2<Pixel>, c: Cell) returns (count: nat)
    ensures count > 0 <==> exists d :: TransparentNeighbour(Snapshot(pixels), c, d)
  {
    count := 0;
    ghost var picture := Snapshot(pixels);
    for k := 0 to |OFFSETS|
      invariant count > 0 <==> exists j :: 0 <= j < k && Transparent(picture, Shifted(c, OFFSETS[j]))
    {
      var n := Shifted(c, OFFSETS[k]);
      if InImage(pixels.Length0, pixels.Length1, n) && pixels[n.0, n.1].a == 0 {
        count := count + 1;
      }
    }
    SomeNeighbour(picture, c);
  }

  /** Cells swept before `c` have their final pixel, the others their old one. */
  ghost predicate SweptUpTo(now: Picture, was: Picture, c: Cell) {
    && now.Keys == was.Keys
    && forall d :: d in was ==> if SweptBefore(d, c) then FadedAt(now, was, d) else now[d] == was[d]
  }

  lemma BoundaryNow(now: Picture, was: Picture, c: Cell)
    requires SweptUpTo(now, was, c)
    ensures (exists d :: TransparentNeighbour(now, c, d)) <==> AtBoundary(now, was, c)
  {
    forall d ensures TransparentNeighbour(now, c, d) <==>
                     Adjacent(c, d) && if SweptBefore(d, c) then Transparent(now, d) else Transparent(was, d) {}
  }

  /** Changing the cell the sweep is at does not move any boundary before it. */
  lemma BoundaryStays(now: Picture, after: Picture, was: Picture, c: Cell, d: Cell)
    requires now.Keys == after.Keys && forall e :: e in now && e != c ==> after[e] == now[e]
    requires d == c || SweptBefore(d, c)
    ensures AtBoundary(now, was, d) <==> AtBoundary(after, was, d)
  {
    forall e | SweptBefore(e, d) ensures Transparent(now, e) <==> Transparent(after, e) {}
  }

  lemma SweepOne(now: Picture, after: Picture, was: Picture, c: Cell)
    requires c in was && SweptUpTo(now, was, c)
    requires after == if Fadeable(now[c]) && exists d :: TransparentNeighbour(now, c, d)
                      then now[c := now[c].(a := FadedAlpha(now[c]))] else now
    ensures SweptUpTo(after, was, (c.0, c.1 + 1))
  {
    BoundaryNow(now, was, c);
    BoundaryStays(now, after, was, c, c);
    forall d | d in was
      ensures if SweptBefore(d, (c.0, c.1 + 1)) then FadedAt(after, was, d) else after[d] == was[d]
    {
      if d != c && SweptBefore(d, c) {
        BoundaryStays(now, after, was, c, d);
        assert FadedAt(now, was, d);
      } else if d.0 == c.0 && d.1 == c.1 {
        assert d == c;
      }
    }
  }

  method FadeOne(pixels: array2<Pixel>, c: Cell)
    requires InImage(pixels.Length0, pixels.Length1, c)
    modifies pixels
    ensures var now := old(Snapshot(pixels));
            Snapshot(pixels) == if Fadeable(now[c]) && exists d :: TransparentNeighbour(now, c, d)
                                then now[c := now[c].(a := FadedAlpha(now[c]))] else now
  {
    var p := pixels[c.0, c.1];
    if Fadeable(p) {
      var count := CountTransparent(pixels, c);
      if count > 0 {
        pixels[c.0, c.1] := p.(a := FadedAlpha(p));
      }
    }
  }

  lemma NextColumn(now: Picture, was: Picture, w: nat, h: nat, x: nat)
    requires forall c :: c in was ==> InImage(w, h, c)
    requires SweptUpTo(now, was, (x, h))
    ensures SweptUpTo(now, was, (x + 1, 0))
  {
  }

  /** The fade: every pixel ends as the sweep's order demands. */
  method FadeEdges(pixels: array2<Pixel>)
    modifies pixels
    ensures var was, now := old(Snapshot(pixels)), Snapshot(pixels);
            now.Keys == was.Keys && forall c :: c in was ==> FadedAt(now, was, c)
  {
    var w, h := pixels.Length0, pixels.Length1;
    ghost var was := Snapshot(pixels);
    for x := 0 to w
      invariant SweptUpTo(Snapshot(pixels), was, (x, 0))
    {
      for y := 0 to h
        invariant SweptUpTo(Snapshot(pixels), was, (x, y))
      {
        ghost var now := Snapshot(pixels);
        FadeOne(pixels, (x, y));
        SweepOne(now, Snapshot(pixels), was, (x, y));
      }
      NextColumn(Snapshot(pixels), was, w, h, x);
    }
    forall c | c in was ensures SweptBefore(c, (w, 0)) {}
  }

  /** What a fade can do to a picture: colours stay, opacity never rises, and a pixel that
      changed has a neighbour that ends transparent. */
  lemma FadeKeepsPicture(now: Picture, was: Picture, c: Cell)
    requires now.Keys == was.Keys && (forall d :: d in was ==> FadedAt(now, was, d)) && c in was
    ensures now[c].r == was[c].r && now[c].g == was[c].g && now[c].b == was[c].b && now[c].a <= was[c].a
    ensures now[c] != was[c] ==>
              Fadeable(was[c]) && now[c].a < was[c].a && exists d :: TransparentNeighbour(now, c, d)
  {
    assert FadedAt(now, was, c);
    if now[c] != was[c] {
      FadeLowers(was[c], was[c]);
      var d :| Adjacent(c, d) && if SweptBefore(d, c) then Transparent(now, d) else Transparent(was, d);
      if !SweptBefore(d, c) {
        assert FadedAt(now, was, d);
        assert Transparent(now, d);
      }
      assert TransparentNeighbour(now, c, d);
    }
  }
}
