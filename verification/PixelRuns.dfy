/** Merging the cells of a sprite into horizontal runs (apps/web/components/pixel-art.tsx). */
module PixelRuns {
  import opened Basics

  datatype Run = Run(x: nat, y: nat, w: nat, c: string)

  type Colouring = char -> Option<string>

  /** A cell is transparent when it has no colour or the empty one. */
  function Cell(rows: seq<string>, colorOf: Colouring, y: nat, x: nat): Option<string>
    requires y < |rows| && x < |rows[y]|
  {
    if colorOf(rows[y][x]) == Some("") then None else colorOf(rows[y][x])
  }

  predicate InGrid(rows: seq<string>, y: nat, x: nat) {
    y < |rows| && x < |rows[y]|
  }

  predicate Covers(r: Run, y: nat, x: nat) {
    r.y == y && r.x <= x < r.x + r.w
  }

  /** A non-empty stretch of one row, all of the run's colour. */
  ghost predicate Sound(rows: seq<string>, colorOf: Colouring, r: Run) {
    && r.w > 0 && r.y < |rows| && r.x + r.w <= |rows[r.y]|
    && forall x: nat :: r.x <= x < r.x + r.w ==> Cell(rows, colorOf, r.y, x) == Some(r.c)
  }

  /** Rectangles one row high and of one colour that together show every coloured cell. */
  ghost predicate IsCover(rows: seq<string>, colorOf: Colouring, rs: seq<Run>) {
    && (forall i :: 0 <= i < |rs| ==> Sound(rows, colorOf, rs[i]))
    && (forall y: nat, x: nat :: InGrid(rows, y, x) && Cell(rows, colorOf, y, x).Some? ==> Shown(rs, y, x))
  }

  ghost predicate Shown(rs: seq<Run>, y: nat, x: nat) {
    exists i :: 0 <= i < |rs| && Covers(rs[i], y, x)
  }

  /** What is seen at a cell once the runs are painted in order, later ones on top. */
  function Painted(rs: seq<Run>, y: nat, x: nat): Option<string> {
    if rs == [] then None
    else
      var last := rs[|rs| - 1];
      if Covers(last, y, x) then Some(last.c) else Painted(rs[..|rs| - 1], y, x)
  }

  /** Reading order, without overlap. */
  predicate Before(r: Run, s: Run) {
    r.y < s.y || (r.y == s.y && r.x + r.w <= s.x)
  }

  /** The run could not start further left. */
  ghost predicate Maximal(rows: seq<string>, colorOf: Colouring, r: Run)
    requires r.y < |rows| && r.x < |rows[r.y]|
  {
    r.x == 0 || Cell(rows, colorOf, r.y, r.x - 1) != Some(r.c)
  }

  /** The state of the scan: `out` is right for everything before position (y, x). */
  ghost predicate Scanned(rows: seq<string>, colorOf: Colouring, out: seq<Run>, y: nat, x: nat) {
    && (forall i :: 0 <= i < |out| ==> Sound(rows, colorOf, out[i]) && Maximal(rows, colorOf, out[i]) && Passed(out[i], y, x))
    && (forall i, j :: 0 <= i < j < |out| ==> Before(out[i], out[j]))
    && (forall y': nat, x': nat :: InGrid(rows, y', x') && (y' < y || (y' == y && x' < x)) && Cell(rows, colorOf, y', x').Some?
          ==> Shown(out, y', x'))
  }

  predicate Passed(r: Run, y: nat, x: nat) {
    r.y < y || (r.y == y && r.x + r.w <= x)
  }

  lemma ShownMore(out: seq<Run>, r: Run, y: nat, x: nat)
    ensures Shown(out, y, x) ==> Shown(out + [r], y, x)
    ensures Covers(r, y, x) ==> Shown(out + [r], y, x)
  {
    if Shown(out, y, x) {
      var i :| 0 <= i < |out| && Covers(out[i], y, x);
      assert (out + [r])[i] == out[i];
    }
    assert (out + [r])[|out|] == r;
  }

  lemma ScannedPush(rows: seq<string>, colorOf: Colouring, out: seq<Run>, r: Run)
    requires Scanned(rows, colorOf, out, r.y, r.x)
    requires Sound(rows, colorOf, r) && Maximal(rows, colorOf, r)
    ensures Scanned(rows, colorOf, out + [r], r.y, r.x + r.w)
  {
    forall y': nat, x': nat | InGrid(rows, y', x') && (y' < r.y || (y' == r.y && x' < r.x + r.w)) && Cell(rows, colorOf, y', x').Some?
      ensures Shown(out + [r], y', x')
    {
      ShownMore(out, r, y', x');
    }
  }

  // ---- Lossless and minimal ----

  lemma {:induction false} PaintedColour(rows: seq<string>, colorOf: Colouring, rs: seq<Run>, y: nat, x: nat)
    requires InGrid(rows, y, x) && forall i :: 0 <= i < |rs| ==> Sound(rows, colorOf, rs[i])
    ensures Painted(rs, y, x) == if Shown(rs, y, x) then Cell(rows, colorOf, y, x) else None
  {
    if rs != [] {
      var n := |rs| - 1;
      PaintedColour(rows, colorOf, rs[..n], y, x);
      assert rs == rs[..n] + [rs[n]];
      ShownMore(rs[..n], rs[n], y, x);
      if Shown(rs, y, x) && !Covers(rs[n], y, x) {
        var i :| 0 <= i < |rs| && Covers(rs[i], y, x);
        assert rs[..n][i] == rs[i];
      }
    }
  }

  /** Painting any cover shows every cell exactly as the grid does, transparent cells included. */
  lemma CoverIsLossless(rows: seq<string>, colorOf: Colouring, rs: seq<Run>)
    requires IsCover(rows, colorOf, rs)
    ensures forall y: nat, x: nat :: InGrid(rows, y, x) ==> Painted(rs, y, x) == Cell(rows, colorOf, y, x)
  {
    forall y: nat, x: nat | InGrid(rows, y, x)
      ensures Painted(rs, y, x) == Cell(rows, colorOf, y, x)
    {
      PaintedColour(rows, colorOf, rs, y, x);
      if Shown(rs, y, x) {
        var i :| 0 <= i < |rs| && Covers(rs[i], y, x);
        assert Sound(rows, colorOf, rs[i]);
      }
    }
  }

  /** One rectangle never holds the first cells of two different maximal runs. */
  lemma TileHoldsOneStart(rows: seq<string>, colorOf: Colouring, r: Run, s: Run, tile: Run)
    requires Sound(rows, colorOf, r) && Sound(rows, colorOf, s) && Sound(rows, colorOf, tile)
    requires Maximal(rows, colorOf, s) && Before(r, s)
    ensures !(Covers(tile, r.y, r.x) && Covers(tile, s.y, s.x))
  {
    var first := Cell(rows, colorOf, s.y, s.x);
    var left := if s.x == 0 then None else Cell(rows, colorOf, s.y, s.x - 1);
    assert first == Some(s.c) && left != Some(s.c);
  }

  /** The tiles that hold the first cells of the first `n` runs: one each. */
  lemma {:induction false} StartsNeedTiles(rows: seq<string>, colorOf: Colouring, out: seq<Run>, tiles: seq<Run>, n: nat)
    returns (used: set<nat>)
    requires IsCover(rows, colorOf, out) && IsCover(rows, colorOf, tiles) && n <= |out|
    requires forall i, j :: 0 <= i < j < |out| ==> Before(out[i], out[j])
    requires forall i :: 0 <= i < |out| ==> Maximal(rows, colorOf, out[i])
    ensures |used| == n
    ensures forall t :: t in used ==> t < |tiles| && exists i :: 0 <= i < n && Covers(tiles[t], out[i].y, out[i].x)
  {
    if n == 0 {
      used := {};
    } else {
      used := StartsNeedTiles(rows, colorOf, out, tiles, n - 1);
      var s := out[n - 1];
      assert InGrid(rows, s.y, s.x) && Cell(rows, colorOf, s.y, s.x) == Some(s.c);
      assert Shown(tiles, s.y, s.x);
      var t: nat :| t < |tiles| && Covers(tiles[t], s.y, s.x);
      forall i | 0 <= i < n - 1
        ensures !Covers(tiles[t], out[i].y, out[i].x)
      {
        TileHoldsOneStart(rows, colorOf, out[i], s, tiles[t]);
      }
      used := used + {t};
    }
  }

  lemma {:induction false} IndicesBounded(used: set<nat>, n: nat)
    requires forall t :: t in used ==> t < n
    ensures |used| <= n
  {
    if n > 0 {
      IndicesBounded(used - {n - 1}, n - 1);
      assert |used - {n - 1}| >= |used| - 1;
    } else {
      assert used == {};
    }
  }

  /** No set of single-row one-colour rectangles shows the sprite with fewer pieces than the maximal runs. */
  lemma RunsAreMinimal(rows: seq<string>, colorOf: Colouring, out: seq<Run>, tiles: seq<Run>)
    requires IsCover(rows, colorOf, out) && IsCover(rows, colorOf, tiles)
    requires forall i, j :: 0 <= i < j < |out| ==> Before(out[i], out[j])
    requires forall i :: 0 <= i < |out| ==> Maximal(rows, colorOf, out[i])
    ensures |out| <= |tiles|
  {
    var used := StartsNeedTiles(rows, colorOf, out, tiles, |out|);
    IndicesBounded(used, |tiles|);
  }

  /** The merge: non-overlapping runs in reading order, lossless, and as few as any cover needs. */
  method Runs(rows: seq<string>, colorOf: Colouring) returns (out: seq<Run>)
    ensures IsCover(rows, colorOf, out)
    ensures forall i, j :: 0 <= i < j < |out| ==> Before(out[i], out[j])
    ensures forall y: nat, x: nat :: InGrid(rows, y, x) ==> Painted(out, y, x) == Cell(rows, colorOf, y, x)
    ensures forall tiles :: IsCover(rows, colorOf, tiles) ==> |out| <= |tiles|
  {
    out := [];
    for y := 0 to |rows|
      invariant Scanned(rows, colorOf, out, y, 0)
    {
      var row := rows[y];
      var x := 0;
      while x < |row|
        invariant x <= |row|
        invariant Scanned(rows, colorOf, out, y, x)
        invariant 0 < x < |row| && Cell(rows, colorOf, y, x).Some? ==> Cell(rows, colorOf, y, x - 1) != Cell(rows, colorOf, y, x)
        decreases |row| - x
      {
        var c := colorOf(row[x]);
        if c == None || c == Some("") {
          x := x + 1;
          continue;
        }
        var w := 1;
        while x + w < |row| && colorOf(row[x + w]) == c
          invariant 1 <= w && x + w <= |row|
          invariant forall k: nat :: x <= k < x + w ==> Cell(rows, colorOf, y, k) == c
          decreases |row| - w
        {
          w := w + 1;
        }
        var r := Run(x, y, w, c.value);
        ScannedPush(rows, colorOf, out, r);
        out := out + [r];
        x := x + w;
      }
    }
    CoverIsLossless(rows, colorOf, out);
    forall tiles | IsCover(rows, colorOf, tiles)
      ensures |out| <= |tiles|
    {
      RunsAreMinimal(rows, colorOf, out, tiles);
    }
  }
}
