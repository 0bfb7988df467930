/**
 The sampling lattice of `renderCombined`: `step = max(1, floor(asciiDensity))`
 and the two loops `for (y = 0; y < h; y += step) for (x = 0; x < w; x += step)`.
 */
module Grid {
  import opened Pixels
  import opened Settings

  /** `Math.max(1, Math.floor(asciiDensity))`. */
  function Step(density: real): (step: nat)
    ensures step >= 1
    ensures density >= 1.0 ==> step as real <= density < step as real + 1.0
    ensures density < 2.0 ==> step == 1
  {
    var f := density.Floor;
    if f < 1 then 1 else f
  }

  /** The default density of 8 pixels gives a grid step of 8. */
  lemma DefaultStep()
    ensures Step(DefaultSettings.asciiDensity) == 8
  {
  }

  /** The values one loop variable takes: start, start + step, ... while
      below n. */
  function AxisFrom(start: nat, n: nat, step: nat): (vs: seq<nat>)
    requires step >= 1
    ensures forall i :: 0 <= i < |vs| ==> start <= vs[i] < n
    decreases n - start
  {
    if start >= n then [] else [start] + AxisFrom(start + step, n, step)
  }

  /** The loop variable only grows. */
  lemma {:induction false} AxisFromIncreasing(start: nat, n: nat, step: nat)
    requires step >= 1
    ensures StrictlyIncreasing(AxisFrom(start, n, step))
    decreases n - start
  {
    if start < n {
      AxisFromIncreasing(start + step, n, step);
      var vs := AxisFrom(start, n, step);
      var rest := AxisFrom(start + step, n, step);
      assert vs == [start] + rest;
      forall i, j | 0 <= i < j < |vs|
        ensures vs[i] < vs[j]
      {
        if i == 0 {
          assert vs[j] == rest[j - 1];
        } else {
          assert vs[i] == rest[i - 1] && vs[j] == rest[j - 1];
        }
      }
    }
  }

  /** One iteration of a stride loop: the first value, then the rest. */
  lemma AxisFromUnfold(start: nat, n: nat, step: nat, done: seq<nat>)
    requires step >= 1 && start < n
    ensures done + AxisFrom(start, n, step) == (done + [start]) + AxisFrom(start + step, n, step)
  {
  }

  function Axis(n: nat, step: nat): seq<nat>
    requires step >= 1
  {
    AxisFrom(0, n, step)
  }

  /** `ceil(n / step)` for natural numbers. */
  function CeilDiv(n: nat, step: nat): nat
    requires step >= 1
  {
    (n + step - 1) / step
  }

  /** A loop of stride step over [start, n) runs ceil((n - start) / step)
      times. */
  lemma {:induction false} AxisFromLength(start: nat, n: nat, step: nat)
    requires step >= 1
    ensures |AxisFrom(start, n, step)| == if start >= n then 0 else CeilDiv(n - start, step)
    decreases n - start
  {
    if start < n {
      var m := n - start;
      AxisFromLength(start + step, n, step);
      // (m + step - 1) / step == 1 + (m - 1) / step
      DivModUnique(m + step - 1, step, 1 + (m - 1) / step, (m - 1) % step);
      if start + step < n {
        assert CeilDiv(n - (start + step), step) == (m - 1) / step;
      } else {
        DivModUnique(m - 1, step, 0, m - 1);
      }
    }
  }

  /** The loop visits exactly the values in [start, n) that are a whole
      number of strides from start. */
  lemma {:induction false} AxisFromMembers(start: nat, n: nat, step: nat, v: nat)
    requires step >= 1
    ensures v in AxisFrom(start, n, step) <==> start <= v < n && (v - start) % step == 0
    decreases n - start
  {
    if start < n {
      var rest := AxisFrom(start + step, n, step);
      assert AxisFrom(start, n, step) == [start] + rest;
      AxisFromMembers(start + step, n, step, v);
      if v >= start + step {
        ModMinusStep(v - start, step);
      } else if v >= start {
        ModBelowStep(v - start, step);
        assert v !in rest;
      } else {
        assert v !in rest;
      }
    }
  }

  lemma ModMinusStep(a: nat, step: nat)
    requires 1 <= step <= a
    ensures a % step == (a - step) % step
  {
    DivModUnique(a, step, 1 + (a - step) / step, (a - step) % step);
  }

  lemma ModBelowStep(a: nat, step: nat)
    requires a < step
    ensures a % step == a
  {
    DivModUnique(a, step, 0, a);
  }

  /** The sampled columns (or rows) of an axis of length n: the multiples of
      step below n, ceil(n / step) of them. */
  lemma AxisShape(n: nat, step: nat, v: nat)
    requires step >= 1
    ensures |Axis(n, step)| == CeilDiv(n, step)
    ensures v in Axis(n, step) <==> v < n && v % step == 0
  {
    AxisFromLength(0, n, step);
    AxisFromMembers(0, n, step, v);
    if n == 0 {
      DivModUnique(step - 1, step, 0, step - 1);
    }
  }

  /** One row of cells, left to right. */
  function Row(xs: seq<nat>, y: nat): (cells: seq<(nat, nat)>)
    ensures |cells| == |xs|
    ensures forall i :: 0 <= i < |xs| ==> cells[i] == (xs[i], y)
  {
    seq(|xs|, i requires 0 <= i < |xs| => (xs[i], y))
  }

  /** Rows ys, each swept left to right over xs, top row first. */
  function Rows(ys: seq<nat>, xs: seq<nat>): (cells: seq<(nat, nat)>)
    ensures forall i :: 0 <= i < |cells| ==> cells[i].0 in xs && cells[i].1 in ys
  {
    if |ys| == 0 then [] else Row(xs, ys[0]) + Rows(ys[1..], xs)
  }

  /** The cells of a w x h image visited by the two loops, in visiting order. */
  function GridCells(w: nat, h: nat, step: nat): seq<(nat, nat)>
    requires step >= 1
  {
    Rows(Axis(h, step), Axis(w, step))
  }

  /** An image with no columns or no rows has no lattice cells. */
  lemma GridCellsEmpty(w: nat, h: nat, step: nat)
    requires step >= 1 && (w == 0 || h == 0)
    ensures GridCells(w, h, step) == []
  {
    RowsLength(Axis(h, step), Axis(w, step));
  }

  lemma RowSnoc(xs: seq<nat>, x: nat, y: nat)
    ensures Row(xs + [x], y) == Row(xs, y) + [(x, y)]
  {
    var a, b := Row(xs + [x], y), Row(xs, y) + [(x, y)];
    assert |a| == |b|;
    forall i | 0 <= i < |a|
      ensures a[i] == b[i]
    {
      if i < |xs| {
        assert (xs + [x])[i] == xs[i];
      }
    }
  }

  lemma {:induction false} RowsSnoc(ys: seq<nat>, y: nat, xs: seq<nat>)
    ensures Rows(ys + [y], xs) == Rows(ys, xs) + Row(xs, y)
    decreases |ys|
  {
    if |ys| == 0 {
      assert Rows([y], xs) == Row(xs, y) + Rows([], xs);
    } else {
      assert (ys + [y])[1..] == ys[1..] + [y];
      RowsSnoc(ys[1..], y, xs);
    }
  }

  lemma {:induction false} RowsLength(ys: seq<nat>, xs: seq<nat>)
    ensures |Rows(ys, xs)| == |ys| * |xs|
    decreases |ys|
  {
    if |ys| > 0 {
      RowsLength(ys[1..], xs);
    }
  }

  lemma {:induction false} RowsMembers(ys: seq<nat>, xs: seq<nat>, p: (nat, nat))
    ensures p in Rows(ys, xs) <==> p.0 in xs && p.1 in ys
    decreases |ys|
  {
    if |ys| > 0 {
      RowsMembers(ys[1..], xs, p);
      assert ys == [ys[0]] + ys[1..];
      if p.0 in xs && p.1 == ys[0] {
        var i :| 0 <= i < |xs| && xs[i] == p.0;
        assert Row(xs, ys[0])[i] == p;
      }
    }
  }

  /** p comes strictly before q in row-major order. */
  predicate RowMajorBefore(p: (nat, nat), q: (nat, nat))
  {
    p.1 < q.1 || (p.1 == q.1 && p.0 < q.0)
  }

  predicate StrictlyIncreasing(vs: seq<nat>)
  {
    forall i, j :: 0 <= i < j < |vs| ==> vs[i] < vs[j]
  }

  lemma {:induction false} RowsOrdered(ys: seq<nat>, xs: seq<nat>)
    requires StrictlyIncreasing(ys) && StrictlyIncreasing(xs)
    ensures forall i, j :: 0 <= i < j < |Rows(ys, xs)| ==>
              RowMajorBefore(Rows(ys, xs)[i], Rows(ys, xs)[j])
    decreases |ys|
  {
    if |ys| > 0 {
      var rest := Rows(ys[1..], xs);
      var row := Row(xs, ys[0]);
      RowsOrdered(ys[1..], xs);
      forall q | q in rest
        ensures ys[0] < q.1
      {
        RowsMembers(ys[1..], xs, q);
        var k :| 0 <= k < |ys[1..]| && ys[1..][k] == q.1;
        assert ys[k + 1] == q.1;
      }
      var all := row + rest;
      assert Rows(ys, xs) == all;
      forall i, j | 0 <= i < j < |all|
        ensures RowMajorBefore(all[i], all[j])
      {
        if j < |row| {
        } else if i < |row| {
          assert all[j] == rest[j - |row|];
          assert all[j] in rest;
        } else {
          assert all[i] == rest[i - |row|] && all[j] == rest[j - |row|];
        }
      }
    }
  }

  /** The lattice the loops visit: ceil(w / step) * ceil(h / step) cells,
      exactly the cells of the image whose coordinates are both multiples
      of step, each once, in row-major order. */
  lemma GridCellsShape(w: nat, h: nat, step: nat, p: (nat, nat))
    requires step >= 1
    ensures |GridCells(w, h, step)| == CeilDiv(w, step) * CeilDiv(h, step)
    ensures p in GridCells(w, h, step) <==>
              p.0 < w && p.1 < h && p.0 % step == 0 && p.1 % step == 0
    ensures forall i, j :: 0 <= i < j < |GridCells(w, h, step)| ==>
              RowMajorBefore(GridCells(w, h, step)[i], GridCells(w, h, step)[j])
  {
    AxisShape(w, step, p.0);
    AxisShape(h, step, p.1);
    RowsLength(Axis(h, step), Axis(w, step));
    RowsMembers(Axis(h, step), Axis(w, step), p);
    AxisFromIncreasing(0, w, step);
    AxisFromIncreasing(0, h, step);
    RowsOrdered(Axis(h, step), Axis(w, step));
  }
}
