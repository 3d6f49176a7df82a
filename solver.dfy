/** The explicit finite-difference solver of the 1-D heat equation du/dt = alpha * d2u/dx2 on
    [0, L] with both ends held at 0. Floating point is modelled by reals, so the simulated time
    after n steps is exactly n * dt. */
module Solver {
  import opened Wrappers
  import Json
  import Reductions

  /** Grid spacing, time step and step count fixed by the constructor. */
  datatype Setup = Setup(dx: real, dt: real, nt: int)

  /** One entry of the history: a time and a copy of the profile at that time. */
  datatype Snapshot = Snapshot(time: real, field: seq<real>)

  /** The largest stable time step, `0.5 * dx**2 / alpha`. */
  function Limit(dx: real, alpha: real): real
    requires alpha != 0.0
  {
    0.5 * dx * dx / alpha
  }

  /** The Fourier number `r = alpha * dt / dx**2` of a step. */
  function Ratio(alpha: real, dt: real, dx: real): real
    requires dx != 0.0
  {
    alpha * dt / (dx * dx)
  }

  /** The constructor's arithmetic, in its order: `dx = L / (nx - 1)`, the stability limit,
      the default or the checked explicit `dt`, `nt = int(t_max / dt)` and `np.linspace`, each
      with the exception it can raise. */
  function Configure(L: real, nx: int, alpha: real, tMax: real, dt: Option<real>): (r: Result<Setup, Exception>)
    ensures r.Success? ==> nx >= 0 && nx != 1 && alpha != 0.0 && r.value.dt != 0.0
    ensures r.Success? ==> r.value.dx * (nx - 1) as real == L
    ensures r.Success? && dt.Some? ==> r.value.dt == dt.value <= Limit(r.value.dx, alpha)
    ensures r.Success? && dt.None? ==> r.value.dt == 0.9 * Limit(r.value.dx, alpha)
    ensures r.Success? ==> r.value.nt == Json.Trunc(tMax / r.value.dt)
    ensures r.Failure? && r.error.StabilityCheckFailed? <==>
      nx != 1 && alpha != 0.0 && dt.Some? && dt.value > Limit(L / (nx - 1) as real, alpha)
  {
    if nx - 1 == 0 then Failure(ZeroDivisionError)
    else
      var dx := L / (nx - 1) as real;
      if alpha == 0.0 then Failure(ZeroDivisionError)
      else
        var limit := Limit(dx, alpha);
        if dt.Some? && dt.value > limit then Failure(StabilityCheckFailed(dt.value, limit))
        else
          var step := if dt.None? then 0.9 * limit else dt.value;
          if step == 0.0 then Failure(ZeroDivisionError)
          else if nx < 0 then Failure(ValueError)
          else Success(Setup(dx, step, Json.Trunc(tMax / step)))
  }

  /** `np.linspace(0, L, nx)` for `nx >= 2`, and the empty grid for `nx == 0`. */
  function Linspace(L: real, nx: nat): (x: seq<real>)
    requires nx != 1
    ensures |x| == nx
    ensures nx >= 2 ==> x[0] == 0.0 && x[nx - 1] == L
  {
    var x := seq(nx, i requires 0 <= i < nx => i as real * L / (nx - 1) as real);
    if nx >= 2 then
      ScaleBack(L, (nx - 1) as real);
      x
    else x
  }

  lemma ScaleBack(L: real, d: real)
    requires d != 0.0
    ensures d * L / d == L
  {
  }

  /** One time step: every interior point moves by `r` times its discrete second difference,
      and both ends are set to 0. */
  function Step(u: seq<real>, r: real): (v: seq<real>)
    ensures |v| == |u|
  {
    seq(|u|, i requires 0 <= i < |u| =>
      if i == 0 || i == |u| - 1 then 0.0 else u[i] + r * (u[i + 1] - 2.0 * u[i] + u[i - 1]))
  }

  /** The profile after `n` steps. */
  function Evolve(u: seq<real>, r: real, n: nat): (v: seq<real>)
    ensures |v| == |u|
  {
    if n == 0 then u else Step(Evolve(u, r, n - 1), r)
  }

  /** Step `n` is saved when it is a multiple of the save interval or the last one. */
  predicate Saved(n: int, nt: int, k: int)
    requires k != 0
  {
    n % k == 0 || n == nt
  }

  /** The snapshots saved during steps 1..n. */
  function Snaps(u: seq<real>, r: real, dt: real, nt: int, k: int, n: nat): seq<Snapshot>
    requires k != 0
  {
    if n == 0 then []
    else
      var saved := if Saved(n, nt, k) then [Snapshot(n as real * dt, Evolve(u, r, n))] else [];
      Snaps(u, r, dt, nt, k, n - 1) + saved
  }

  lemma SnapsUnfold(u: seq<real>, r: real, dt: real, nt: int, k: int, n: nat)
    requires k != 0 && n >= 1
    ensures Snaps(u, r, dt, nt, k, n) == Snaps(u, r, dt, nt, k, n - 1) +
      (if n % k == 0 || n == nt then [Snapshot(n as real * dt, Evolve(u, r, n))] else [])
  {
  }

  /** One pass of `solve`'s loop: the clock advances by `dt`, the profile by one step, and
      the history gains the entry for step `n` exactly when that step is saved. */
  lemma SolveStep(u: seq<real>, r: real, dt: real, nt: int, k: int, n: nat, history: seq<Snapshot>, t: real)
    requires k != 0 && n >= 1
    requires history == [Snapshot(0.0, u)] + Snaps(u, r, dt, nt, k, n - 1)
    requires t == (n - 1) as real * dt
    ensures t + dt == n as real * dt
    ensures Step(Evolve(u, r, n - 1), r) == Evolve(u, r, n)
    ensures history + (if n % k == 0 || n == nt then [Snapshot(t + dt, Evolve(u, r, n))] else []) ==
      [Snapshot(0.0, u)] + Snaps(u, r, dt, nt, k, n)
  {
    SnapsUnfold(u, r, dt, nt, k, n);
  }

  function History(u: seq<real>, r: real, dt: real, nt: int, k: int): seq<Snapshot>
    requires k != 0
  {
    [Snapshot(0.0, u)] + Snaps(u, r, dt, nt, k, if nt < 0 then 0 else nt)
  }

  /** What `solve(save_interval)` returns or raises, for the profile `u` and the setup: the
      ratio divides by `dx**2`, the first step writes `u_new[0]`, and the save test takes
      `n % save_interval`. */
  function SolveSpec(u: seq<real>, alpha: real, s: Setup, k: int): Result<seq<Snapshot>, Exception> {
    if s.dx == 0.0 then Failure(ZeroDivisionError)
    else Stepped(u, Ratio(alpha, s.dt, s.dx), s.dt, s.nt, k)
  }

  /** The stepping loop of `solve` with ratio `r`: a first step on an empty profile raises
      IndexError, a first save test with interval 0 raises ZeroDivisionError, and otherwise
      the loop yields the history. */
  function Stepped(u: seq<real>, r: real, dt: real, nt: int, k: int): Result<seq<Snapshot>, Exception> {
    if nt >= 1 && |u| == 0 then Failure(IndexError)
    else if nt >= 1 && k == 0 then Failure(ZeroDivisionError)
    else if k == 0 then Success([Snapshot(0.0, u)])
    else Success(History(u, r, dt, nt, k))
  }

  // ---------------------------------------------------------------------------
  // The stability gate and the step count

  /** An explicit `dt` exactly at the limit passes the gate: the comparison is strict. */
  lemma DtAtLimitAccepted(L: real, nx: int, alpha: real, tMax: real)
    requires nx >= 2 && alpha != 0.0 && L != 0.0
    ensures var c := Configure(L, nx, alpha, tMax, Some(Limit(L / (nx - 1) as real, alpha)));
      c.Success? && c.value.dt == Limit(c.value.dx, alpha)
  {
    var dx := L / (nx - 1) as real;
    assert dx != 0.0;
    assert dx * dx > 0.0;
  }

  /** With `alpha > 0`, an accepted step has ratio at most 0.5, and a positive step a
      positive ratio. */
  lemma AcceptedRatio(L: real, nx: int, alpha: real, tMax: real, dt: Option<real>)
    requires alpha > 0.0 && L != 0.0
    requires Configure(L, nx, alpha, tMax, dt).Success?
    ensures var s := Configure(L, nx, alpha, tMax, dt).value;
      s.dx != 0.0 && Ratio(alpha, s.dt, s.dx) <= 0.5 &&
      (s.dt > 0.0 ==> Ratio(alpha, s.dt, s.dx) > 0.0)
  {
    var s := Configure(L, nx, alpha, tMax, dt).value;
    assert s.dx != 0.0;
    assert s.dt <= Limit(s.dx, alpha);
    StableRatio(s.dx, alpha, s.dt);
  }

  /** A step at most the limit has ratio at most 0.5. */
  lemma StableRatio(dx: real, alpha: real, step: real)
    requires dx != 0.0 && alpha > 0.0 && step <= Limit(dx, alpha)
    ensures Ratio(alpha, step, dx) <= 0.5
    ensures step > 0.0 ==> Ratio(alpha, step, dx) > 0.0
  {
    var lim := Limit(dx, alpha);
    var d2 := dx * dx;
    LimitScaled(dx, alpha);
    SquarePositive(dx, d2);
    assert alpha * lim == 0.5 * d2;
    ScaleLe(alpha, step, lim);
    assert alpha * step <= 0.5 * d2;
    PositiveProduct(alpha, step);
    RatioBound(alpha * step, d2);
  }

  lemma LimitScaled(dx: real, alpha: real)
    requires alpha != 0.0
    ensures alpha * Limit(dx, alpha) == 0.5 * (dx * dx)
  {
  }

  /** A square of a non-zero number is positive; the square is passed in as `sq` so that
      callers can name it. */
  lemma SquarePositive(x: real, sq: real)
    requires x != 0.0 && sq == x * x
    ensures sq > 0.0
  {
    if x > 0.0 {
      ProductPositive(x, x, sq);
    } else {
      ProductPositive(-x, -x, sq);
    }
  }

  lemma ProductPositive(a: real, b: real, p: real)
    requires a > 0.0 && b > 0.0 && p == a * b
    ensures p > 0.0
  {
  }

  lemma ScaleLe(c: real, a: real, b: real)
    requires c > 0.0 && a <= b
    ensures c * a <= c * b
  {
    assert c * b - c * a == c * (b - a);
  }

  lemma PositiveProduct(a: real, b: real)
    ensures a > 0.0 && b > 0.0 ==> a * b > 0.0
  {
  }

  lemma RatioBound(a: real, d2: real)
    requires d2 > 0.0 && a <= 0.5 * d2
    ensures a / d2 <= 0.5 && (a > 0.0 ==> a / d2 > 0.0)
  {
    var q := a / d2;
    assert a == q * d2;
  }

  /** Without an explicit `dt` the step is 90% of the limit, so the ratio is 0.45. */
  lemma DefaultRatio(L: real, nx: int, alpha: real, tMax: real)
    requires L != 0.0
    requires Configure(L, nx, alpha, tMax, None).Success?
    ensures var s := Configure(L, nx, alpha, tMax, None).value;
      s.dx != 0.0 && Ratio(alpha, s.dt, s.dx) == 0.45
  {
    var s := Configure(L, nx, alpha, tMax, None).value;
    assert s.dx != 0.0;
    var d2 := s.dx * s.dx;
    SquarePositive(s.dx, d2);
    assert alpha * Limit(s.dx, alpha) == 0.5 * d2;
    assert alpha * s.dt == 0.45 * d2;
    Cancel(Ratio(alpha, s.dt, s.dx), 0.45, d2);
  }

  lemma Cancel(q: real, c: real, d: real)
    requires d != 0.0 && (q == (c * d) / d || q * d == c * d)
    ensures q == c
  {
  }

  /** `nt = int(t_max / dt)`: for a positive step and a non-negative horizon, the `nt` steps
      end at or before `t_max` and one more would pass it. */
  lemma StepCount(L: real, nx: int, alpha: real, tMax: real, dt: Option<real>)
    requires tMax >= 0.0
    requires Configure(L, nx, alpha, tMax, dt).Success?
    requires Configure(L, nx, alpha, tMax, dt).value.dt > 0.0
    ensures var s := Configure(L, nx, alpha, tMax, dt).value;
      s.nt >= 0 && s.nt as real * s.dt <= tMax < (s.nt + 1) as real * s.dt
  {
    var s := Configure(L, nx, alpha, tMax, dt).value;
    QuotientBounds(tMax, s.dt, s.nt as real, (s.nt + 1) as real);
  }

  /** If `n <= x / d < m` for `d > 0`, then `n * d <= x < m * d`. */
  lemma QuotientBounds(x: real, d: real, n: real, m: real)
    requires d > 0.0 && n <= x / d < m
    ensures n * d <= x < m * d
  {
    var q := x / d;
    assert q * d == x;
    MulMonotone(n, q, d);
    MulMonotone(q, m, d);
  }

  lemma MulMonotone(a: real, b: real, c: real)
    requires c > 0.0
    ensures a <= b ==> a * c <= b * c
    ensures a < b ==> a * c < b * c
  {
    assert b * c - a * c == (b - a) * c;
  }

  /** The cases of test_solver.py: with L = 1, nx = 11, alpha = 1 the limit is 0.005, so
      dt = 0.004 is accepted with ratio 0.4, dt = 0.006 is rejected, and the default step
      gives ratio 0.45. */
  lemma StabilityExamples()
    ensures Configure(1.0, 11, 1.0, 0.01, Some(0.004)).Success?
    ensures Ratio(1.0, Configure(1.0, 11, 1.0, 0.01, Some(0.004)).value.dt, 0.1) == 0.4
    ensures Configure(1.0, 11, 1.0, 0.01, Some(0.006)) == Failure(StabilityCheckFailed(0.006, 0.005))
    ensures Configure(1.0, 11, 1.0, 0.01, None).Success?
    ensures Configure(1.0, 11, 1.0, 0.01, None).value.dt == 0.0045
  {
    assert Limit(1.0 / 10.0, 1.0) == 0.005;
  }

  // ---------------------------------------------------------------------------
  // The history

  /** The steps `1..n` that are saved, in increasing order. */
  function SavedSteps(nt: int, k: int, n: nat): (s: seq<nat>)
    requires k != 0
    ensures forall i :: 0 <= i < |s| ==> 1 <= s[i] <= n
    ensures forall i, j :: 0 <= i < j < |s| ==> s[i] < s[j]
  {
    if n == 0 then [] else SavedSteps(nt, k, n - 1) + (if Saved(n, nt, k) then [n] else [])
  }

  /** A step is among the saved ones exactly when it is a multiple of the save interval or
      the last step. */
  lemma {:induction false} SavedStepsExact(nt: int, k: int, n: nat, m: int)
    requires k != 0
    ensures m in SavedSteps(nt, k, n) <==> 1 <= m <= n && Saved(m, nt, k)
  {
    if n > 0 {
      SavedStepsExact(nt, k, n - 1, m);
      assert SavedSteps(nt, k, n) == SavedSteps(nt, k, n - 1) + (if Saved(n, nt, k) then [n] else []);
    }
  }

  /** `snaps` holds the profiles after the step counts `steps`, at those multiples of `dt`. */
  ghost predicate AtSteps(snaps: seq<Snapshot>, steps: seq<nat>, u: seq<real>, r: real, dt: real) {
    |snaps| == |steps| &&
    forall i :: 0 <= i < |steps| ==> snaps[i] == Snapshot(steps[i] as real * dt, Evolve(u, r, steps[i]))
  }

  /** The saved snapshots are the profiles after the saved steps, at times step * dt. */
  lemma {:induction false} SnapsAtSavedSteps(u: seq<real>, r: real, dt: real, nt: int, k: int, n: nat)
    requires k != 0
    ensures AtSteps(Snaps(u, r, dt, nt, k, n), SavedSteps(nt, k, n), u, r, dt)
  {
    if n > 0 {
      SnapsAtSavedSteps(u, r, dt, nt, k, n - 1);
      SnapsUnfold(u, r, dt, nt, k, n);
      var prev, prevSteps := Snaps(u, r, dt, nt, k, n - 1), SavedSteps(nt, k, n - 1);
      var cur, steps := Snaps(u, r, dt, nt, k, n), SavedSteps(nt, k, n);
      if Saved(n, nt, k) {
        assert steps == prevSteps + [n];
        assert cur == prev + [Snapshot(n as real * dt, Evolve(u, r, n))];
        forall i | 0 <= i < |steps|
          ensures cur[i] == Snapshot(steps[i] as real * dt, Evolve(u, r, steps[i]))
        {
          if i < |prevSteps| {
            assert cur[i] == prev[i] && steps[i] == prevSteps[i];
          }
        }
        assert AtSteps(cur, steps, u, r, dt);
      } else {
        assert steps == prevSteps && cur == prev;
        assert AtSteps(cur, steps, u, r, dt);
      }
    } else {
      assert Snaps(u, r, dt, nt, k, n) == [] && SavedSteps(nt, k, n) == [];
    }
  }

  lemma MulAtLeast(d: int, k: int)
    ensures d >= 1 && k > 0 ==> d * k >= k
    ensures d <= -1 && k > 0 ==> d * k <= -k
  {
  }

  /** Division is determined by quotient and remainder. */
  lemma DivUnique(n: int, k: int, q: int, rem: int)
    requires k > 0 && 0 <= rem < k && n == q * k + rem
    ensures n / k == q && n % k == rem
  {
    var d := q - n / k;
    assert d * k == n % k - rem;
    MulAtLeast(d, k);
  }

  lemma DivStep(n: int, k: int)
    requires n >= 1 && k >= 1
    ensures n / k == (n - 1) / k + (if n % k == 0 then 1 else 0)
  {
    var q, rem := (n - 1) / k, (n - 1) % k;
    assert n - 1 == q * k + rem && 0 <= rem < k;
    if rem == k - 1 {
      DivUnique(n, k, q + 1, 0);
    } else {
      DivUnique(n, k, q, rem + 1);
    }
  }

  /** Among steps `1..n` (`n <= nt`), the multiples of `k` are saved, and the last step too. */
  lemma {:induction false} SavedStepsCount(nt: int, k: int, n: nat)
    requires k >= 1 && n <= nt
    ensures |SavedSteps(nt, k, n)| == n / k + (if n == nt && n % k != 0 then 1 else 0)
  {
    if n > 0 {
      SavedStepsCount(nt, k, n - 1);
      DivStep(n, k);
    }
  }

  /** The history holds the initial profile, one entry per multiple of the save interval up
      to `nt`, and the final step when it is not such a multiple. */
  lemma HistoryLength(u: seq<real>, r: real, dt: real, nt: int, k: int)
    requires k >= 1 && nt >= 0
    ensures |History(u, r, dt, nt, k)| == 1 + nt / k + (if nt % k != 0 then 1 else 0)
  {
    SnapsAtSavedSteps(u, r, dt, nt, k, nt);
    SavedStepsCount(nt, k, nt);
  }

  /** The step counts whose profiles the history holds: 0, then the saved steps. */
  function HistorySteps(nt: int, k: int): (s: seq<nat>)
    requires k != 0
    ensures |s| >= 1 && s[0] == 0
    ensures forall i :: 0 <= i < |s| ==> s[i] <= (if nt < 0 then 0 else nt)
    ensures forall i, j :: 0 <= i < j < |s| ==> s[i] < s[j]
  {
    [0] + SavedSteps(nt, k, if nt < 0 then 0 else nt)
  }

  /** Every entry of the history is the profile after its step count, at that many times
      `dt`; the step counts start at 0 and increase. */
  lemma HistoryEntries(u: seq<real>, r: real, dt: real, nt: int, k: int)
    requires k != 0
    ensures AtSteps(History(u, r, dt, nt, k), HistorySteps(nt, k), u, r, dt)
  {
    var n: nat := if nt < 0 then 0 else nt;
    SnapsAtSavedSteps(u, r, dt, nt, k, n);
    var h, steps := History(u, r, dt, nt, k), HistorySteps(nt, k);
    var snaps, saved := Snaps(u, r, dt, nt, k, n), SavedSteps(nt, k, n);
    AtStepsPrepend(snaps, saved, u, r, dt, 0);
    assert Snapshot(0 as real * dt, Evolve(u, r, 0)) == Snapshot(0.0, u);
    assert h == [Snapshot(0.0, u)] + snaps && steps == [0] + saved;
  }

  lemma AtStepsPrepend(snaps: seq<Snapshot>, steps: seq<nat>, u: seq<real>, r: real, dt: real, m: nat)
    requires AtSteps(snaps, steps, u, r, dt)
    ensures AtSteps([Snapshot(m as real * dt, Evolve(u, r, m))] + snaps, [m] + steps, u, r, dt)
  {
    var h, s := [Snapshot(m as real * dt, Evolve(u, r, m))] + snaps, [m] + steps;
    forall i | 1 <= i < |s| ensures h[i] == Snapshot(s[i] as real * dt, Evolve(u, r, s[i])) {
      assert h[i] == snaps[i - 1] && s[i] == steps[i - 1];
    }
  }

  /** The history starts with the initial profile at time 0 and, when there is at least one
      step, ends with the profile after `nt` steps at time `nt * dt`; with no step it holds
      only the initial profile. */
  lemma HistoryEnds(u: seq<real>, r: real, dt: real, nt: int, k: int)
    requires k != 0
    ensures History(u, r, dt, nt, k)[0] == Snapshot(0.0, u)
    ensures nt <= 0 ==> |History(u, r, dt, nt, k)| == 1
    ensures nt >= 1 ==> var h := History(u, r, dt, nt, k);
      h[|h| - 1] == Snapshot(nt as real * dt, Evolve(u, r, nt))
  {
    if nt >= 1 {
      SnapsUnfold(u, r, dt, nt, k, nt);
    }
  }

  // ---------------------------------------------------------------------------
  // The maximum principle

  ghost predicate Within(u: seq<real>, lo: real, hi: real) {
    forall i :: 0 <= i < |u| ==> lo <= u[i] <= hi
  }

  /** With 0 <= r <= 1/2 an interior update is a weighted average of three neighbours. */
  lemma AverageWithin(a: real, b: real, c: real, r: real, lo: real, hi: real)
    requires 0.0 <= r <= 0.5
    requires lo <= a <= hi && lo <= b <= hi && lo <= c <= hi
    ensures lo <= b + r * (c - 2.0 * b + a) <= hi
  {
    NonnegCombination(a - lo, b - lo, c - lo, r);
    assert (b - lo) + r * ((c - lo) - 2.0 * (b - lo) + (a - lo)) == b + r * (c - 2.0 * b + a) - lo;
    NonnegCombination(hi - a, hi - b, hi - c, r);
    assert (hi - b) + r * ((hi - c) - 2.0 * (hi - b) + (hi - a)) == hi - (b + r * (c - 2.0 * b + a));
  }

  lemma NonnegCombination(x: real, y: real, z: real, r: real)
    requires 0.0 <= r <= 0.5 && x >= 0.0 && y >= 0.0 && z >= 0.0
    ensures y + r * (z - 2.0 * y + x) >= 0.0
  {
    assert r * x >= 0.0;
    assert r * z >= 0.0;
    assert (1.0 - 2.0 * r) * y >= 0.0;
    assert y + r * (z - 2.0 * y + x) == (1.0 - 2.0 * r) * y + r * z + r * x;
  }

  /** A stable step keeps a profile inside any range that contains the boundary value 0. */
  lemma StepWithin(u: seq<real>, r: real, lo: real, hi: real)
    requires 0.0 <= r <= 0.5 && lo <= 0.0 <= hi && Within(u, lo, hi)
    ensures Within(Step(u, r), lo, hi)
  {
    var v := Step(u, r);
    forall i | 0 <= i < |u| ensures lo <= v[i] <= hi {
      if 0 < i < |u| - 1 {
        AverageWithin(u[i - 1], u[i], u[i + 1], r, lo, hi);
      }
    }
  }

  lemma {:induction false} EvolveWithin(u: seq<real>, r: real, n: nat, lo: real, hi: real)
    requires 0.0 <= r <= 0.5 && lo <= 0.0 <= hi && Within(u, lo, hi)
    ensures Within(Evolve(u, r, n), lo, hi)
  {
    if n > 0 {
      EvolveWithin(u, r, n - 1, lo, hi);
      StepWithin(Evolve(u, r, n - 1), r, lo, hi);
    }
  }

  /** Every saved profile of a stable run stays within a range of the initial profile that
      contains 0; in particular a non-negative initial profile stays non-negative and never
      exceeds its initial maximum. */
  lemma HistoryWithin(u: seq<real>, r: real, dt: real, nt: int, k: int, lo: real, hi: real)
    requires k != 0 && 0.0 <= r <= 0.5 && lo <= 0.0 <= hi && Within(u, lo, hi)
    ensures forall e :: e in History(u, r, dt, nt, k) ==> Within(e.field, lo, hi)
  {
    HistoryEntries(u, r, dt, nt, k);
    var h := History(u, r, dt, nt, k);
    var s := HistorySteps(nt, k);
    forall e | e in h ensures Within(e.field, lo, hi) {
      var i :| 0 <= i < |h| && h[i] == e;
      EvolveWithin(u, r, s[i], lo, hi);
    }
  }

  /** Running `b` steps is running `a` steps and then `b - a` more. */
  lemma {:induction false} EvolveSplit(u: seq<real>, r: real, a: nat, b: nat)
    requires a <= b
    ensures Evolve(u, r, b) == Evolve(Evolve(u, r, a), r, b - a)
    decreases b
  {
    if b > a {
      EvolveSplit(u, r, a, b - 1);
    }
  }

  /** For a non-negative initial profile and a stable ratio, the maximum temperature never
      increases from one step count to a later one. */
  lemma MaxNonincreasing(u: seq<real>, r: real, a: nat, b: nat)
    requires 0.0 <= r <= 0.5 && u != [] && Within(u, 0.0, Reductions.Max(u))
    requires a <= b
    ensures Reductions.Max(Evolve(u, r, b)) <= Reductions.Max(Evolve(u, r, a))
  {
    var ua := Evolve(u, r, a);
    EvolveWithin(u, r, a, 0.0, Reductions.Max(u));
    WithinOwnMax(ua, Reductions.Max(u));
    var top := Reductions.Max(ua);
    var ub := Evolve(ua, r, b - a);
    EvolveWithin(ua, r, b - a, 0.0, top);
    Reductions.BoundsOfExtremes(ub, 0.0, top);
    assert Reductions.Max(ub) <= top;
    EvolveSplit(u, r, a, b);
  }

  lemma WithinOwnMax(v: seq<real>, hi: real)
    requires v != [] && Within(v, 0.0, hi)
    ensures Within(v, 0.0, Reductions.Max(v)) && Reductions.Max(v) >= 0.0
  {
    assert v[0] <= Reductions.Max(v);
  }

  /** `solve` returns a history whenever the grid spacing is not 0, the save interval is
      positive and the profile has a point. */
  lemma SolveSucceeds(u: seq<real>, alpha: real, s: Setup, k: int)
    requires s.dx != 0.0 && k >= 1 && u != []
    ensures SolveSpec(u, alpha, s, k) == Success(History(u, Ratio(alpha, s.dt, s.dx), s.dt, s.nt, k))
  {
  }

  class HeatEquationSolver1D {
    const L: real
    const nx: int
    const dx: real
    const alpha: real
    const tMax: real
    const dt: real
    const nt: int
    const x: seq<real>
    var u: seq<real>

    function Config(): Setup {
      Setup(dx, dt, nt)
    }

    /** Only reached when the constructor's arithmetic succeeds; `Create` reports the
        exceptions. */
    constructor (L: real, nx: int, alpha: real, tMax: real, dtArg: Option<real>)
      requires Configure(L, nx, alpha, tMax, dtArg).Success?
      ensures this.L == L && this.nx == nx && this.alpha == alpha && this.tMax == tMax
      ensures Config() == Configure(L, nx, alpha, tMax, dtArg).value
      ensures x == Linspace(L, nx)
      ensures u == seq(nx, _ => 0.0)
    {
      var s := Configure(L, nx, alpha, tMax, dtArg).value;
      this.L := L;
      this.nx := nx;
      this.dx := s.dx;
      this.alpha := alpha;
      this.tMax := tMax;
      this.dt := s.dt;
      this.nt := s.nt;
      this.x := Linspace(L, nx);
      this.u := seq(nx, _ => 0.0);
    }

    /** `HeatEquationSolver1D(L, nx, alpha, t_max, dt)`, with the exception it raises. */
    static method Create(L: real, nx: int, alpha: real, tMax: real, dtArg: Option<real>)
      returns (res: Result<HeatEquationSolver1D, Exception>)
      ensures res.Failure? <==> Configure(L, nx, alpha, tMax, dtArg).Failure?
      ensures res.Failure? ==> res.error == Configure(L, nx, alpha, tMax, dtArg).error
      ensures res.Success? ==> fresh(res.value) && res.value.Config() == Configure(L, nx, alpha, tMax, dtArg).value
      ensures res.Success? ==> res.value.alpha == alpha && res.value.x == Linspace(L, nx)
    {
      var c := Configure(L, nx, alpha, tMax, dtArg);
      if c.Failure? {
        return Failure(c.error);
      }
      var solver := new HeatEquationSolver1D(L, nx, alpha, tMax, dtArg);
      return Success(solver);
    }

    /** `u = func(x)`. */
    method SetInitialCondition(f: seq<real> -> seq<real>)
      modifies this
      ensures u == f(x)
    {
      u := f(x);
    }

    /** One pass of the time loop on the two arrays: `u_new[1:-1] = u[1:-1] + r * (u[2:] -
        2*u[1:-1] + u[:-2])`, `u_new[0] = u_new[-1] = 0.0`, then `u[:] = u_new[:]`. */
    static method Advance(cur: array<real>, next: array<real>, r: real)
      requires cur != next && cur.Length == next.Length > 0
      modifies cur, next
      ensures cur[..] == Step(old(cur[..]), r) && next[..] == cur[..]
    {
      var m := cur.Length;
      ghost var c := cur[..];
      ghost var v := Step(c, r);
      forall i | 1 <= i < m - 1 {
        next[i] := cur[i] + r * (cur[i + 1] - 2.0 * cur[i] + cur[i - 1]);
      }
      assert forall i :: 1 <= i < m - 1 ==> next[i] == v[i];
      next[0] := 0.0;
      next[m - 1] := 0.0;
      assert next[..] == v;
      forall i | 0 <= i < m {
        cur[i] := next[i];
      }
    }

    /** `solve(save_interval)`: steps a copy of `u` `nt` times with two arrays, saving the
        initial profile and every saved step; the solver itself is not changed. */
    method Solve(saveInterval: int) returns (res: Result<seq<Snapshot>, Exception>)
      ensures res == SolveSpec(u, alpha, Config(), saveInterval)
    {
      if dx == 0.0 {
        return Failure(ZeroDivisionError);
      }
      res := Run(u, Ratio(alpha, dt, dx), dt, nt, saveInterval);
    }

    /** Pass `n` of the loop: one step of the arrays, the clock moved on by `dt`, and the
        profile saved when step `n` is a multiple of the interval or the last one. */
    static method Pass(cur: array<real>, next: array<real>, ghost u0: seq<real>, r: real, dt: real, nt: int, k: int,
                       n: nat, history: seq<Snapshot>, t: real) returns (history': seq<Snapshot>, t': real)
      requires cur != next && cur.Length == next.Length == |u0| > 0 && k != 0 && n >= 1
      requires cur[..] == Evolve(u0, r, n - 1)
      requires t == (n - 1) as real * dt
      requires history == [Snapshot(0.0, u0)] + Snaps(u0, r, dt, nt, k, n - 1)
      modifies cur, next
      ensures cur[..] == Evolve(u0, r, n)
      ensures t' == n as real * dt
      ensures history' == [Snapshot(0.0, u0)] + Snaps(u0, r, dt, nt, k, n)
    {
      Advance(cur, next, r);
      SolveStep(u0, r, dt, nt, k, n, history, t);
      t' := t + dt;
      history' := history;
      if n % k == 0 || n == nt {
        history' := history + [Snapshot(t', cur[..])];
      }
    }

    /** The loop of `solve`: steps a copy of `u0` `nt` times with two arrays, the clock
        advancing by `dt` each pass, saving the initial profile and every saved step. The
        first pass is where an empty profile (writing `u_new[0]`) or an interval of 0 (the
        save test) raises; both are decided before the arrays are touched, which is not
        observable since the arrays are local. */
    static method Run(u0: seq<real>, r: real, dt: real, nt: int, k: int) returns (res: Result<seq<Snapshot>, Exception>)
      ensures res == Stepped(u0, r, dt, nt, k)
    {
      var m := |u0|;
      if nt >= 1 && m == 0 {
        return Failure(IndexError);
      }
      if nt >= 1 && k == 0 {
        return Failure(ZeroDivisionError);
      }
      if k == 0 {
        return Success([Snapshot(0.0, u0)]);
      }
      var t := 0.0;
      var history := [Snapshot(t, u0)];
      var cur := new real[m](i requires 0 <= i < m => u0[i]);
      var next := new real[m](_ => 0.0);
      assert cur[..] == u0;
      var n := 1;
      while n <= nt
        invariant 1 <= n <= (if nt < 1 then 1 else nt + 1)
        invariant cur.Length == m && next.Length == m && cur != next
        invariant cur[..] == Evolve(u0, r, n - 1)
        invariant t == (n - 1) as real * dt
        invariant history == [Snapshot(0.0, u0)] + Snaps(u0, r, dt, nt, k, n - 1)
      {
        history, t := Pass(cur, next, u0, r, dt, nt, k, n, history, t);
        n := n + 1;
      }
      assert n - 1 == (if nt < 0 then 0 else nt);
      return Success(history);
    }
  }
}
