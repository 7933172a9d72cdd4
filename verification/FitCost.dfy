/**
 * The line fits of `benchmarks/fit_cost_model.py` (lines 48-87 and 102-121), over the reals: ordinary
 * least squares, and weighted least squares of the relative error with its clamps.
 */
module FitCost {
  /** A measured point: a size and its cost. */
  datatype Point = Point(x: real, y: real)

  /** A point with the weight of its squared error. */
  datatype Weighted = Weighted(w: real, x: real, y: real)

  /** The sums both fits are made of. */
  datatype Moments = Moments(sw: real, swx: real, swy: real, swxx: real, swxy: real, swyy: real)

  const ZERO := Moments(0.0, 0.0, 0.0, 0.0, 0.0, 0.0)

  function Plus(m: Moments, p: Weighted): Moments
  {
    Moments(m.sw + p.w, m.swx + p.w * p.x, m.swy + p.w * p.y,
            m.swxx + p.w * p.x * p.x, m.swxy + p.w * p.x * p.y, m.swyy + p.w * p.y * p.y)
  }

  function Sums(ps: seq<Weighted>, n: nat): Moments
    requires n <= |ps|
  {
    if n == 0 then ZERO else Plus(Sums(ps, n - 1), ps[n - 1])
  }

  /** The sums after each point. */
  ghost predicate Running(ps: seq<Weighted>, ms: seq<Moments>)
  {
    && |ms| == |ps| + 1 && ms[0] == ZERO
    && forall i: nat {:trigger Next(ps, ms, i)} | i < |ps| :: Next(ps, ms, i)
  }

  ghost predicate Next(ps: seq<Weighted>, ms: seq<Moments>, i: nat)
  {
    i < |ps| && i + 1 < |ms| && Adds(ms[i], ps[i], ms[i + 1])
  }

  function Times(a: real, b: real): real
  {
    a * b
  }

  /** A weighted square. */
  function Sq(w: real, d: real): real
  {
    Times(w, Times(d, d))
  }

  function Error(ps: seq<Weighted>, n: nat, a: real, b: real): real
    requires n <= |ps|
  {
    if n == 0 then 0.0 else Error(ps, n - 1, a, b) + Miss(ps[n - 1], a, b)
  }

  /** The weighted square of a line's error at a point. */
  function Miss(p: Weighted, a: real, b: real): real
  {
    Sq(p.w, a + b * p.x - p.y)
  }

  ghost predicate WeightsOk(ps: seq<Weighted>)
  {
    forall i | 0 <= i < |ps| :: ps[i].w >= 0.0
  }

  ghost predicate WeightsPositive(ps: seq<Weighted>)
  {
    forall i | 0 <= i < |ps| :: ps[i].w > 0.0
  }

  // ---- The error as a polynomial in the line -----------------------------

  function Quadratic(m: Moments, a: real, b: real): real
  {
    a * a * m.sw + b * b * m.swxx + m.swyy + 2.0 * a * b * m.swx - 2.0 * a * m.swy - 2.0 * b * m.swxy
  }

  /** `more` is the sums of `m` and one point. */
  predicate Adds(m: Moments, p: Weighted, more: Moments)
  {
    && more.sw == m.sw + p.w && more.swx == m.swx + p.w * p.x && more.swy == m.swy + p.w * p.y
    && more.swxx == m.swxx + p.w * p.x * p.x && more.swxy == m.swxy + p.w * p.x * p.y && more.swyy == m.swyy + p.w * p.y * p.y
  }

  lemma RunningSums(ps: seq<Weighted>, ms: seq<Moments>)
    requires |ms| == |ps| + 1 && forall i | 0 <= i <= |ps| :: ms[i] == Sums(ps, i)
    ensures Running(ps, ms)
  {
    forall i: nat | i < |ps| ensures Next(ps, ms, i) {
      assert ms[i + 1] == Plus(ms[i], ps[i]);
    }
  }

  /** The running sums end in the sums. */
  ghost function AllSums(ps: seq<Weighted>): (ms: seq<Moments>)
    ensures Running(ps, ms) && ms[|ps|] == Sums(ps, |ps|)
  {
    var ms := seq(|ps| + 1, i requires 0 <= i <= |ps| => Sums(ps, i));
    RunningSums(ps, ms);
    ms
  }

  lemma SquareExpands(w: real, x: real, y: real, a: real, b: real)
    ensures Sq(w, a + b * x - y) ==
            a * a * w + b * b * (w * x * x) + w * y * y + 2.0 * a * b * (w * x) - 2.0 * a * (w * y) - 2.0 * b * (w * x * y)
  {
  }

  lemma QuadraticAdds(m: Moments, p: Weighted, more: Moments, a: real, b: real)
    requires Adds(m, p, more)
    ensures Quadratic(more, a, b) == Quadratic(m, a, b) + Miss(p, a, b)
  {
    SquareExpands(p.w, p.x, p.y, a, b);
    Distribute(a * a, m.sw, p.w);
    Distribute(b * b, m.swxx, p.w * p.x * p.x);
    Distribute(2.0 * a * b, m.swx, p.w * p.x);
    Distribute(2.0 * a, m.swy, p.w * p.y);
    Distribute(2.0 * b, m.swxy, p.w * p.x * p.y);
  }

  lemma Distribute(c: real, p: real, q: real)
    ensures c * (p + q) == c * p + c * q
  {
  }

  lemma {:induction false} ErrorIs(ps: seq<Weighted>, ms: seq<Moments>, n: nat, a: real, b: real)
    requires n <= |ps| && Running(ps, ms)
    ensures Error(ps, n, a, b) == Quadratic(ms[n], a, b)
  {
    if n > 0 {
      ErrorIs(ps, ms, n - 1, a, b);
      assert Next(ps, ms, n - 1);
      ErrorAdds(ms[n - 1], ps[n - 1], ms[n], a, b, Error(ps, n - 1, a, b), Error(ps, n, a, b));
    }
  }

  lemma ErrorAdds(m: Moments, p: Weighted, more: Moments, a: real, b: real, less: real, all: real)
    requires Adds(m, p, more) && less == Quadratic(m, a, b) && all == less + Miss(p, a, b)
    ensures all == Quadratic(more, a, b)
  {
    QuadraticAdds(m, p, more, a, b);
  }

  lemma TimesIs(a: real, b: real)
    ensures a > 0.0 && b > 0.0 ==> Times(a, b) > 0.0
    ensures a < 0.0 && b < 0.0 ==> Times(a, b) > 0.0
    ensures a == 0.0 || b == 0.0 ==> Times(a, b) == 0.0
  {
  }

  lemma SquareIs(d: real)
    ensures Times(d, d) >= 0.0
    ensures d == 0.0 <==> Times(d, d) == 0.0
  {
    TimesIs(d, d);
  }

  lemma SqIs(w: real, d: real)
    requires w >= 0.0
    ensures Sq(w, d) >= 0.0
    ensures w > 0.0 ==> (d == 0.0 <==> Sq(w, d) == 0.0)
  {
    SquareIs(d);
    TimesIs(w, Times(d, d));
  }

  lemma {:induction false} ErrorNotNegative(ps: seq<Weighted>, n: nat, a: real, b: real)
    requires n <= |ps| && WeightsOk(ps)
    ensures Error(ps, n, a, b) >= 0.0
  {
    if n > 0 {
      ErrorNotNegative(ps, n - 1, a, b);
      MissNotNegative(ps[n - 1], a, b);
    }
  }

  lemma MissNotNegative(p: Weighted, a: real, b: real)
    requires p.w >= 0.0
    ensures Miss(p, a, b) >= 0.0
  {
    SqIs(p.w, a + b * p.x - p.y);
  }

  /** What a change of the line adds to the error when the sums are at a stationary point. */
  function Change(m: Moments, da: real, db: real): real
  {
    da * da * m.sw + 2.0 * da * db * m.swx + db * db * m.swxx
  }

  lemma ChangeAdds(m: Moments, p: Weighted, more: Moments, da: real, db: real)
    requires Adds(m, p, more)
    ensures Change(more, da, db) == Change(m, da, db) + Sq(p.w, da + db * p.x)
  {
    SquareExpands(p.w, p.x, 0.0, da, db);
    Distribute(da * da, m.sw, p.w);
    Distribute(2.0 * da * db, m.swx, p.w * p.x);
    Distribute(db * db, m.swxx, p.w * p.x * p.x);
  }

  lemma {:induction false} ChangeNotNegative(ps: seq<Weighted>, ms: seq<Moments>, n: nat, da: real, db: real)
    requires n <= |ps| && WeightsOk(ps) && Running(ps, ms)
    ensures Change(ms[n], da, db) >= 0.0
  {
    if n > 0 {
      ChangeNotNegative(ps, ms, n - 1, da, db);
      assert Next(ps, ms, n - 1);
      ChangeAdds(ms[n - 1], ps[n - 1], ms[n], da, db);
      SqIs(ps[n - 1].w, da + db * ps[n - 1].x);
    }
  }

  /** The line at which the error is stationary. */
  predicate Normal(m: Moments, a: real, b: real)
  {
    a * m.sw + b * m.swx == m.swy && a * m.swx + b * m.swxx == m.swxy
  }

  lemma QuadraticChange(m: Moments, a: real, b: real, c: real, d: real)
    requires Normal(m, a, b)
    ensures Quadratic(m, c, d) == Quadratic(m, a, b) + Change(m, c - a, d - b)
  {
    var da, db := c - a, d - b;
    assert c == a + da && d == b + db;
    assert Quadratic(m, a + da, b + db) == Quadratic(m, a, b) + Change(m, da, db)
      + 2.0 * da * (a * m.sw + b * m.swx - m.swy) + 2.0 * db * (a * m.swx + b * m.swxx - m.swxy);
  }

  /** A stationary line is a best one. */
  lemma NormalIsBest(ps: seq<Weighted>, a: real, b: real, c: real, d: real)
    requires WeightsOk(ps) && Normal(Sums(ps, |ps|), a, b)
    ensures Error(ps, |ps|, a, b) <= Error(ps, |ps|, c, d)
  {
    var ms := AllSums(ps);
    ErrorIs(ps, ms, |ps|, a, b);
    ErrorIs(ps, ms, |ps|, c, d);
    QuadraticChange(ms[|ps|], a, b, c, d);
    ChangeNotNegative(ps, ms, |ps|, c - a, d - b);
  }

  // ---- The denominator ---------------------------------------------------

  function Denominator(m: Moments): real
  {
    m.sw * m.swxx - m.swx * m.swx
  }

  /** The weighted spread of the x values about `x`. */
  function Spread(m: Moments, x: real): real
  {
    m.swxx - 2.0 * x * m.swx + x * x * m.sw
  }

  /** One point more adds its weight times the spread of the others about it (Lagrange's identity). */
  lemma DenominatorGrows(m: Moments, p: Weighted, more: Moments)
    requires Adds(m, p, more)
    ensures Denominator(more) == Denominator(m) + Times(p.w, Spread(m, p.x))
  {
    var w, x := p.w, p.x;
    assert (m.sw + w) * (m.swxx + w * x * x) - (m.swx + w * x) * (m.swx + w * x)
        == m.sw * m.swxx - m.swx * m.swx + w * (m.swxx - 2.0 * x * m.swx + x * x * m.sw);
  }

  ghost predicate SameX(ps: seq<Weighted>, n: nat, x: real)
    requires n <= |ps|
  {
    forall i | 0 <= i < n :: ps[i].x == x
  }

  lemma SpreadAdds(m: Moments, p: Weighted, more: Moments, x: real)
    requires Adds(m, p, more)
    ensures Spread(more, x) == Spread(m, x) + Sq(p.w, p.x - x)
  {
    SquareExpands(p.w, p.x, x, 0.0, 1.0);
    Distribute(2.0 * x, m.swx, p.w * p.x);
    Distribute(x * x, m.sw, p.w);
  }

  /** The spread is a sum of squares: zero exactly when all the x values are `x`. */
  lemma {:induction false} SpreadIs(ps: seq<Weighted>, ms: seq<Moments>, n: nat, x: real)
    requires n <= |ps| && WeightsPositive(ps) && Running(ps, ms)
    ensures Spread(ms[n], x) >= 0.0
    ensures Spread(ms[n], x) == 0.0 <==> SameX(ps, n, x)
  {
    if n > 0 {
      SpreadIs(ps, ms, n - 1, x);
      assert Next(ps, ms, n - 1);
      SpreadAdds(ms[n - 1], ps[n - 1], ms[n], x);
      SqIs(ps[n - 1].w, ps[n - 1].x - x);
    }
  }

  /** Cauchy-Schwarz, with its case of equality: the denominator is zero exactly when all x are the same. */
  lemma {:induction false} DenominatorIs(ps: seq<Weighted>, ms: seq<Moments>, n: nat)
    requires 0 < n <= |ps| && WeightsPositive(ps) && Running(ps, ms)
    ensures Denominator(ms[n]) >= 0.0
    ensures Denominator(ms[n]) == 0.0 <==> SameX(ps, n, ps[0].x)
  {
    assert Next(ps, ms, n - 1);
    SpreadIs(ps, ms, n - 1, ps[n - 1].x);
    if n > 1 {
      DenominatorIs(ps, ms, n - 1);
      SameXMore(ps, n);
      DenominatorStep(ms[n - 1], ps[n - 1], ms[n]);
    } else {
      DenominatorFirst(ps[0], ms[1]);
    }
  }

  lemma DenominatorStep(m: Moments, p: Weighted, more: Moments)
    requires Adds(m, p, more) && p.w > 0.0 && Denominator(m) >= 0.0 && Spread(m, p.x) >= 0.0
    ensures Denominator(more) >= 0.0
    ensures Denominator(more) == 0.0 <==> Denominator(m) == 0.0 && Spread(m, p.x) == 0.0
  {
    DenominatorGrows(m, p, more);
    TimesIs(p.w, Spread(m, p.x));
  }

  lemma DenominatorFirst(p: Weighted, more: Moments)
    requires Adds(ZERO, p, more)
    ensures Denominator(more) == 0.0
  {
    DenominatorGrows(ZERO, p, more);
    TimesIs(p.w, Spread(ZERO, p.x));
  }

  lemma SameXMore(ps: seq<Weighted>, n: nat)
    requires 1 < n <= |ps|
    ensures SameX(ps, n, ps[0].x) <==> SameX(ps, n - 1, ps[0].x) && SameX(ps, n - 1, ps[n - 1].x)
  {
  }

  lemma {:induction false} WeightsAdd(ps: seq<Weighted>, ms: seq<Moments>, n: nat)
    requires 0 < n <= |ps| && WeightsPositive(ps) && Running(ps, ms)
    ensures ms[n].sw > 0.0
  {
    assert Next(ps, ms, n - 1);
    if n > 1 {
      WeightsAdd(ps, ms, n - 1);
    }
  }

  /** The closed form solves the two normal equations. */
  lemma ClosedFormIsNormal(m: Moments, a: real, b: real)
    requires m.sw != 0.0 && Denominator(m) != 0.0
    requires b == (m.sw * m.swxy - m.swx * m.swy) / Denominator(m) && a == (m.swy - b * m.swx) / m.sw
    ensures Normal(m, a, b)
  {
    assert b * Denominator(m) == m.sw * m.swxy - m.swx * m.swy;
    assert a * m.sw == m.swy - b * m.swx;
    var lhs := a * m.swx + b * m.swxx;
    assert m.sw * lhs == (a * m.sw) * m.swx + b * (m.sw * m.swxx);
    assert m.sw * lhs == m.swy * m.swx + b * Denominator(m);
    Cancel(m.sw, lhs, m.swxy);
  }

  lemma Cancel(s: real, p: real, q: real)
    requires s != 0.0 && s * p == s * q
    ensures p == q
  {
    assert s * (p - q) == 0.0;
  }

  // ---- The fits ----------------------------------------------------------

  /** Each point counts the same. */
  function Ordinary(ps: seq<Point>): (r: seq<Weighted>)
    ensures |r| == |ps| && WeightsPositive(r) && forall i | 0 <= i < |ps| :: r[i].x == ps[i].x && r[i].y == ps[i].y
  {
    seq(|ps|, i requires 0 <= i < |ps| => Weighted(1.0, ps[i].x, ps[i].y))
  }

  function Weight(y: real): (w: real)
    ensures w >= 0.0 && (y > 0.0 ==> w > 0.0)
  {
    if y > 0.0 then
      TimesIs(y, y);
      1.0 / Times(y, y)
    else 0.0
  }

  /** The weights that make squared errors relative. */
  function Relative(ps: seq<Point>): (r: seq<Weighted>)
    ensures |r| == |ps| && WeightsOk(r) && forall i | 0 <= i < |ps| :: r[i] == Weighted(Weight(ps[i].y), ps[i].x, ps[i].y)
  {
    seq(|ps|, i requires 0 <= i < |ps| => Weighted(Weight(ps[i].y), ps[i].x, ps[i].y))
  }

  /** The weighted error of a line at a point is the square of its relative error. */
  lemma RelativeMiss(p: Point, a: real, b: real)
    requires p.y > 0.0
    ensures Miss(Weighted(Weight(p.y), p.x, p.y), a, b) ==
            Times((a + b * p.x - p.y) / p.y, (a + b * p.x - p.y) / p.y)
  {
    var d, y := a + b * p.x - p.y, p.y;
    TimesIs(y, y);
    var q := d / y;
    assert d == q * y;
    assert d * d == (q * q) * (y * y);
    Shrink(q * q, Times(y, y), Times(d, d));
  }

  lemma Shrink(q: real, s: real, d: real)
    requires s > 0.0 && d == q * s
    ensures (1.0 / s) * d == q
  {
  }

  datatype Line = Line(a: real, b: real)

  /** The closed form, for sums that have one. */
  function Solve(m: Moments): Line
    requires m.sw != 0.0 && Denominator(m) != 0.0
  {
    var b := (m.sw * m.swxy - m.swx * m.swy) / Denominator(m);
    Line((m.swy - b * m.swx) / m.sw, b)
  }

  /** The closed form gives a best line. */
  lemma SolveIsBest(ps: seq<Weighted>, c: real, d: real)
    requires WeightsOk(ps) && Sums(ps, |ps|).sw != 0.0 && Denominator(Sums(ps, |ps|)) != 0.0
    ensures Error(ps, |ps|, Solve(Sums(ps, |ps|)).a, Solve(Sums(ps, |ps|)).b) <= Error(ps, |ps|, c, d)
  {
    SolveIsNormal(Sums(ps, |ps|));
    NormalIsBest(ps, Solve(Sums(ps, |ps|)).a, Solve(Sums(ps, |ps|)).b, c, d);
  }

  lemma SolveIsNormal(m: Moments)
    requires m.sw != 0.0 && Denominator(m) != 0.0
    ensures Normal(m, Solve(m).a, Solve(m).b)
  {
    ClosedFormIsNormal(m, Solve(m).a, Solve(m).b);
  }

  ghost predicate AllSameX(ps: seq<Point>)
  {
    forall i | 0 <= i < |ps| :: ps[i].x == ps[0].x
  }

  lemma {:induction false} DenominatorOf(ps: seq<Point>, ws: seq<Weighted>)
    requires ps != [] && |ws| == |ps| && WeightsPositive(ws) && forall i | 0 <= i < |ps| :: ws[i].x == ps[i].x
    ensures Sums(ws, |ws|).sw > 0.0
    ensures Denominator(Sums(ws, |ws|)) == 0.0 <==> AllSameX(ps)
  {
    DenominatorIs(ws, AllSums(ws), |ws|);
    WeightsAdd(ws, AllSums(ws), |ws|);
  }

  /** `ss_tot` and `ss_res` are errors of ordinary weight. */
  function RSquared(ps: seq<Point>, a: real, b: real): real
    requires ps != []
  {
    var ws := Ordinary(ps);
    var mean := Sums(ws, |ws|).swy / |ps| as real;
    var total, rest := Error(ws, |ws|, mean, 0.0), Error(ws, |ws|, a, b);
    if total > 0.0 then 1.0 - rest / total else 1.0
  }

  datatype Fit = Fit(a: real, b: real, r2: real)

  /** `fit_linear`. */
  function FitLinear(ps: seq<Point>): Fit
  {
    if |ps| < 2 then Fit(0.0, 0.0, 0.0)
    else
      var ws := Ordinary(ps);
      DenominatorOf(ps, ws);
      var m := Sums(ws, |ws|);
      if Denominator(m) == 0.0 then Fit(m.swy / |ps| as real, 0.0, 0.0)
      else
        var line := Solve(m);
        Fit(line.a, line.b, RSquared(ps, line.a, line.b))
  }

  lemma RatioIn(rest: real, total: real)
    requires 0.0 <= rest <= total && total > 0.0
    ensures 0.0 <= rest / total <= 1.0
  {
    var q := rest / total;
    assert rest == q * total;
    if q < 0.0 {
      TimesIs(-q, total);
    }
    if q > 1.0 {
      TimesIs(q - 1.0, total);
    }
  }

  /**
   * When the x values are not all equal, `fit_linear` minimises the sum of squared errors over all
   * lines, and its r squared is in [0, 1]; when they are, it is the mean and flat.
   */
  lemma LinearIsBest(ps: seq<Point>, c: real, d: real)
    requires |ps| >= 2
    ensures !AllSameX(ps) ==>
              Error(Ordinary(ps), |ps|, FitLinear(ps).a, FitLinear(ps).b) <= Error(Ordinary(ps), |ps|, c, d)
    ensures AllSameX(ps) ==> FitLinear(ps).b == 0.0
    ensures 0.0 <= FitLinear(ps).r2 <= 1.0
  {
    var ws := Ordinary(ps);
    DenominatorOf(ps, ws);
    var m := Sums(ws, |ws|);
    if Denominator(m) != 0.0 {
      SolveIsBest(ws, c, d);
      var mean := m.swy / |ps| as real;
      SolveIsBest(ws, mean, 0.0);
      var total, rest := Error(ws, |ws|, mean, 0.0), Error(ws, |ws|, Solve(m).a, Solve(m).b);
      ErrorNotNegative(ws, |ws|, Solve(m).a, Solve(m).b);
      if total > 0.0 {
        RatioIn(rest, total);
      }
    }
  }

  // ---- The clamps --------------------------------------------------------

  /** `sum(w * x * (y - a))`. */
  function Against(ps: seq<Weighted>, n: nat, a: real): real
    requires n <= |ps|
  {
    if n == 0 then 0.0 else Against(ps, n - 1, a) + ps[n - 1].w * ps[n - 1].x * (ps[n - 1].y - a)
  }

  lemma AgainstStep(m: Moments, p: Weighted, more: Moments, a: real, less: real, all: real)
    requires Adds(m, p, more) && less == m.swxy - a * m.swx && all == less + p.w * p.x * (p.y - a)
    ensures all == more.swxy - a * more.swx
  {
    Distribute(a, m.swx, p.w * p.x);
    assert p.w * p.x * (p.y - a) == p.w * p.x * p.y - a * (p.w * p.x);
  }

  lemma {:induction false} AgainstIs(ps: seq<Weighted>, ms: seq<Moments>, n: nat, a: real)
    requires n <= |ps| && Running(ps, ms)
    ensures Against(ps, n, a) == ms[n].swxy - a * ms[n].swx
  {
    if n > 0 {
      AgainstIs(ps, ms, n - 1, a);
      assert Next(ps, ms, n - 1);
      AgainstStep(ms[n - 1], ps[n - 1], ms[n], a, Against(ps, n - 1, a), Against(ps, n, a));
    } else {
      assert a * 0.0 == 0.0;
    }
  }

  lemma SlopeChange(m: Moments, a: real, b: real, d: real)
    requires a * m.swx + b * m.swxx == m.swxy
    ensures Quadratic(m, a, d) == Quadratic(m, a, b) + Change(m, 0.0, d - b)
  {
    var e := d - b;
    assert d == b + e;
    assert Quadratic(m, a, b + e) == Quadratic(m, a, b) + e * e * m.swxx + 2.0 * e * (a * m.swx + b * m.swxx - m.swxy);
  }

  /** The refitted slope is the best one through the intercept. */
  lemma SlopeIsBest(ps: seq<Weighted>, a: real, b: real, d: real)
    requires WeightsOk(ps) && Sums(ps, |ps|).swxx != 0.0
    requires b == Against(ps, |ps|, a) / Sums(ps, |ps|).swxx
    ensures Error(ps, |ps|, a, b) <= Error(ps, |ps|, a, d)
  {
    var ms := AllSums(ps);
    var m := ms[|ps|];
    AgainstIs(ps, ms, |ps|, a);
    assert b * m.swxx == m.swxy - a * m.swx;
    ErrorIs(ps, ms, |ps|, a, b);
    ErrorIs(ps, ms, |ps|, a, d);
    SlopeChange(m, a, b, d);
    ChangeNotNegative(ps, ms, |ps|, 0.0, d - b);
  }

  function Min(ys: seq<real>): (m: real)
    requires ys != []
    ensures m in ys && forall y <- ys :: m <= y
  {
    if |ys| == 1 then ys[0]
    else
      assert ys == [ys[0]] + ys[1..];
      var rest := Min(ys[1..]);
      if ys[0] <= rest then ys[0] else rest
  }

  predicate Sorted(s: seq<real>)
  {
    forall i, j | 0 <= i < j < |s| :: s[i] <= s[j]
  }

  function Insert(s: seq<real>, y: real): (r: seq<real>)
    requires Sorted(s)
    ensures Sorted(r) && |r| == |s| + 1 && multiset(r) == multiset(s) + multiset{y}
  {
    if s == [] || y <= s[0] then [y] + s
    else
      var rest := Insert(s[1..], y);
      assert s == [s[0]] + s[1..];
      HeadFirst(s, y, rest);
      [s[0]] + rest
  }

  lemma HeadFirst(s: seq<real>, y: real, rest: seq<real>)
    requires s != [] && Sorted(s) && s[0] < y && Sorted(rest) && multiset(rest) == multiset(s[1..]) + multiset{y}
    ensures Sorted([s[0]] + rest)
  {
    forall i | 0 <= i < |rest| ensures s[0] <= rest[i] {
      assert rest[i] in multiset(rest);
      assert rest[i] == y || rest[i] in s[1..];
    }
  }

  function Sort(ys: seq<real>): (r: seq<real>)
    ensures Sorted(r) && |r| == |ys| && multiset(r) == multiset(ys)
  {
    if ys == [] then []
    else
      assert ys == [ys[0]] + ys[1..];
      Insert(Sort(ys[1..]), ys[0])
  }

  /** `statistics.median`. */
  function Median(ys: seq<real>): real
    requires ys != []
  {
    var s, h := Sort(ys), |ys| / 2;
    if |ys| % 2 == 1 then s[h] else (s[h - 1] + s[h]) / 2.0
  }

  lemma MedianPositive(ys: seq<real>)
    requires ys != [] && forall y <- ys :: y > 0.0
    ensures Median(ys) > 0.0
  {
    var s := Sort(ys);
    forall i | 0 <= i < |s| ensures s[i] > 0.0 {
      assert s[i] in multiset(s);
      assert s[i] in ys;
    }
  }

  function Costs(ps: seq<Point>): (r: seq<real>)
    ensures |r| == |ps| && forall i | 0 <= i < |ps| :: r[i] == ps[i].y
  {
    seq(|ps|, i requires 0 <= i < |ps| => ps[i].y)
  }

  ghost predicate AllPositive(ps: seq<Point>)
  {
    forall i | 0 <= i < |ps| :: ps[i].y > 0.0
  }

  lemma {:induction false} CostsAdd(ws: seq<Weighted>, ms: seq<Moments>, n: nat)
    requires 0 < n <= |ws| && Running(ws, ms) && forall i | 0 <= i < |ws| :: ws[i].w == 1.0 && ws[i].y > 0.0
    ensures ms[n].swy > 0.0
  {
    assert Next(ws, ms, n - 1);
    if n > 1 {
      CostsAdd(ws, ms, n - 1);
    }
  }

  /** The line when no x differs: the mean cost, flat. */
  lemma FallbackIsMean(ps: seq<Point>)
    requires |ps| >= 2 && AllSameX(ps) && AllPositive(ps)
    ensures FitLinear(ps).a > 0.0 && FitLinear(ps).b == 0.0
  {
    var ws := Ordinary(ps);
    DenominatorOf(ps, ws);
    CostsAdd(ws, AllSums(ws), |ws|);
    Quotient(Sums(ws, |ws|).swy, |ps| as real);
  }

  lemma Quotient(p: real, q: real)
    requires p > 0.0 && q > 0.0
    ensures p / q > 0.0
  {
    var r := p / q;
    assert p == r * q;
    if r <= 0.0 {
      TimesIs(-r, q);
    }
  }

  /** The line of a relative fit has a closed form, and neither clamp fires. */
  ghost predicate Unclamped(ps: seq<Point>)
  {
    var m := Sums(Relative(ps), |ps|);
    m.sw != 0.0 && Denominator(m) != 0.0 && Solve(m).a >= 0.0 && Solve(m).b >= 0.0
  }

  /**
   * `fit_relative`: for two or more points of positive cost neither coefficient is negative, through
   * every clamp and the fallback; when no clamp fires the line minimises the sum of squared relative
   * errors over all lines; after the first clamp alone, its slope is the best through the lowest cost.
   */
  method FitRelative(ps: seq<Point>) returns (f: Fit)
    ensures |ps| < 2 ==> f == Fit(0.0, 0.0, 0.0)
    ensures |ps| >= 2 && AllPositive(ps) ==> f.a >= 0.0 && f.b >= 0.0
    ensures |ps| >= 2 && AllPositive(ps) && AllSameX(ps) ==> f == FitLinear(ps)
    ensures |ps| >= 2 && Unclamped(ps) ==>
              f.a == Solve(Sums(Relative(ps), |ps|)).a && f.b == Solve(Sums(Relative(ps), |ps|)).b
    ensures |ps| >= 2 && Unclamped(ps) ==>
              forall c: real, d: real :: Error(Relative(ps), |ps|, f.a, f.b) <= Error(Relative(ps), |ps|, c, d)
    ensures |ps| >= 2 && AllPositive(ps) && !AllSameX(ps) && Closed(ps).a < 0.0 && f.b > 0.0 ==>
              f.a == Min(Costs(ps)) && forall d: real :: Error(Relative(ps), |ps|, f.a, f.b) <= Error(Relative(ps), |ps|, f.a, d)
    ensures |ps| >= 2 && AllPositive(ps) && !AllSameX(ps) ==> f.r2 == RSquared(ps, f.a, f.b)
    ensures |ps| >= 2 && AllPositive(ps) && !AllSameX(ps) && Closed(ps).a >= 0.0 && Closed(ps).b < 0.0 ==>
              f.a == Median(Costs(ps)) && f.b == 0.0
  {
    if |ps| < 2 {
      return Fit(0.0, 0.0, 0.0);
    }
    var ws, ys := Relative(ps), Costs(ps);
    var m := Sums(ws, |ws|);
    if AllPositive(ps) {
      RelativeFits(ps, ws);
      CostsPositive(ps);
      if AllSameX(ps) {
        FallbackIsMean(ps);
      }
    }
    if Denominator(m) == 0.0 || m.sw == 0.0 {
      return FitLinear(ps);
    }
    var line := Solve(m);
    var a, b := line.a, line.b;
    forall c: real, d: real ensures Error(ws, |ws|, a, b) <= Error(ws, |ws|, c, d) {
      SolveIsBest(ws, c, d);
    }
    if a < 0.0 {
      a := Min(ys);
      b := if m.swxx != 0.0 then Against(ws, |ws|, a) / m.swxx else 0.0;
      if m.swxx != 0.0 {
        forall d: real ensures Error(ws, |ws|, a, b) <= Error(ws, |ws|, a, d) {
          SlopeIsBest(ws, a, b, d);
        }
      }
    }
    if b < 0.0 {
      b, a := 0.0, Median(ys);
    }
    f := Fit(a, b, RSquared(ps, a, b));
  }

  /** The closed form of the relative fit, where there is one. */
  ghost function Closed(ps: seq<Point>): Line
  {
    var m := Sums(Relative(ps), |ps|);
    if m.sw != 0.0 && Denominator(m) != 0.0 then Solve(m) else Line(0.0, 0.0)
  }

  /** With positive costs, the fit falls back exactly when no x differs. */
  lemma RelativeFits(ps: seq<Point>, ws: seq<Weighted>)
    requires |ps| >= 2 && AllPositive(ps) && ws == Relative(ps)
    ensures Sums(ws, |ws|).sw > 0.0
    ensures Denominator(Sums(ws, |ws|)) == 0.0 <==> AllSameX(ps)
  {
    DenominatorOf(ps, ws);
  }

  lemma CostsPositive(ps: seq<Point>)
    requires ps != [] && AllPositive(ps)
    ensures Min(Costs(ps)) > 0.0 && Median(Costs(ps)) > 0.0
  {
    var ys := Costs(ps);
    forall y <- ys ensures y > 0.0 {
      var i :| 0 <= i < |ys| && ys[i] == y;
    }
    MedianPositive(ys);
  }
}
