/**
 * The row-major "keep the first strictly smaller score" scan that every site
 * search of the scripts runs: visit each origin (row, col) of an n-by-m
 * origin grid, row by row, drop the origins an admission test refuses, and
 * replace the current best only when the new score is strictly smaller.
 * The score and the admission test are parameters, so each script's search
 * is one instance of this scan.
 */
module WindowScan {
  import opened Wrappers

  /** An origin of the scan: a row and a column of the origin grid. */
  datatype Pos = Pos(row: int, col: int)

  /** Row-major order: `p` is visited strictly before `q`. */
  predicate Before(p: Pos, q: Pos) {
    p.row < q.row || (p.row == q.row && p.col < q.col)
  }

  /** `q` is an origin of the n-by-m origin grid that the scan visits before it reaches `stop`. */
  predicate Visited(q: Pos, n: int, m: int, stop: Pos) {
    0 <= q.row < n && 0 <= q.col < m && Before(q, stop)
  }

  /** The position just past the last row: every origin is visited before it. */
  function End(n: nat): Pos {
    Pos(n, 0)
  }

  /**
   * `p` is the first origin, in row-major order, of minimal score among the
   * admitted origins visited before `stop`.
   */
  ghost predicate IsFirstMin(score: Pos -> real, admit: Pos -> bool, n: int, m: int, stop: Pos, p: Pos) {
    && Visited(p, n, m, stop)
    && admit(p)
    && (forall q :: Visited(q, n, m, stop) && admit(q) ==> score(p) <= score(q))
    && (forall q :: Visited(q, n, m, stop) && admit(q) && Before(q, p) ==> score(p) < score(q))
  }

  /** No origin visited before `stop` is admitted. */
  ghost predicate NoneAdmitted(admit: Pos -> bool, n: int, m: int, stop: Pos) {
    forall q :: Visited(q, n, m, stop) ==> !admit(q)
  }

  /** What the scan knows once it has reached `stop` with current best `best`. */
  ghost predicate ScanInvariant(score: Pos -> real, admit: Pos -> bool, n: int, m: int, stop: Pos, best: Option<Pos>) {
    match best
    case None => NoneAdmitted(admit, n, m, stop)
    case Some(p) => IsFirstMin(score, admit, n, m, stop, p)
  }

  /** One visit: the candidate replaces the best only when admitted and strictly better. */
  function Step(score: Pos -> real, admit: Pos -> bool, q: Pos, best: Option<Pos>): Option<Pos> {
    if admit(q) && (best.None? || score(q) < score(best.value)) then Some(q) else best
  }

  /** The origin visited after `q` in an origin grid `m` columns wide. */
  function Next(q: Pos, m: int): Pos {
    if q.col + 1 < m then Pos(q.row, q.col + 1) else Pos(q.row + 1, 0)
  }

  /** Moving from `q` to `Next(q, m)` adds exactly `q` to the visited origins. */
  lemma VisitedNext(q: Pos, n: int, m: int)
    requires 0 <= q.row < n && 0 <= q.col < m
    ensures forall p :: Visited(p, n, m, Next(q, m)) <==> Visited(p, n, m, q) || p == q
  {
  }

  /** One visit preserves the scan invariant. */
  lemma {:induction false} StepPreserves(score: Pos -> real, admit: Pos -> bool, n: int, m: int, q: Pos, best: Option<Pos>)
    requires 0 <= q.row < n && 0 <= q.col < m
    requires ScanInvariant(score, admit, n, m, q, best)
    ensures ScanInvariant(score, admit, n, m, Next(q, m), Step(score, admit, q, best))
  {
    VisitedNext(q, n, m);
    var next := Next(q, m);
    match Step(score, admit, q, best)
    case None =>
    case Some(p) =>
      if p == q {
        forall r | Visited(r, n, m, next) && admit(r)
          ensures score(p) <= score(r)
        {
          if r != q {
            assert best.Some? && IsFirstMin(score, admit, n, m, q, best.value);
          }
        }
      } else {
        assert best == Some(p);
        forall r | Visited(r, n, m, next) && admit(r) && Before(r, p)
          ensures score(p) < score(r)
        {
          assert Visited(r, n, m, q);
        }
      }
  }

  /** The scan from origin `q` on, with best-so-far `best`. */
  function ScanFrom(score: Pos -> real, admit: Pos -> bool, n: nat, m: nat, q: Pos, best: Option<Pos>): (r: Option<Pos>)
    requires m > 0 && 0 <= q.row <= n && 0 <= q.col < m && (q.row == n ==> q.col == 0)
    requires ScanInvariant(score, admit, n, m, q, best)
    ensures ScanInvariant(score, admit, n, m, End(n), r)
    decreases n - q.row, m - q.col
  {
    if q.row == n then best
    else
      StepPreserves(score, admit, n, m, q, best);
      ScanFrom(score, admit, n, m, Next(q, m), Step(score, admit, q, best))
  }

  /**
   * The whole scan over an n-by-m origin grid: absent exactly when no origin
   * is admitted, otherwise the first admitted origin of minimal score.
   */
  function FirstMin(score: Pos -> real, admit: Pos -> bool, n: nat, m: nat): (r: Option<Pos>)
    ensures r.None? <==> NoneAdmitted(admit, n, m, End(n))
    ensures r.Some? ==> IsFirstMin(score, admit, n, m, End(n), r.value)
  {
    if n == 0 || m == 0 then None
    else ScanFrom(score, admit, n, m, Pos(0, 0), None)
  }

  /** The first minimum is an admitted origin. */
  lemma FirstMinAdmitted(score: Pos -> real, admit: Pos -> bool, n: int, m: int, stop: Pos, p: Pos)
    requires IsFirstMin(score, admit, n, m, stop, p)
    ensures admit(p)
  {
  }

  /** The first minimum is unique: the scan's answer is determined by the scores and the admission test. */
  lemma FirstMinUnique(score: Pos -> real, admit: Pos -> bool, n: int, m: int, stop: Pos, p: Pos, p': Pos)
    requires IsFirstMin(score, admit, n, m, stop, p)
    requires IsFirstMin(score, admit, n, m, stop, p')
    ensures p == p'
  {
  }

  /** With `End(n)` as the stop, the visited origins are exactly the n-by-m origin grid. */
  lemma NoneAdmittedAll(admit: Pos -> bool, n: int, m: int)
    ensures NoneAdmitted(admit, n, m, End(if n < 0 then 0 else n)) <==>
      forall row, col :: 0 <= row < n && 0 <= col < m ==> !admit(Pos(row, col))
  {
    if n >= 0 {
      assert forall row, col :: 0 <= row < n && 0 <= col < m ==> Visited(Pos(row, col), n, m, End(n));
    }
  }

  /** Origins are only ever reported inside the origin grid. */
  lemma FirstMinInRange(score: Pos -> real, admit: Pos -> bool, n: nat, m: nat)
    ensures FirstMin(score, admit, n, m).Some? ==>
      var p := FirstMin(score, admit, n, m).value;
      0 <= p.row < n && 0 <= p.col < m && admit(p)
  {
  }

  /**
   * The scan as the scripts write it: two nested loops over rows and
   * columns, replacing the best on a strictly smaller admitted score.
   */
  method ScanLoops(score: Pos -> real, admit: Pos -> bool, n: nat, m: nat) returns (best: Option<Pos>)
    ensures best.None? <==> NoneAdmitted(admit, n, m, End(n))
    ensures best.Some? ==> IsFirstMin(score, admit, n, m, End(n), best.value)
    ensures best == FirstMin(score, admit, n, m)
  {
    best := None;
    var row := 0;
    while row < n
      invariant 0 <= row <= n
      invariant ScanInvariant(score, admit, n, m, Pos(row, 0), best)
    {
      var col := 0;
      while col < m
        invariant 0 <= col <= m
        invariant ScanInvariant(score, admit, n, m, Pos(row, col), best)
      {
        StepPreserves(score, admit, n, m, Pos(row, col), best);
        best := Step(score, admit, Pos(row, col), best);
        assert Next(Pos(row, col), m) == (if col + 1 < m then Pos(row, col + 1) else Pos(row + 1, 0));
        if col + 1 == m {
          assert forall p :: Visited(p, n, m, Pos(row + 1, 0)) <==> Visited(p, n, m, Pos(row, m));
        }
        col := col + 1;
      }
      assert forall p :: Visited(p, n, m, Pos(row, m)) <==> Visited(p, n, m, Pos(row + 1, 0));
      row := row + 1;
    }
    var r := FirstMin(score, admit, n, m);
    if best.Some? && r.Some? {
      FirstMinUnique(score, admit, n, m, End(n), best.value, r.value);
    }
  }
}
