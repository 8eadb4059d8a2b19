/**
 * The precedence-climbing walk of `RecursiveDescentParser.ParseInternal` with
 * its other defects repaired, so that the operator table alone decides how an
 * expression groups: the lookahead is the entry after the current one, the
 * walk starts from the first query, and the inner loop's recursive call asks
 * for the current operator's precedence plus one. Both comparisons of the
 * walk (`>=` against the minimum, `>` in the inner loop) read the table given
 * as `prec`, as they read the enum value, which is the precedence, in the
 * code. `Advance` still folds `lhs` into the new right operand, as written.
 *
 * With the code's table (`Or` 2, `And` 1) the walk binds `|` tighter than
 * `&`; with the table swapped it gives the intended evaluation, in which `&`
 * binds tighter, as it does between C#'s own `&` and `|`.
 */
module RepairedClimbing {
  import opened ColumnQueries
  import opened QueryExpressions
  import opened IntendedEvaluations

  /** The table with `&` above `|`: And 2, Or 1, anything else 0. */
  function AndFirstPrecedence(op: LogicOperator): (p: nat)
    ensures p <= 2
    ensures op == And <==> p == 2
    ensures op == Or <==> p == 1
  {
    match op
    case And => 2
    case Or => 1
    case None => 0
  }

  /**
   * The outer loop from list position `i`: while the entry there has
   * precedence at least `minimumPrecedence`, read it, let the inner loop
   * extend its right operand, and fold. Returns the value and the position
   * where the walk stops.
   */
  function ClimbFrom(es: seq<Entry>, c: DataColumn, prec: LogicOperator -> nat, i: int, lhs: bool, minimumPrecedence: nat): (r: (bool, int))
    requires 0 <= i <= |es|
    ensures i <= r.1 <= |es|
    ensures r.1 == |es| || prec(es[r.1].0) < minimumPrecedence
    decreases |es| - i, 0
  {
    if i == |es| || prec(es[i].0) < minimumPrecedence then (lhs, i)
    else
      var op := es[i].0;
      var (rhs, j) := Higher(es, c, prec, i + 1, Evaluate(op, lhs, Matches(es[i].1, c)), prec(op));
      ClimbFrom(es, c, prec, j, Evaluate(op, lhs, rhs), minimumPrecedence)
  }

  /** The inner loop: while the entry at `i` has precedence above `p`, climb from it at `p + 1`. */
  function Higher(es: seq<Entry>, c: DataColumn, prec: LogicOperator -> nat, i: int, rhs: bool, p: nat): (r: (bool, int))
    requires 0 <= i <= |es|
    ensures i <= r.1 <= |es|
    ensures r.1 == |es| || prec(es[r.1].0) <= p
    decreases |es| - i, 1
  {
    if i == |es| || prec(es[i].0) <= p then (rhs, i)
    else
      var (higher, j) := ClimbFrom(es, c, prec, i, rhs, p + 1);
      if j == i then (higher, j)
      else Higher(es, c, prec, j, higher, p)
  }

  /** `Matches` with the repaired walk over the table `prec`. */
  function RepairedEvaluation(first: TableColumnQuery, es: seq<Entry>, c: DataColumn, prec: LogicOperator -> nat): bool
  {
    if first.IsDefault() then false
    else ClimbFrom(es, c, prec, 0, Matches(first, c), 0).0
  }

  // ---------------------------------------------------------------------
  // The code's table.

  /** With `Or` above `And`, `a & b | c` reads as `a & (b | c)`. */
  lemma CodeTableBindsOrFirst(a: TableColumnQuery, b: TableColumnQuery, d: TableColumnQuery, c: DataColumn)
    requires !a.IsDefault()
    ensures RepairedEvaluation(a, [(And, b), (Or, d)], c, Precedence) == (Matches(a, c) && (Matches(b, c) || Matches(d, c)))
  {
    var es: seq<Entry> := [(And, b), (Or, d)];
    var (ma, mb, md) := (Matches(a, c), Matches(b, c), Matches(d, c));
    var inner := (ma && mb) || md;
    assert Higher(es, c, Precedence, 2, inner, 2) == (inner, 2);
    assert ClimbFrom(es, c, Precedence, 1, ma && mb, 2) == (inner, 2);
    assert Higher(es, c, Precedence, 1, ma && mb, 1) == (inner, 2);
    assert ClimbFrom(es, c, Precedence, 0, ma, 0) == (ma && inner, 2);
  }

  /**
   * The two readings differ: with `a` and `b` matching nothing and `d`
   * matching everything, the code's table rejects a column that
   * `(a & b) | d` accepts.
   */
  lemma CodeTableDisagrees(c: DataColumn)
    ensures var (no, yes) := (ByPredicate(_ => false), ByPredicate(_ => true));
            !RepairedEvaluation(no, [(And, no), (Or, yes)], c, Precedence) &&
            IntendedEvaluation(no, [(And, no), (Or, yes)], c)
  {
    var (no, yes) := (ByPredicate(_ => false), ByPredicate(_ => true));
    CodeTableBindsOrFirst(no, no, yes, c);
    IntendedPrecedence(no, no, yes, c);
  }

  // ---------------------------------------------------------------------
  // The swapped table gives the intended evaluation.

  /** Folds a run of `And` entries from `i` into `acc`, stopping at the next `Or` or the end. */
  function AndRun(es: seq<Entry>, c: DataColumn, i: int, acc: bool): (r: (bool, int))
    requires 0 <= i <= |es|
    ensures i <= r.1 <= |es|
    ensures r.1 == |es| || es[r.1].0 == Or
    decreases |es| - i
  {
    if i == |es| || es[i].0 == Or then (acc, i)
    else AndRun(es, c, i + 1, Evaluate(es[i].0, acc, Matches(es[i].1, c)))
  }

  /** A run of `And`s conjoins `acc` with the run's own matches, and where it ends does not depend on `acc`. */
  lemma {:induction false} AndRunConjoins(es: seq<Entry>, c: DataColumn, i: int, acc: bool)
    requires Joined(es) && 0 <= i <= |es|
    ensures AndRun(es, c, i, acc) == (acc && AndRun(es, c, i, true).0, AndRun(es, c, i, true).1)
    decreases |es| - i
  {
    if i < |es| && es[i].0 != Or {
      var m := Matches(es[i].1, c);
      AndRunConjoins(es, c, i + 1, acc && m);
      AndRunConjoins(es, c, i + 1, m);
    }
  }

  /** After an `And` (precedence 2) the inner loop has nothing above it. */
  lemma HigherAfterAnd(es: seq<Entry>, c: DataColumn, i: int, rhs: bool)
    requires 0 <= i <= |es|
    ensures Higher(es, c, AndFirstPrecedence, i, rhs, 2) == (rhs, i)
  {
  }

  /** Climbing at precedence 2 reads exactly the run of `And`s. */
  lemma {:induction false} ClimbReadsAndRun(es: seq<Entry>, c: DataColumn, i: int, lhs: bool)
    requires Joined(es) && 0 <= i <= |es|
    ensures ClimbFrom(es, c, AndFirstPrecedence, i, lhs, 2) == AndRun(es, c, i, lhs)
    decreases |es| - i
  {
    if i < |es| && es[i].0 != Or {
      var m := Matches(es[i].1, c);
      assert es[i].0 == And;
      HigherAfterAnd(es, c, i + 1, lhs && m);
      ClimbReadsAndRun(es, c, i + 1, lhs && m);
    }
  }

  /** After an `Or` (precedence 1) the inner loop takes the following run of `And`s. */
  lemma HigherAfterOr(es: seq<Entry>, c: DataColumn, i: int, rhs: bool)
    requires Joined(es) && 0 <= i <= |es|
    ensures Higher(es, c, AndFirstPrecedence, i, rhs, 1) == AndRun(es, c, i, rhs)
  {
    if i < |es| && es[i].0 != Or {
      assert es[i].0 == And;
      ClimbReadsAndRun(es, c, i, rhs);
      var (g, j) := AndRun(es, c, i, rhs);
      assert AndRun(es, c, i, rhs) == AndRun(es, c, i + 1, rhs && Matches(es[i].1, c));
      assert Higher(es, c, AndFirstPrecedence, j, g, 1) == (g, j);
    }
  }

  /** The scan over a run of `And`s folds them into the open group. */
  lemma {:induction false} ScanReadsAndRun(es: seq<Entry>, c: DataColumn, i: int, closed: bool, open: bool)
    requires Joined(es) && 0 <= i <= |es|
    ensures var (g, j) := AndRun(es, c, i, open);
            Run(es[i..], c, Scan(closed, open)) == Run(es[j..], c, Scan(closed, g))
    decreases |es| - i
  {
    if i < |es| && es[i].0 != Or {
      assert es[i..][1..] == es[i + 1..];
      ScanReadsAndRun(es, c, i + 1, closed, Evaluate(es[i].0, open, Matches(es[i].1, c)));
    }
  }

  /** The overall result of a scan: some group closed or the open one matched. */
  function Final(s: Scan): bool { s.closed || s.open }

  /** At the end or before an `Or`, the closed groups and the open one may be merged. */
  lemma ScanAtBoundary(es: seq<Entry>, c: DataColumn, j: int, closed: bool, open: bool)
    requires 0 <= j <= |es| && (j == |es| || es[j].0 == Or)
    ensures Final(Run(es[j..], c, Scan(closed, open))) == Final(Run(es[j..], c, Scan(false, closed || open)))
  {
    if j < |es| {
      assert Step(Scan(closed, open), es[j], c) == Step(Scan(false, closed || open), es[j], c);
    }
  }

  /** At precedence 0 the repaired walk with the swapped table computes what the scan computes. */
  lemma {:induction false} TopLevelIsScan(es: seq<Entry>, c: DataColumn, i: int, lhs: bool)
    requires Joined(es) && 0 <= i <= |es|
    ensures ClimbFrom(es, c, AndFirstPrecedence, i, lhs, 0).0 == Final(Run(es[i..], c, Scan(false, lhs)))
    decreases |es| - i
  {
    if i < |es| {
      var m := Matches(es[i].1, c);
      assert es[i..][1..] == es[i + 1..];
      if es[i].0 == And {
        HigherAfterAnd(es, c, i + 1, lhs && m);
        TopLevelIsScan(es, c, i + 1, lhs && m);
      } else {
        assert es[i].0 == Or;
        HigherAfterOr(es, c, i + 1, lhs || m);
        AndRunConjoins(es, c, i + 1, lhs || m);
        AndRunConjoins(es, c, i + 1, m);
        var (g, j) := AndRun(es, c, i + 1, lhs || m);
        var (h, _) := AndRun(es, c, i + 1, m);
        TopLevelIsScan(es, c, j, lhs || g);
        ScanReadsAndRun(es, c, i + 1, lhs, m);
        ScanAtBoundary(es, c, j, lhs, h);
        assert (lhs || g) == (lhs || h);
      }
    }
  }

  /** With `&` above `|`, the repaired walk evaluates every expression of `&` and `|` as intended. */
  lemma AndFirstTableIsIntended(first: TableColumnQuery, es: seq<Entry>, c: DataColumn)
    requires Joined(es)
    ensures RepairedEvaluation(first, es, c, AndFirstPrecedence) == IntendedEvaluation(first, es, c)
  {
    if !first.IsDefault() {
      TopLevelIsScan(es, c, 0, Matches(first, c));
      assert es[0..] == es;
    }
  }
}
