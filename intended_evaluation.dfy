/**
 * The evaluation a `TableColumnQueryExpression` is meant to have. The
 * expression is built with C#'s `&` and `|` operators, and C# gives `&` the
 * higher precedence, so `a & b | c` groups as `(a & b) | c`; the parser's own
 * precedence table says the opposite (see `RepairedClimbing`). Here `&` binds
 * tighter than `|`, both associate to the left, and every query, the first
 * included, is matched against the column. Equivalently, the expression
 * splits at its `|` operators into groups, and it matches a column when
 * every query of some group does.
 */
module IntendedEvaluations {
  import opened ColumnQueries
  import opened QueryExpressions

  /** The state of a left-to-right scan: the groups closed so far, and the open one. */
  datatype Scan = Scan(closed: bool, open: bool)

  /** Reads one entry: an `Or` closes the open group, any other operator folds into it. */
  function Step(s: Scan, e: Entry, c: DataColumn): Scan
  {
    if e.0 == Or then Scan(s.closed || s.open, Matches(e.1, c))
    else Scan(s.closed, Evaluate(e.0, s.open, Matches(e.1, c)))
  }

  /** Reads the entries from left to right, as the parser walks them. */
  function Run(es: seq<Entry>, c: DataColumn, s: Scan): Scan
    decreases |es|
  {
    if es == [] then s else Run(es[1..], c, Step(s, es[0], c))
  }

  /** `Matches` as intended: an empty expression matches nothing. */
  function IntendedEvaluation(first: TableColumnQuery, es: seq<Entry>, c: DataColumn): bool
  {
    if first.IsDefault() then false
    else
      var s := Run(es, c, Scan(false, Matches(first, c)));
      s.closed || s.open
  }

  /** Reading one more entry after a list is one more step. */
  lemma {:induction false} RunSnoc(es: seq<Entry>, e: Entry, c: DataColumn, s: Scan)
    ensures Run(es + [e], c, s) == Step(Run(es, c, s), e, c)
    decreases |es|
  {
    if es == [] {
      assert [e][1..] == [];
    } else {
      assert (es + [e])[1..] == es[1..] + [e];
      RunSnoc(es[1..], e, c, Step(s, es[0], c));
    }
  }

  // ---------------------------------------------------------------------
  // The reference reading: a disjunction of conjunctive groups.

  /** Every operator is `And` or `Or`, which is all `&` and `|` produce. */
  predicate Joined(es: seq<Entry>)
  {
    forall k :: 0 <= k < |es| ==> es[k].0 != LogicOperator.None
  }

  /** The queries of the expression, split before every `Or`: each group is non-empty. */
  function Groups(first: TableColumnQuery, es: seq<Entry>): (gs: seq<seq<TableColumnQuery>>)
    ensures |gs| > 0
    decreases |es|
  {
    if es == [] then [[first]]
    else
      var gs := Groups(first, es[..|es| - 1]);
      var e := es[|es| - 1];
      if e.0 == Or then gs + [[e.1]]
      else gs[..|gs| - 1] + [gs[|gs| - 1] + [e.1]]
  }

  /** Every query of the group matches the column. */
  predicate AllMatch(qs: seq<TableColumnQuery>, c: DataColumn)
  {
    forall j :: 0 <= j < |qs| ==> Matches(qs[j], c)
  }

  /** Some group matches the column. */
  predicate SomeGroupMatches(gs: seq<seq<TableColumnQuery>>, c: DataColumn)
  {
    exists i :: 0 <= i < |gs| && AllMatch(gs[i], c)
  }

  /** The queries of a list, in order. */
  function Queries(es: seq<Entry>): (qs: seq<TableColumnQuery>)
    ensures |qs| == |es|
    decreases |es|
  {
    if es == [] then [] else Queries(es[..|es| - 1]) + [es[|es| - 1].1]
  }

  /** All the groups put back together. */
  function Flatten(gs: seq<seq<TableColumnQuery>>): seq<TableColumnQuery>
    decreases |gs|
  {
    if gs == [] then [] else Flatten(gs[..|gs| - 1]) + gs[|gs| - 1]
  }

  lemma FlattenSnoc(gs: seq<seq<TableColumnQuery>>, g: seq<TableColumnQuery>)
    ensures Flatten(gs + [g]) == Flatten(gs) + g
  {
    assert (gs + [g])[..|gs|] == gs;
  }

  /** The groups partition the queries: read in order, they give every query once. */
  lemma {:induction false} GroupsPartition(first: TableColumnQuery, es: seq<Entry>)
    ensures Flatten(Groups(first, es)) == [first] + Queries(es)
    decreases |es|
  {
    if es == [] {
      assert Flatten([[first]]) == Flatten([]) + [first];
    } else {
      var front := es[..|es| - 1];
      var e := es[|es| - 1];
      var gs := Groups(first, front);
      GroupsPartition(first, front);
      if e.0 == Or {
        assert Groups(first, es) == gs + [[e.1]];
        FlattenSnoc(gs, [e.1]);
      } else {
        var n := |gs| - 1;
        assert gs == gs[..n] + [gs[n]];
        assert Groups(first, es) == gs[..n] + [gs[n] + [e.1]];
        FlattenSnoc(gs[..n], gs[n]);
        FlattenSnoc(gs[..n], gs[n] + [e.1]);
        assert Flatten(gs[..n]) + (gs[n] + [e.1]) == (Flatten(gs[..n]) + gs[n]) + [e.1];
      }
    }
  }

  /** Some group of `gs + [g]` matches exactly when one of `gs` does or `g` does. */
  lemma SomeGroupMatchesSnoc(gs: seq<seq<TableColumnQuery>>, g: seq<TableColumnQuery>, c: DataColumn)
    ensures SomeGroupMatches(gs + [g], c) == (SomeGroupMatches(gs, c) || AllMatch(g, c))
  {
    var gs' := gs + [g];
    if SomeGroupMatches(gs', c) {
      var i :| 0 <= i < |gs'| && AllMatch(gs'[i], c);
      if i < |gs| {
        assert gs[i] == gs'[i];
      }
    }
    if SomeGroupMatches(gs, c) {
      var i :| 0 <= i < |gs| && AllMatch(gs[i], c);
      assert gs'[i] == gs[i];
    }
    if AllMatch(g, c) {
      assert gs'[|gs|] == g;
    }
  }

  /** The groups a scan has seen, split into the closed ones and the open one. */
  predicate Tracks(s: Scan, gs: seq<seq<TableColumnQuery>>, c: DataColumn)
    requires |gs| > 0
  {
    s.closed == SomeGroupMatches(gs[..|gs| - 1], c) && s.open == AllMatch(gs[|gs| - 1], c)
  }

  /** An `Or` step closes the open group and opens one holding its query. */
  lemma StepOrTracks(s: Scan, gs: seq<seq<TableColumnQuery>>, q: TableColumnQuery, c: DataColumn)
    requires |gs| > 0 && Tracks(s, gs, c)
    ensures Tracks(Step(s, (Or, q), c), gs + [[q]], c)
  {
    var n := |gs| - 1;
    assert gs == gs[..n] + [gs[n]];
    assert (gs + [[q]])[..|gs|] == gs;
    assert AllMatch([q], c) == Matches(q, c) by {
      assert [q][0] == q;
    }
    SomeGroupMatchesSnoc(gs[..n], gs[n], c);
  }

  /** An `And` step adds its query to the open group. */
  lemma StepAndTracks(s: Scan, gs: seq<seq<TableColumnQuery>>, q: TableColumnQuery, c: DataColumn)
    requires |gs| > 0 && Tracks(s, gs, c)
    ensures var n := |gs| - 1; Tracks(Step(s, (And, q), c), gs[..n] + [gs[n] + [q]], c)
  {
    var n := |gs| - 1;
    var g := gs[n] + [q];
    assert (gs[..n] + [g])[..n] == gs[..n];
    assert forall j :: 0 <= j < |gs[n]| ==> g[j] == gs[n][j];
    assert g[|gs[n]|] == q;
    assert AllMatch(g, c) == (AllMatch(gs[n], c) && Matches(q, c));
  }

  /** Scanning a joined list keeps the closed groups' disjunction and the open group's conjunction. */
  lemma {:induction false} RunTracksGroups(first: TableColumnQuery, es: seq<Entry>, c: DataColumn)
    requires Joined(es)
    ensures Tracks(Run(es, c, Scan(false, Matches(first, c))), Groups(first, es), c)
    decreases |es|
  {
    var s0 := Scan(false, Matches(first, c));
    if es == [] {
      assert Groups(first, es) == [[first]];
      assert AllMatch([first], c) == Matches(first, c) by {
        assert [first][0] == first;
      }
      assert !SomeGroupMatches([], c);
    } else {
      var front := es[..|es| - 1];
      var e := es[|es| - 1];
      assert es == front + [e];
      assert Joined(front) by {
        forall k | 0 <= k < |front| ensures front[k].0 != LogicOperator.None {
          assert front[k] == es[k];
        }
      }
      RunTracksGroups(first, front, c);
      RunSnoc(front, e, c, s0);
      var gs := Groups(first, front);
      var s := Run(front, c, s0);
      if e.0 == Or {
        StepOrTracks(s, gs, e.1, c);
      } else {
        assert e == (And, e.1);
        StepAndTracks(s, gs, e.1, c);
      }
    }
  }

  /** The intended evaluation is the disjunction of the conjunctive groups. */
  lemma IntendedIsSomeGroup(first: TableColumnQuery, es: seq<Entry>, c: DataColumn)
    requires !first.IsDefault() && Joined(es)
    ensures IntendedEvaluation(first, es, c) == SomeGroupMatches(Groups(first, es), c)
  {
    var gs := Groups(first, es);
    RunTracksGroups(first, es, c);
    assert gs == gs[..|gs| - 1] + [gs[|gs| - 1]];
    SomeGroupMatchesSnoc(gs[..|gs| - 1], gs[|gs| - 1], c);
  }

  // ---------------------------------------------------------------------
  // Small expressions.

  /** Wrapping a query is a no-op. */
  lemma IntendedSingleQuery(q: TableColumnQuery, c: DataColumn)
    ensures IntendedEvaluation(q, [], c) == Matches(q, c)
  {
  }

  /** Two queries: `&` is conjunction and `|` disjunction. */
  lemma IntendedTwoQueries(a: TableColumnQuery, b: TableColumnQuery, c: DataColumn)
    requires !a.IsDefault()
    ensures IntendedEvaluation(a, [(And, b)], c) == (Matches(a, c) && Matches(b, c))
    ensures IntendedEvaluation(a, [(Or, b)], c) == (Matches(a, c) || Matches(b, c))
  {
    var (ma, mb) := (Matches(a, c), Matches(b, c));
    assert Run([(And, b)], c, Scan(false, ma)) == Run([], c, Scan(false, ma && mb));
    assert Run([(Or, b)], c, Scan(false, ma)) == Run([], c, Scan(ma, mb));
  }

  /** `&` binds tighter than `|`, on whichever side. */
  lemma IntendedPrecedence(a: TableColumnQuery, b: TableColumnQuery, d: TableColumnQuery, c: DataColumn)
    requires !a.IsDefault()
    ensures IntendedEvaluation(a, [(Or, b), (And, d)], c) == (Matches(a, c) || (Matches(b, c) && Matches(d, c)))
    ensures IntendedEvaluation(a, [(And, b), (Or, d)], c) == ((Matches(a, c) && Matches(b, c)) || Matches(d, c))
  {
    var (ma, mb, md) := (Matches(a, c), Matches(b, c), Matches(d, c));
    assert Run([(And, d)], c, Scan(ma, mb)) == Run([], c, Scan(ma, mb && md));
    assert Run([(Or, b), (And, d)], c, Scan(false, ma)) == Run([(And, d)], c, Scan(ma, mb));
    assert Run([(Or, d)], c, Scan(false, ma && mb)) == Run([], c, Scan(ma && mb, md));
    assert Run([(And, b), (Or, d)], c, Scan(false, ma)) == Run([(Or, d)], c, Scan(false, ma && mb));
  }
}
