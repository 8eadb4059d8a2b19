/**
 * `TableColumnQueryExpression`: a first query followed by a flat list of
 * (operator, query) pairs kept in an append-only array, combined with `&`
 * and `|` by splicing, and evaluated by a precedence-climbing parser that
 * walks the list with an `Enumerator`.
 *
 * The evaluator is modelled as written. Its calls end in one of three ways
 * (see `Wrappers.Outcome`): a value, an `IndexOutOfRangeException`, or an
 * endless loop. Loops that may not terminate get a `fuel` budget; a method
 * that runs out of budget answers `Diverges`, and its contract shows that it
 * answers `Diverges` for every budget exactly when the original spins.
 */
module QueryExpressions {
  import opened Wrappers
  import opened ColumnQueries
  import A = AppendOnlyArrays

  /** One element of the list: the operator joining a query to what precedes it. */
  type Entry = (LogicOperator, TableColumnQuery)

  datatype TableColumnQueryExpression =
    TableColumnQueryExpression(queryFirst: TableColumnQuery, queriesWithOperators: A.ImmutableAppendOnlyArray<Entry>)

  ghost predicate Valid(e: TableColumnQueryExpression)
    reads e.queriesWithOperators.source
  {
    A.Valid(e.queriesWithOperators)
  }

  /** The (operator, query) pairs after the first query. */
  function Tail(e: TableColumnQueryExpression): seq<Entry>
    reads e.queriesWithOperators.source, A.Footprint(e.queriesWithOperators)
    requires Valid(e)
  {
    A.AsSpan(e.queriesWithOperators)
  }

  /** Wrapping a single query (the implicit conversion): an empty list follows it. */
  function FromQuery(query: TableColumnQuery): (e: TableColumnQueryExpression)
    ensures Valid(e) && e.queryFirst == query && Tail(e) == []
  {
    TableColumnQueryExpression(query, A.Empty())
  }

  /**
   * Two views whose stores differ do not share an array. Every store
   * allocates its own arrays, so this always holds of views the program
   * builds; the model states it because it does not track array ownership.
   */
  ghost predicate Separate(a: A.ImmutableAppendOnlyArray<Entry>, b: A.ImmutableAppendOnlyArray<Entry>)
    reads a.source, b.source
  {
    a.source == null || b.source == null || a.source == b.source ||
    a.source.buffer == null || a.source.buffer != b.source.buffer
  }

  /**
   * `Append(op, query)`: the single-query expression `query` when the receiver
   * is empty, otherwise the receiver's first query with `(op, query)` added
   * to its list (through `Add`, so a stale list is copied whole).
   */
  method Append(e: TableColumnQueryExpression, op: LogicOperator, query: TableColumnQuery)
    returns (r: TableColumnQueryExpression)
    requires Valid(e)
    modifies A.Footprint(e.queriesWithOperators)
    ensures Valid(e) && Valid(r)
    ensures Tail(e) == old(Tail(e))
    ensures e.queryFirst.IsDefault() ==> r == FromQuery(query)
    ensures !e.queryFirst.IsDefault() ==>
              r.queryFirst == e.queryFirst &&
              Tail(r) == old(A.Committed(e.queriesWithOperators)) + [(op, query)]
  {
    if e.queryFirst.IsDefault() {
      return FromQuery(query);
    }
    var tail := A.Add(e.queriesWithOperators, (op, query));
    return TableColumnQueryExpression(e.queryFirst, tail);
  }

  /**
   * `Concat(op, rhs)`: an empty receiver yields `rhs`, an empty `rhs` yields
   * the receiver; otherwise the receiver's first query, followed by what the
   * receiver's store has committed, then `(op, rhs.queryFirst)`, then `rhs`'s
   * own list. Neither operand reads differently afterwards.
   */
  method Concat(e: TableColumnQueryExpression, op: LogicOperator, rhs: TableColumnQueryExpression)
    returns (r: TableColumnQueryExpression)
    requires Valid(e) && Valid(rhs)
    requires Separate(e.queriesWithOperators, rhs.queriesWithOperators)
    modifies A.Footprint(e.queriesWithOperators)
    ensures Valid(e) && Valid(rhs) && Valid(r)
    ensures Tail(e) == old(Tail(e)) && Tail(rhs) == old(Tail(rhs))
    ensures e.queryFirst.IsDefault() ==> r == rhs
    ensures !e.queryFirst.IsDefault() && rhs.queryFirst.IsDefault() ==> r == e
    ensures !e.queryFirst.IsDefault() && !rhs.queryFirst.IsDefault() ==>
              r.queryFirst == e.queryFirst && A.IsCurrent(r.queriesWithOperators) &&
              Tail(r) == old(A.Committed(e.queriesWithOperators)) + [(op, rhs.queryFirst)] + old(Tail(rhs)) &&
              fresh(A.Footprint(r.queriesWithOperators) - old(A.Footprint(e.queriesWithOperators)))
  {
    if e.queryFirst.IsDefault() {
      return rhs;
    }
    if rhs.queryFirst.IsDefault() {
      return e;
    }
    var tail := Splice(e.queriesWithOperators, (op, rhs.queryFirst), rhs.queriesWithOperators);
    return TableColumnQueryExpression(e.queryFirst, tail);
  }

  /**
   * `a.Add(x).AddRange(b)`: the list of a combined expression. Both `a` and
   * `b` keep reading what they read before.
   */
  method Splice(a: A.ImmutableAppendOnlyArray<Entry>, x: Entry, b: A.ImmutableAppendOnlyArray<Entry>)
    returns (r: A.ImmutableAppendOnlyArray<Entry>)
    requires A.Valid(a) && A.Valid(b) && Separate(a, b)
    modifies A.Footprint(a)
    ensures A.Valid(a) && A.Valid(b) && A.Valid(r)
    ensures A.AsSpan(a) == old(A.AsSpan(a)) && A.AsSpan(b) == old(A.AsSpan(b))
    ensures A.AsSpan(r) == old(A.Committed(a)) + [x] + old(A.AsSpan(b))
    ensures A.IsCurrent(r)
    ensures fresh(A.Footprint(r) - old(A.Footprint(a)))
  {
    var extended := AddBeside(a, x, b);
    label Extended:
    r := AddView(extended, b);
    if a.source != null && extended.source == a.source {
      A.ViewOnGrownStore@Extended(a);
    } else if a.source != null {
      assert unchanged@Extended(a.source);
      assert a.source.buffer != null ==> unchanged@Extended(a.source.buffer);
    }
  }

  /** `a.Add(x)`, seen from a view `b` on another store or on the same one: `b` reads the same. */
  method AddBeside(a: A.ImmutableAppendOnlyArray<Entry>, x: Entry, b: A.ImmutableAppendOnlyArray<Entry>)
    returns (r: A.ImmutableAppendOnlyArray<Entry>)
    requires A.Valid(a) && A.Valid(b) && Separate(a, b)
    modifies A.Footprint(a)
    ensures A.Valid(a) && A.Valid(b) && A.Valid(r)
    ensures A.IsCurrent(r) && Separate(r, b)
    ensures A.AsSpan(r) == old(A.Committed(a)) + [x]
    ensures A.AsSpan(a) == old(A.AsSpan(a)) && A.AsSpan(b) == old(A.AsSpan(b))
    ensures a.source != null && r.source == a.source ==> old(A.Committed(a)) <= A.Committed(a)
    ensures a.source != null && r.source != a.source ==> unchanged(a.source)
    ensures r.source != a.source ==> fresh(r.source) && r.source.buffer != null && fresh(r.source.buffer)
    ensures fresh(A.Footprint(r) - old(A.Footprint(a)))
  {
    r := A.Add(a, x);
    if b.source != null && b.source == a.source {
      A.ViewOnGrownStore(b);
    }
  }

  /**
   * `e.AddRange(b)` for a current view `e`: `e` extended in place by what `b`
   * reads; `b`, and every view on `e`'s store, keeps reading the same.
   */
  method AddView(e: A.ImmutableAppendOnlyArray<Entry>, b: A.ImmutableAppendOnlyArray<Entry>)
    returns (r: A.ImmutableAppendOnlyArray<Entry>)
    requires A.Valid(e) && A.Valid(b) && Separate(e, b) && A.IsCurrent(e)
    modifies A.Footprint(e)
    ensures A.Valid(b) && A.Valid(r)
    ensures A.AsSpan(b) == old(A.AsSpan(b))
    ensures A.AsSpan(r) == old(A.AsSpan(e)) + old(A.AsSpan(b))
    ensures A.IsCurrent(r)
    ensures A.Valid(e) && (e.source != null ==> old(A.Committed(e)) <= A.Committed(e))
    ensures fresh(A.Footprint(r) - old(A.Footprint(e)))
  {
    var shared := b.source != null && b.source == e.source;
    ghost var before := A.Footprint(e);
    A.CurrentViewReadsAllCommitted(e);
    var values := A.AsSpan(b);
    r := A.AddRange(e, values);
    if shared {
      A.ViewOnGrownStore(b);
    }
    assert fresh(A.Footprint(r) - before);
  }

  /** `left & right`. */
  method BitwiseAnd(left: TableColumnQueryExpression, right: TableColumnQueryExpression)
    returns (r: TableColumnQueryExpression)
    requires Valid(left) && Valid(right)
    requires Separate(left.queriesWithOperators, right.queriesWithOperators)
    modifies A.Footprint(left.queriesWithOperators)
    ensures Valid(left) && Valid(right) && Valid(r)
    ensures Tail(left) == old(Tail(left)) && Tail(right) == old(Tail(right))
    ensures left.queryFirst.IsDefault() ==> r == right
    ensures !left.queryFirst.IsDefault() && right.queryFirst.IsDefault() ==> r == left
    ensures !left.queryFirst.IsDefault() && !right.queryFirst.IsDefault() ==>
              r.queryFirst == left.queryFirst && A.IsCurrent(r.queriesWithOperators) &&
              Tail(r) == old(A.Committed(left.queriesWithOperators)) + [(And, right.queryFirst)] + old(Tail(right)) &&
              fresh(A.Footprint(r.queriesWithOperators) - old(A.Footprint(left.queriesWithOperators)))
  {
    r := Concat(left, And, right);
  }

  /** `left | right`. */
  method BitwiseOr(left: TableColumnQueryExpression, right: TableColumnQueryExpression)
    returns (r: TableColumnQueryExpression)
    requires Valid(left) && Valid(right)
    requires Separate(left.queriesWithOperators, right.queriesWithOperators)
    modifies A.Footprint(left.queriesWithOperators)
    ensures Valid(left) && Valid(right) && Valid(r)
    ensures Tail(left) == old(Tail(left)) && Tail(right) == old(Tail(right))
    ensures left.queryFirst.IsDefault() ==> r == right
    ensures !left.queryFirst.IsDefault() && right.queryFirst.IsDefault() ==> r == left
    ensures !left.queryFirst.IsDefault() && !right.queryFirst.IsDefault() ==>
              r.queryFirst == left.queryFirst && A.IsCurrent(r.queriesWithOperators) &&
              Tail(r) == old(A.Committed(left.queriesWithOperators)) + [(Or, right.queryFirst)] + old(Tail(right)) &&
              fresh(A.Footprint(r.queriesWithOperators) - old(A.Footprint(left.queriesWithOperators)))
  {
    r := Concat(left, Or, right);
  }

  // ---------------------------------------------------------------------
  // The enumerator, on values: position -1 is the first query, position
  // i >= 0 is entry i of the list.

  /** `PeekNext` at position `i`: the entry AT `i` (not after it), if there is one. */
  function PeekAt(first: TableColumnQuery, es: seq<Entry>, i: int): (r: Option<Entry>)
    requires -1 <= i <= |es|
    ensures r.Some? <==> (if i == -1 then !first.IsDefault() else i < |es|)
  {
    if i == -1 then (if first.IsDefault() then Option.None else Some((LogicOperator.None, first)))
    else if i < |es| then Some(es[i])
    else Option.None
  }

  /** `Current` at position `i`: past the end it raises `IndexOutOfRangeException`. */
  function CurrentAt(first: TableColumnQuery, es: seq<Entry>, i: int): (r: Outcome<Entry>)
    requires -1 <= i
    ensures r.Done? <==> i < |es|
    ensures r.Diverges? == false
  {
    if i == -1 then Done((LogicOperator.None, first))
    else if i < |es| then Done(es[i])
    else IndexOutOfRange
  }

  /** `PeekNext` looks at the same slot as `Current`. */
  lemma PeekNextIsCurrent(first: TableColumnQuery, es: seq<Entry>, i: int)
    requires -1 <= i <= |es|
    requires PeekAt(first, es, i).Some?
    ensures CurrentAt(first, es, i) == Done(PeekAt(first, es, i).value)
  {
  }

  class Enumerator {
    const queryFirst: TableColumnQuery
    const queriesWithOperators: A.ImmutableAppendOnlyArray<Entry>
    var index: int

    ghost predicate Valid()
      reads this, queriesWithOperators.source
    {
      A.Valid(queriesWithOperators) && -1 <= index <= queriesWithOperators.length
    }

    function Entries(): (es: seq<Entry>)
      reads queriesWithOperators.source, A.Footprint(queriesWithOperators)
      requires A.Valid(queriesWithOperators)
      ensures |es| == queriesWithOperators.length
    {
      A.AsSpan(queriesWithOperators)
    }

    constructor (first: TableColumnQuery, tail: A.ImmutableAppendOnlyArray<Entry>)
      requires A.Valid(tail)
      ensures Valid()
      ensures queryFirst == first && queriesWithOperators == tail && index == -1
    {
      queryFirst := first;
      queriesWithOperators := tail;
      index := -1;
    }

    function Current(): (r: Outcome<Entry>)
      reads this, queriesWithOperators.source, A.Footprint(queriesWithOperators)
      requires Valid()
    {
      CurrentAt(queryFirst, Entries(), index)
    }

    function PeekNext(): (r: Option<Entry>)
      reads this, queriesWithOperators.source, A.Footprint(queriesWithOperators)
      requires Valid()
    {
      PeekAt(queryFirst, Entries(), index)
    }

    /**
     * From -1 to 0, answering whether the first query is present; from
     * i < Length to i + 1, answering true; at Length it stays and answers false.
     */
    method MoveNext() returns (moved: bool)
      requires Valid()
      modifies this`index
      ensures Valid()
      ensures moved == old(PeekNext()).Some?
      ensures old(index) == -1 ==> index == 0 && moved == !queryFirst.IsDefault()
      ensures 0 <= old(index) < |Entries()| ==> index == old(index) + 1 && moved
      ensures old(index) == |Entries()| ==> index == old(index) && !moved
    {
      if index == -1 {
        index := 0;
        return !queryFirst.IsDefault();
      }
      if index < queriesWithOperators.length {
        index := index + 1;
        return true;
      }
      return false;
    }
  }

  // ---------------------------------------------------------------------
  // The parser, specified by `Climb`.

  /**
   * What `ParseInternal(lhs, p)` does from position `i`, with the nested loop
   * resolved: while the entry at `i` is present and binds at least `p`, it
   * moves to `i + 1` (raising past the end); if the entry there has a larger
   * operator the inner loop's recursive call returns at once without moving,
   * so the inner loop never ends; otherwise the two results are folded and the
   * walk goes on from `i + 1`. The result carries the final position.
   */
  function Climb(first: TableColumnQuery, es: seq<Entry>, c: DataColumn, i: int, lhs: bool, p: int)
    : (r: Outcome<(bool, int)>)
    requires -1 <= i <= |es|
    ensures r.Done? ==> i <= r.value.1 <= |es|
    decreases |es| - i
  {
    match PeekAt(first, es, i)
    case None => Done((lhs, i))
    case Some(lookahead) =>
      if Precedence(lookahead.0) < p then Done((lhs, i))
      else if i + 1 == |es| then IndexOutOfRange
      else if Rank(es[i + 1].0) > Rank(lookahead.0) then Diverges
      else
        var rhs := Evaluate(es[i + 1].0, lhs, Matches(es[i + 1].1, c));
        Climb(first, es, c, i + 1, Evaluate(lookahead.0, lhs, rhs), p)
  }

  /** The inner loop's recursive call returns its `lhs` at once: the entry it starts on binds too weakly. */
  lemma ClimbStaysBelowLookahead(first: TableColumnQuery, es: seq<Entry>, c: DataColumn, i: int, lhs: bool)
    requires 0 <= i < |es|
    ensures Climb(first, es, c, i, lhs, Precedence(es[i].0) + 1) == Done((lhs, i))
  {
    assert PeekAt(first, es, i) == Some(es[i]);
  }

  /** The position of a result, forgotten. */
  function ValueOf(r: Outcome<(bool, int)>): (v: Outcome<bool>)
    ensures v.Done? <==> r.Done?
    ensures v.Diverges? <==> r.Diverges?
    ensures r.Done? ==> v.value == r.value.0
  {
    match r
    case Done((b, _)) => Done(b)
    case IndexOutOfRange => IndexOutOfRange
    case Diverges => Diverges
  }

  class RecursiveDescentParser {
    const source: Enumerator
    const dataColumn: DataColumn

    ghost predicate Valid()
      reads source, source.queriesWithOperators.source
    {
      source.Valid()
    }

    constructor (enumerator: Enumerator, column: DataColumn)
      ensures source == enumerator && dataColumn == column
    {
      source := enumerator;
      dataColumn := column;
    }

    /** The list the parser walks (its store is never written while parsing). */
    function Entries(): seq<Entry>
      reads source.queriesWithOperators.source, A.Footprint(source.queriesWithOperators)
      requires A.Valid(source.queriesWithOperators)
    {
      source.Entries()
    }

    /**
     * Moves to the next position and folds its entry into `lhs`; past the end
     * reading `Current` raises. The caller must know a move is possible
     * (a debug assertion in the original).
     */
    method Advance(lhs: bool) returns (r: Outcome<bool>)
      requires Valid()
      requires source.PeekNext().Some?
      modifies source`index
      ensures Valid()
      ensures source.index == old(source.index) + 1
      ensures source.index < |Entries()| ==>
                r == Done(Evaluate(Entries()[source.index].0, lhs, Matches(Entries()[source.index].1, dataColumn)))
      ensures source.index == |Entries()| ==> r == IndexOutOfRange
    {
      var moved := source.MoveNext();
      assert moved;
      var current := source.Current();
      if !current.Done? {
        return IndexOutOfRange;
      }
      var (op, query) := current.value;
      r := Done(Evaluate(op, lhs, Matches(query, dataColumn)));
    }

    /**
     * Precedence climbing as written. `fuel` bounds how many times the inner
     * loop may repeat; whatever the budget, the answer is `Climb`'s, so the
     * answer `Diverges` means the original loops forever.
     */
    method ParseInternal(lhs: bool, minimumPrecedence: int, fuel: nat) returns (r: Outcome<bool>)
      requires Valid()
      modifies source`index
      ensures Valid()
      ensures r == ValueOf(Climb(source.queryFirst, Entries(), dataColumn, old(source.index), lhs, minimumPrecedence))
      ensures r.Done? ==>
                source.index == Climb(source.queryFirst, Entries(), dataColumn, old(source.index), lhs, minimumPrecedence).value.1
      decreases fuel, 1
    {
      ghost var first, es, c := source.queryFirst, Entries(), dataColumn;
      ghost var target := Climb(first, es, c, source.index, lhs, minimumPrecedence);
      var acc := lhs;
      while source.PeekNext().Some? && Precedence(source.PeekNext().value.0) >= minimumPrecedence
        invariant Valid() && Entries() == es
        invariant Climb(first, es, c, source.index, acc, minimumPrecedence) == target
        decreases |es| - source.index
      {
        var op := source.PeekNext().value.0;
        var advanced := Advance(acc);
        if !advanced.Done? {
          return IndexOutOfRange;
        }
        var rhs := ParseHigher(op, advanced.value, fuel);
        if !rhs.Done? {
          return rhs;
        }
        acc := Evaluate(op, acc, rhs.value);
      }
      return Done(acc);
    }

    /**
     * The inner loop of `ParseInternal`: while the entry ahead has a larger
     * operator than `op`, parse it at its own precedence plus one. That call
     * returns `rhs` without moving, so the loop either does not start or
     * never ends; `fuel` bounds its rounds.
     */
    method ParseHigher(op: LogicOperator, rhs: bool, fuel: nat) returns (r: Outcome<bool>)
      requires Valid() && 0 <= source.index < |Entries()|
      modifies source`index
      ensures Valid() && source.index == old(source.index)
      ensures r == if Rank(Entries()[source.index].0) > Rank(op) then Diverges else Done(rhs)
      decreases fuel, 0
    {
      ghost var first, es, c := source.queryFirst, Entries(), dataColumn;
      ghost var k := source.index;
      var cur := rhs;
      var budget: nat := fuel;
      while source.PeekNext().Some? && Rank(source.PeekNext().value.0) > Rank(op)
        invariant Valid() && Entries() == es && source.index == k
        invariant budget <= fuel
        invariant cur == rhs
        decreases budget
      {
        if budget == 0 {
          return Diverges;
        }
        var lookahead := source.PeekNext().value.0;
        ClimbStaysBelowLookahead(first, es, c, k, cur);
        var inner := ParseInternal(cur, Precedence(lookahead) + (if IsRightAssociative(lookahead) then 0 else 1), fuel - 1);
        cur := inner.value;
        budget := budget - 1;
      }
      return Done(cur);
    }
  }

  // ---------------------------------------------------------------------
  // Evaluating an expression.

  /**
   * What `Matches` does: an empty expression answers false without looking
   * at the column; otherwise the first `Advance` moves to position 0 (so the
   * first query is never evaluated) and the walk continues from there.
   */
  function Evaluation(first: TableColumnQuery, es: seq<Entry>, c: DataColumn): Outcome<bool>
  {
    if first.IsDefault() then Done(false)
    else if |es| == 0 then IndexOutOfRange
    else ValueOf(Climb(first, es, c, 0, Evaluate(es[0].0, false, Matches(es[0].1, c)), 0))
  }

  /** `Matches(column)` on an expression, as written. */
  method ExpressionMatches(e: TableColumnQueryExpression, column: DataColumn, fuel: nat) returns (r: Outcome<bool>)
    requires Valid(e)
    ensures r == Evaluation(e.queryFirst, Tail(e), column)
  {
    if e.queryFirst.IsDefault() {
      return Done(false);
    }
    var enumerator := new Enumerator(e.queryFirst, e.queriesWithOperators);
    var parser := new RecursiveDescentParser(enumerator, column);
    var lhs := parser.Advance(false);
    if !lhs.Done? {
      return IndexOutOfRange;
    }
    r := parser.ParseInternal(lhs.value, 0, fuel);
  }

  // ---------------------------------------------------------------------
  // What the evaluator, as written, does.

  /** Some entry from position `i` on is followed by an entry with a larger operator. */
  ghost predicate HasAscent(es: seq<Entry>, i: int)
  {
    exists k :: i <= k && Ascends(es, k)
  }

  /** The operator at `k` is followed by a larger one. */
  predicate Ascends(es: seq<Entry>, k: int)
  {
    0 <= k && k + 1 < |es| && Rank(es[k].0) < Rank(es[k + 1].0)
  }

  /**
   * From any position of the list, a top-level walk never returns: it spins
   * at the first ascending pair of operators, and without one it reads past
   * the end.
   */
  lemma {:induction false} ClimbAtTopLevel(first: TableColumnQuery, es: seq<Entry>, c: DataColumn, i: int, lhs: bool)
    requires 0 <= i < |es|
    ensures Climb(first, es, c, i, lhs, 0) == if HasAscent(es, i) then Diverges else IndexOutOfRange
    decreases |es| - i
  {
    assert PeekAt(first, es, i) == Some(es[i]);
    if i + 1 == |es| {
      assert Climb(first, es, c, i, lhs, 0) == IndexOutOfRange;
    } else {
      AscentStep(es, i);
      if Rank(es[i + 1].0) > Rank(es[i].0) {
        assert Climb(first, es, c, i, lhs, 0) == Diverges;
      } else {
        var next := Evaluate(es[i].0, lhs, Evaluate(es[i + 1].0, lhs, Matches(es[i + 1].1, c)));
        assert Climb(first, es, c, i, lhs, 0) == Climb(first, es, c, i + 1, next, 0);
        ClimbAtTopLevel(first, es, c, i + 1, next);
      }
    }
  }

  /** An ascent from `i` is one at `i` or one from `i + 1`. */
  lemma AscentStep(es: seq<Entry>, i: int)
    requires 0 <= i && i + 1 < |es|
    ensures HasAscent(es, i) <==> Rank(es[i].0) < Rank(es[i + 1].0) || HasAscent(es, i + 1)
  {
    if HasAscent(es, i) {
      var k :| i <= k && Ascends(es, k);
      if k != i {
        assert i + 1 <= k;
      }
    }
    if Ascends(es, i) {
      assert i <= i;
    }
  }

  /**
   * `Matches` on a non-empty expression never returns a value: it loops
   * forever when some operator in the list is followed by a larger one
   * (an `And` followed by an `Or`), and raises `IndexOutOfRangeException`
   * otherwise, including for a single query.
   */
  lemma MatchesNeverAnswers(first: TableColumnQuery, es: seq<Entry>, c: DataColumn)
    ensures first.IsDefault() ==> Evaluation(first, es, c) == Done(false)
    ensures !first.IsDefault() ==>
              Evaluation(first, es, c) == if HasAscent(es, 0) then Diverges else IndexOutOfRange
  {
    if !first.IsDefault() && |es| > 0 {
      ClimbAtTopLevel(first, es, c, 0, Evaluate(es[0].0, false, Matches(es[0].1, c)));
    }
  }

  /**
   * With a minimum precedence above every operator's, `ParseInternal`
   * returns its `lhs` and does not move: the call the inner loop makes
   * after an ascending pair, which is why that loop cannot progress.
   */
  lemma ClimbAboveEveryPrecedence(first: TableColumnQuery, es: seq<Entry>, c: DataColumn, i: int, lhs: bool, p: int)
    requires -1 <= i <= |es|
    requires p > 2
    ensures Climb(first, es, c, i, lhs, p) == Done((lhs, i))
  {
  }

  // ---------------------------------------------------------------------
  // The evaluator as written, on whole expressions built with `&` and `|`.

  /** A single query wrapped as an expression: `Matches` reads past the empty list. */
  method SingleQueryScenario(q: TableColumnQuery, column: DataColumn, fuel: nat) returns (r: Outcome<bool>)
    requires !q.IsDefault()
    ensures r == IndexOutOfRange
  {
    r := ExpressionMatches(FromQuery(q), column, fuel);
  }

  /** `a | b & c`, that is `a | (b & c)`: the walk reaches the end of the list and raises. */
  method OrThenAndScenario(a: TableColumnQuery, b: TableColumnQuery, c: TableColumnQuery, column: DataColumn, fuel: nat)
    returns (r: Outcome<bool>)
    requires !a.IsDefault() && !b.IsDefault() && !c.IsDefault()
    ensures r == IndexOutOfRange
  {
    var bc := BitwiseAnd(FromQuery(b), FromQuery(c));
    var abc := BitwiseOr(FromQuery(a), bc);
    assert Tail(abc) == [(Or, b), (And, c)];
    MatchesNeverAnswers(a, Tail(abc), column);
    r := ExpressionMatches(abc, column, fuel);
  }

  /** `a & b | c`, that is `(a & b) | c`: an `And` followed by an `Or`, so `Matches` never returns. */
  method AndThenOrScenario(a: TableColumnQuery, b: TableColumnQuery, c: TableColumnQuery, column: DataColumn, fuel: nat)
    returns (r: Outcome<bool>)
    requires !a.IsDefault() && !b.IsDefault() && !c.IsDefault()
    ensures r == Diverges
  {
    var ab := BitwiseAnd(FromQuery(a), FromQuery(b));
    var abc := BitwiseOr(ab, FromQuery(c));
    assert Tail(abc) == [(And, b), (Or, c)];
    assert Ascends(Tail(abc), 0);
    MatchesNeverAnswers(a, Tail(abc), column);
    r := ExpressionMatches(abc, column, fuel);
  }
}
