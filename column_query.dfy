/**
 * `TableColumnQuery`: a single matching rule against a column, and
 * `LogicOperator`: the binary operators that join such rules.
 */
module ColumnQueries {
  import opened Wrappers

  /**
   * A column of the foreign table library. Only its name is read; matching
   * "by object" compares column references, which a class gives directly.
   */
  class DataColumn {
    const Name: string

    constructor (name: string)
      ensures Name == name
    {
      Name := name;
    }
  }

  /** A string equality strategy (a `StringComparer`). */
  type Comparer = (string, string) -> bool

  /** The ordinal comparer: exact, case-sensitive equality. */
  function Ordinal(a: string, b: string): bool { a == b }

  /**
   * A query term, tagged by its kind. The first constructor is the
   * default (kind `None`) value: it matches nothing and marks an empty query.
   */
  datatype TableColumnQuery =
    | Default
    | ByName(name: string, comparer: Comparer)
    | ByPredicate(test: DataColumn -> bool)
    | ByObject(dataColumn: DataColumn)
  {
    /** Only the default query is default: every query a constructor builds is not. */
    predicate IsDefault()
      ensures IsDefault() <==> !(ByName? || ByPredicate? || ByObject?)
    {
      Default?
    }
  }

  /** The by-name constructor: a missing comparer means the ordinal one. */
  function NameQuery(name: string, comparer: Option<Comparer>): (q: TableColumnQuery)
    ensures !q.IsDefault()
  {
    ByName(name, if comparer.None? then Ordinal else comparer.value)
  }

  /** A by-name query compares the column's name with the given comparer, or ordinally without one. */
  lemma NameQueryMatches(name: string, comparer: Option<Comparer>, c: DataColumn)
    ensures Matches(NameQuery(name, comparer), c) ==
            if comparer.None? then name == c.Name else comparer.value(name, c.Name)
  {
  }

  /** Dispatch on the kind of the query. */
  function Matches(q: TableColumnQuery, c: DataColumn): (r: bool)
    ensures q.IsDefault() ==> !r
    ensures q.ByName? ==> r == q.comparer(q.name, c.Name)
    ensures q.ByPredicate? ==> r == q.test(c)
    ensures q.ByObject? ==> (r <==> q.dataColumn == c)
  {
    match q
    case Default => false
    case ByName(name, comparer) => comparer(name, c.Name)
    case ByPredicate(test) => test(c)
    case ByObject(column) => column == c
  }

  /** The operators; their order (None < And < Or) is the enum order used by `>`. */
  datatype LogicOperator = None | And | Or

  /** The underlying enum value, compared by `>` in the parser. */
  function Rank(op: LogicOperator): nat
  {
    match op
    case None => 0
    case And => 1
    case Or => 2
  }

  /** `GetPrecedence`: Or 2, And 1, anything else 0. */
  function Precedence(op: LogicOperator): (p: nat)
    ensures p <= 2
    ensures p == Rank(op)
  {
    match op
    case Or => 2
    case And => 1
    case None => 0
  }

  /** `IsRightAssociative`: no operator is. */
  predicate IsRightAssociative(op: LogicOperator)
  {
    match op
    case Or => false
    case And => false
    case None => false
  }

  /** `Evaluate`: Or and And on both operands (no short circuit); None yields the right operand. */
  function Evaluate(op: LogicOperator, lhs: bool, rhs: bool): (r: bool)
    ensures op == LogicOperator.None ==> r == rhs
    ensures lhs == rhs ==> r == rhs
    ensures op != Or && r ==> rhs
    ensures op == And && r ==> lhs
    ensures op == Or && (lhs || rhs) ==> r
    ensures op == Or && r ==> lhs || rhs
  {
    match op
    case Or => lhs || rhs
    case And => lhs && rhs
    case None => rhs
  }

  lemma RightAssociativeNever(op: LogicOperator)
    ensures !IsRightAssociative(op)
  {
  }
}
