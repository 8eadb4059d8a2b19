# Column queries over a versioned append-only buffer

A Dafny model of the query core of `Rustic.Memory.Data.Linq`. The core has three parts.

- **`ImmutableAppendOnlyArray<T>`** (`append_only_array.dfy`, module `AppendOnlyArrays`): a versioned append-only buffer.
  - A view is a value `(source, length)`. The backing `SourceBuffer` is a class whose array and committed length `Reserve` and `Advance` update in place.
  - `AddRange` has three paths after the empty one:
    - with no store yet, it allocates one;
    - when the view is current (its length equals the store's committed length), it extends the store in place;
    - when the view is stale, it copies into a fresh store.
  - The model proves what each path yields. It also proves snapshot isolation: every view on a store that has only grown still reads what it read.
- **`TableColumnQuery` and `TableColumnQueryExpression`** (`column_query.dfy`, `query_expression.dfy`, modules `ColumnQueries` and `QueryExpressions`).
  - A query term is matched against a column by kind.
  - Expressions are a first term followed by a flat list of `(operator, term)` entries kept in an append-only array. `&` and `|` splice lists together.
  - An expression is evaluated by a precedence-climbing `RecursiveDescentParser` that walks an `Enumerator`. Both are classes with their mutable index, and the parser's nested loops are modelled as written.
  - The parser is specified by the function `Climb`. The model proves that the evaluator never returns a value on a non-empty expression: it raises `IndexOutOfRangeException` or it loops forever (`Wrappers.Outcome`).
  - `intended_evaluation.dfy` (module `IntendedEvaluations`) gives the evaluation the operator declarations `&` and `|` (`TableColumnQuery.cs:119-120`) are meant to have. C# itself gives `&` a higher precedence than `|`, so `a & b | c` is `(a & b) | c`. The model proves that this evaluation is the disjunction of the `&`-groups.
  - `repaired_climbing.dfy` (module `RepairedClimbing`) is the climbing walk with its other defects repaired, run over a given precedence table. With the code's table (`Or` 2, `And` 1), `|` binds tighter than `&`. With the table swapped, the walk gives the intended evaluation for every expression.
- **`InlineStack<T>`** (`inline_stack.dfy`, module `InlineStacks`): a bounded stack over caller-supplied storage. Its `Push` writes into the storage in place.

`wrappers.dfy` holds the shared `Option` and `Outcome` types.

## Model

| member | source | states |
|---|---|---|
| InlineStacks.InlineStack.Stack | src/Rustic.Memory.Data.Linq/InlineStack.cs:15 | the stack reads exactly the first `stackIndex` slots of the storage |
| InlineStacks.InlineStack.constructor | src/Rustic.Memory.Data.Linq/InlineStack.cs:9-13 | a new stack uses the given storage, has index 0, is empty and reads as the empty sequence |
| InlineStacks.InlineStack.Push | src/Rustic.Memory.Data.Linq/InlineStack.cs:18-21 | writes the value at the old index and nowhere else, and increments the index; the stack reads the old stack followed by the value |
| InlineStacks.InlineStack.Pop | src/Rustic.Memory.Data.Linq/InlineStack.cs:29-32 | on a non-empty stack: decrements the index, returns the element now at that index (the old top), leaves the storage unwritten, and the stack loses its last element |
| InlineStacks.InlineStack.IsEmpty | src/Rustic.Memory.Data.Linq/InlineStack.cs:40 | the stack is empty exactly when it reads as the empty sequence |
| InlineStacks.InlineStack.TryPop | src/Rustic.Memory.Data.Linq/InlineStack.cs:23-26 | absent exactly when the stack was empty, and then nothing changes; otherwise it behaves as `Pop` |
| InlineStacks.InlineStack.TryPeek | src/Rustic.Memory.Data.Linq/InlineStack.cs:34-37 | absent exactly when the stack is empty, otherwise the top element; it changes nothing |
| InlineStacks.PushThenPop | src/Rustic.Memory.Data.Linq/InlineStack.cs:18-32 | a push followed by a pop returns the pushed value and restores the index and the stack's contents |
| AppendOnlyArrays.SourceBuffer.Buffer | src/Rustic.Memory.Data.Linq/ImmutableAppendOnlyArray.cs:76-77 | the committed elements number exactly the committed length |
| AppendOnlyArrays.SourceBuffer.constructor | src/Rustic.Memory.Data.Linq/ImmutableAppendOnlyArray.cs:71-73 | a new store has no array and commits nothing |
| AppendOnlyArrays.SourceBuffer.Reserve | src/Rustic.Memory.Data.Linq/ImmutableAppendOnlyArray.cs:78-96 | returns room for `minimumSize` elements starting at the committed length and keeps the committed elements; the first array has capacity `Max(n, 16)`; an array with room is kept; growth gives capacity `Max(required, 2 * old)` with the old contents copied |
| AppendOnlyArrays.SourceBuffer.Advance | src/Rustic.Memory.Data.Linq/ImmutableAppendOnlyArray.cs:98-102 | the committed length grows by exactly `count`, and the old committed elements stay a prefix of the new ones |
| AppendOnlyArrays.CopyInto | src/Rustic.Memory.Data.Linq/ImmutableAppendOnlyArray.cs:55-56 | the destination holds the values from `start` on and is unchanged before and after them |
| AppendOnlyArrays.Empty | src/Rustic.Memory.Data.Linq/ImmutableAppendOnlyArray.cs:22 | the default view is valid and has length 0 |
| AppendOnlyArrays.AsSpan | src/Rustic.Memory.Data.Linq/ImmutableAppendOnlyArray.cs:28 | a view reads `length` elements, which are the first `length` committed elements of its store |
| AppendOnlyArrays.Committed | src/Rustic.Memory.Data.Linq/ImmutableAppendOnlyArray.cs:76 | what a view reads is a prefix of what its store has committed |
| AppendOnlyArrays.CurrentViewReadsAllCommitted | src/Rustic.Memory.Data.Linq/ImmutableAppendOnlyArray.cs:46 | a current view reads everything its store has committed |
| AppendOnlyArrays.OfSource | src/Rustic.Memory.Data.Linq/ImmutableAppendOnlyArray.cs:16-20 | a view made from a store is valid and current on that store |
| AppendOnlyArrays.AddRange | src/Rustic.Memory.Data.Linq/ImmutableAppendOnlyArray.cs:31-59 | no values returns the receiver and changes nothing; otherwise the result is current and reads the store's old committed elements followed by the values; with no store, a fresh store of capacity `Max(K, 16)`; a current view extends its own store; a stale view gets a fresh store of capacity `S.Length + Max(K, 16)` and the old store is untouched; the receiver still reads what it read |
| AppendOnlyArrays.NewSourceWith | src/Rustic.Memory.Data.Linq/ImmutableAppendOnlyArray.cs:53-58 | a fresh store with a fresh array of capacity `Max(size, 16)` commits the prefix followed by the values |
| AppendOnlyArrays.AppendInPlace | src/Rustic.Memory.Data.Linq/ImmutableAppendOnlyArray.cs:48-49 | the store's committed elements become the old ones followed by the values |
| AppendOnlyArrays.Add | src/Rustic.Memory.Data.Linq/ImmutableAppendOnlyArray.cs:61-65 | the result is current and reads the store's old committed elements followed by `v`; with no store, a fresh store of capacity 16; a current view extends its own store; a stale view gets a fresh store of capacity `S.Length + 16` and the old store is untouched; the receiver still reads what it read |
| AppendOnlyArrays.ViewOnGrownStore | src/Rustic.Memory.Data.Linq/ImmutableAppendOnlyArray.cs:28 | snapshot isolation: once a store's committed elements have only been extended, every earlier view on it stays valid and reads the same elements |
| AppendOnlyArrays.AppendTwice | src/Rustic.Memory.Data.Linq/ImmutableAppendOnlyArray.cs:46-51 | appending [4,5] to a view of [1,2,3] extends it in place, and the first view still reads [1,2,3] |
| AppendOnlyArrays.BranchTwice | src/Rustic.Memory.Data.Linq/ImmutableAppendOnlyArray.cs:53-58 | as written, a second branch from the view [1,2,3] reads [1,2,3,4,5,6,7] after a first branch added [4,5] |
| AppendOnlyArrays.AddRangeFromView | src/Rustic.Memory.Data.Linq/ImmutableAppendOnlyArray.cs:53-58 | the corrected stale path: the result always reads the view's own elements followed by the values, and the receiver is unaffected |
| AppendOnlyArrays.BranchTwiceFromView | src/Rustic.Memory.Data.Linq/ImmutableAppendOnlyArray.cs:53-58 | with the corrected stale path, two branches from [1,2,3] read [1,2,3,4,5] and [1,2,3,6,7] |
| ColumnQueries.TableColumnQuery.IsDefault | src/Rustic.Memory.Data.Linq/TableColumnQuery.cs:38 | a query is default exactly when it is of none of the three kinds (by name, by predicate, by object) |
| ColumnQueries.NameQuery | src/Rustic.Memory.Data.Linq/TableColumnQuery.cs:12-18 | a by-name query is never the default query |
| ColumnQueries.NameQueryMatches | src/Rustic.Memory.Data.Linq/TableColumnQuery.cs:12-15 | a by-name query compares the column's name with the given comparer, or by ordinal equality when none is given |
| ColumnQueries.Matches | src/Rustic.Memory.Data.Linq/TableColumnQuery.cs:40-49 | the default query matches no column; a by-name query answers its comparer on the query's name and the column's name; a by-predicate query answers its predicate on the column; a by-object query matches exactly its own column |
| ColumnQueries.Precedence | src/Rustic.Memory.Data.Linq/TableColumnQuery.cs:236-241 | precedence is at most 2 and equals the enum value, so `>` on operators orders them by precedence |
| ColumnQueries.Evaluate | src/Rustic.Memory.Data.Linq/TableColumnQuery.cs:250-258 | `None` yields the right operand; every operator on equal operands yields that operand; And is true only when both operands are; Or is true exactly when either operand is |
| ColumnQueries.RightAssociativeNever | src/Rustic.Memory.Data.Linq/TableColumnQuery.cs:243-248 | no operator is right-associative |
| QueryExpressions.FromQuery | src/Rustic.Memory.Data.Linq/TableColumnQuery.cs:66-70 | a query wraps into an expression with that first query and an empty list |
| QueryExpressions.Append | src/Rustic.Memory.Data.Linq/TableColumnQuery.cs:93-102 | an empty receiver gives the single-query expression; otherwise the list becomes the receiver's committed list plus `(op, query)`, and the receiver still reads the same |
| QueryExpressions.Concat | src/Rustic.Memory.Data.Linq/TableColumnQuery.cs:104-117 | an empty receiver gives the argument; an empty argument gives the receiver; otherwise the receiver's first query with list `committed ++ [(op, rhs.first)] ++ rhs.list`; neither operand reads differently afterwards |
| QueryExpressions.Splice | src/Rustic.Memory.Data.Linq/TableColumnQuery.cs:116 | `a.Add(x).AddRange(b)` reads a's committed entries, then x, then b's entries, is current, and leaves both a and b reading the same |
| QueryExpressions.AddBeside | src/Rustic.Memory.Data.Linq/TableColumnQuery.cs:116 | the `Add` step of a splice: the result is current and reads the receiver's committed entries followed by the new entry; both the receiver and the spliced-in view keep reading the same |
| QueryExpressions.AddView | src/Rustic.Memory.Data.Linq/TableColumnQuery.cs:116 | the `AddRange` step of a splice: a current view extended by what another view reads; that view keeps reading the same, and the store's committed entries only grow |
| QueryExpressions.BitwiseAnd | src/Rustic.Memory.Data.Linq/TableColumnQuery.cs:119 | `&` is `Concat` with `And` |
| QueryExpressions.BitwiseOr | src/Rustic.Memory.Data.Linq/TableColumnQuery.cs:120 | the Or operator is `Concat` with `Or` |
| QueryExpressions.PeekAt | src/Rustic.Memory.Data.Linq/TableColumnQuery.cs:167-183 | `PeekNext` succeeds at -1 exactly when the first query is present, and at i ≥ 0 exactly when i < Length |
| QueryExpressions.CurrentAt | src/Rustic.Memory.Data.Linq/TableColumnQuery.cs:135-148 | `Current` yields an entry exactly below Length and raises out of range at Length |
| QueryExpressions.PeekNextIsCurrent | src/Rustic.Memory.Data.Linq/TableColumnQuery.cs:139-177 | `PeekNext` looks at the entry `Current` returns, not at the next one |
| QueryExpressions.Enumerator.constructor | src/Rustic.Memory.Data.Linq/TableColumnQuery.cs:128-133 | an enumerator starts at index -1 |
| QueryExpressions.Enumerator.MoveNext | src/Rustic.Memory.Data.Linq/TableColumnQuery.cs:150-165 | answers whether `PeekNext` would succeed: from -1 it moves to 0 and answers whether the first query is present; below Length it moves on and answers true; at Length it stays and answers false |
| QueryExpressions.Climb | src/Rustic.Memory.Data.Linq/TableColumnQuery.cs:207-220 | a walk that returns ends at a position between its start and Length |
| QueryExpressions.RecursiveDescentParser.constructor | src/Rustic.Memory.Data.Linq/TableColumnQuery.cs:191-195 | a parser holds the given enumerator and column |
| QueryExpressions.RecursiveDescentParser.Advance | src/Rustic.Memory.Data.Linq/TableColumnQuery.cs:199-205 | moves the enumerator by one; below Length it folds the new current entry's match into `lhs` with that entry's operator, and at Length it raises out of range |
| QueryExpressions.RecursiveDescentParser.ParseInternal | src/Rustic.Memory.Data.Linq/TableColumnQuery.cs:207-220 | for every fuel budget, the nested loops give `Climb`'s outcome from the starting position, and on return the enumerator stands where `Climb` ends |
| QueryExpressions.RecursiveDescentParser.ParseHigher | src/Rustic.Memory.Data.Linq/TableColumnQuery.cs:213-216 | the inner loop never moves the enumerator: with a larger operator ahead it never ends (`Diverges` for every budget), otherwise it returns `rhs` unchanged |
| QueryExpressions.ClimbStaysBelowLookahead | src/Rustic.Memory.Data.Linq/TableColumnQuery.cs:215 | the inner loop's recursive call, made at the entry ahead with its precedence plus one, returns its `lhs` without moving |
| QueryExpressions.ExpressionMatches | src/Rustic.Memory.Data.Linq/TableColumnQuery.cs:80-89 | `Matches` on an expression is `Evaluation`: false for an empty expression, otherwise the parser's outcome after one `Advance` |
| QueryExpressions.ClimbAtTopLevel | src/Rustic.Memory.Data.Linq/TableColumnQuery.cs:209-216 | from any list position, a walk at precedence 0 loops forever when an operator ahead is followed by a larger one, and otherwise raises out of range |
| QueryExpressions.MatchesNeverAnswers | src/Rustic.Memory.Data.Linq/TableColumnQuery.cs:80-89 | expression `Matches` is false on an empty expression and never returns a value otherwise: it diverges when an `And` is followed by an `Or` somewhere, and raises out of range in every other case |
| QueryExpressions.ClimbAboveEveryPrecedence | src/Rustic.Memory.Data.Linq/TableColumnQuery.cs:209-216 | with a minimum precedence above 2, `ParseInternal` returns `lhs` and does not move |
| QueryExpressions.SingleQueryScenario | src/Rustic.Memory.Data.Linq/TableColumnQuery.cs:87-88 | `Matches` on a single wrapped query raises out of range |
| QueryExpressions.OrThenAndScenario | src/Rustic.Memory.Data.Linq/TableColumnQuery.cs:139-146 | `a Or (b And c)`, built with the operators, raises out of range |
| QueryExpressions.AndThenOrScenario | src/Rustic.Memory.Data.Linq/TableColumnQuery.cs:213-216 | `(a And b) Or c`, built with the operators, never returns |
| IntendedEvaluations.GroupsPartition | src/Rustic.Memory.Data.Linq/TableColumnQuery.cs:62-64 | splitting an expression at its `Or`s gives groups that, read in order, are its queries, each exactly once |
| IntendedEvaluations.IntendedIsSomeGroup | src/Rustic.Memory.Data.Linq/TableColumnQuery.cs:119-120 | the intended evaluation of a non-empty expression of And and Or entries is true exactly when every query of some And-group matches |
| IntendedEvaluations.IntendedSingleQuery | src/Rustic.Memory.Data.Linq/TableColumnQuery.cs:91 | intended: a wrapped query matches exactly the columns the query matches |
| IntendedEvaluations.IntendedTwoQueries | src/Rustic.Memory.Data.Linq/TableColumnQuery.cs:119-120 | intended: `a And b` is the conjunction and `a Or b` the disjunction of the two matches |
| IntendedEvaluations.IntendedPrecedence | src/Rustic.Memory.Data.Linq/TableColumnQuery.cs:119-120 | intended, as C# groups `&` and `|`: `a Or b And c` is `a or (b and c)`, and `a And b Or c` is `(a and b) or c` |
| RepairedClimbing.AndFirstPrecedence | src/Rustic.Memory.Data.Linq/TableColumnQuery.cs:236-241 | the corrected table: And has precedence 2, Or precedence 1, and nothing else is above 0 |
| RepairedClimbing.ClimbFrom | src/Rustic.Memory.Data.Linq/TableColumnQuery.cs:207-220 | the repaired outer loop ends between its start and Length, at the end or at an operator below the minimum precedence |
| RepairedClimbing.Higher | src/Rustic.Memory.Data.Linq/TableColumnQuery.cs:213-216 | the repaired inner loop ends between its start and Length, at the end or at an operator not above the current one |
| RepairedClimbing.CodeTableBindsOrFirst | src/Rustic.Memory.Data.Linq/TableColumnQuery.cs:238-239 | with the code's table and the walk otherwise repaired, `a And b Or c` evaluates as `a and (b or c)` |
| RepairedClimbing.CodeTableDisagrees | src/Rustic.Memory.Data.Linq/TableColumnQuery.cs:238-239 | with `a` and `b` matching nothing and `c` matching everything, the code's table rejects a column that the intended `(a and b) or c` accepts |
| RepairedClimbing.AndFirstTableIsIntended | src/Rustic.Memory.Data.Linq/TableColumnQuery.cs:236-241 | with the corrected table, the repaired walk equals the intended evaluation on every expression of And and Or entries |

## Left out

- The origin guard is not part of this model. `TableViewSameOriginGuard.cs` does not compile, and its condition throws exactly when the tables are the same. `QueryExpressions.Append` does not model the guard call at `TableColumnQuery.cs:95`.
- `Class1.cs` is not part of this model. It is an unfinished table facade whose indexers have no bodies.
- QueryExpressions.Concat: requires `Separate`, meaning two different stores never share an array. Every store allocates its own arrays, so this always holds of expressions the program builds. The model does not track array ownership, so it states the fact as a precondition. The same holds for `QueryExpressions.Splice`, `QueryExpressions.AddBeside`, `QueryExpressions.AddView`, `QueryExpressions.BitwiseAnd` and `QueryExpressions.BitwiseOr`.
- QueryExpressions.RecursiveDescentParser.ParseInternal: the `fuel` parameter bounds how often the inner loop repeats, and the inner loop is its own method, `ParseHigher`. Whatever the budget, the answer equals `Climb`'s, and `Diverges` stands for an endless loop.
- QueryExpressions.RecursiveDescentParser.Advance: requires that a move is possible. The original states this with a debug assertion.
- InlineStacks.InlineStack.Push: requires a free slot. The original raises `IndexOutOfRangeException` on a full span, and that path is not modelled.
- InlineStacks.InlineStack.Pop: requires a non-empty stack. The original raises on an empty one (after decrementing the index), and that path is not modelled.
- AppendOnlyArrays.SourceBuffer.Advance: requires that the committed length stays within the array. The original only asserts `count >= 0` and would fail later, when `Buffer` slices past the array. Every caller commits only what it reserved.
- Spans become arrays and sequences. `Reserve` returns the array and the start of the room instead of a span. The view's indexers (`this[int]`, `this[Index]`, `this[Range]`) and `GetEnumerator` are reads of `AsSpan` and are not modelled separately.
- Lengths are unbounded naturals. The model does not capture 32-bit overflow of `_length + minimumSize`, `_buffer.Length * 2` or `_length += count`.
- `DataColumn` is reduced to its name and its reference identity. `StringComparer` is a string equality function. Predicate queries are pure functions, so their side effects and exceptions are not modelled. Neither is the non-short-circuit evaluation of `&` and `|` on such side effects.
- The `InlineStack` constructor is declared as `OperatorTreeEvaluationFinateStateMaschine` in the source. It is modelled as the stack's constructor. A `null` result of `TryPop`/`TryPeek` is `Option.None`.
- The stale path copies every element the store has committed, not only the `L` elements the view reads; the model follows the code (see Findings).
- There is no concurrency. The buffer is single-threaded.

## Findings

| source | as written | input that shows it | evidently intended | confidence | as-written member | corrected member |
|---|---|---|---|---|---|---|
| src/Rustic.Memory.Data.Linq/ImmutableAppendOnlyArray.cs:55 | the stale path copies `_source.Buffer`, every element the store has committed, rather than the view's own `_length` elements | from a view reading [1,2,3], add [4,5], then add [6,7] to the same view: the second result reads [1,2,3,4,5,6,7] | the second branch reads [1,2,3,6,7] | high; not executed | AppendOnlyArrays.BranchTwice | AppendOnlyArrays.AddRangeFromView |
| src/Rustic.Memory.Data.Linq/TableColumnQuery.cs:88 | the first `Advance` moves from -1 to 0, so it evaluates list entry 0 instead of the first query, and on an empty list it reads past the end | a single wrapped query `q`: `Matches` raises `IndexOutOfRangeException` | `q.Matches(column)` | high; not executed | QueryExpressions.SingleQueryScenario | IntendedEvaluations.IntendedSingleQuery |
| src/Rustic.Memory.Data.Linq/TableColumnQuery.cs:213-216 | after an `And`, an `Or` makes the inner loop call `ParseInternal` with minimum precedence 3, which returns without moving, so the loop never ends | `a And b Or c` | `(a and b) or c`, since C# gives the `&` operator a higher precedence than the Or operator (lines 119-120) | high; not executed | QueryExpressions.AndThenOrScenario | IntendedEvaluations.IntendedPrecedence |
| src/Rustic.Memory.Data.Linq/TableColumnQuery.cs:175-178 | `PeekNext` returns the entry at the current index, not the next one, so every walk without an ascending pair ends by reading `Current` at `Length` | `a Or b And c` raises `IndexOutOfRangeException` | `a or (b and c)`, since C# gives `&` a higher precedence than the Or operator (lines 119-120); in general, some And-group fully matches | high; not executed | QueryExpressions.OrThenAndScenario | IntendedEvaluations.IntendedIsSomeGroup |
| src/Rustic.Memory.Data.Linq/TableColumnQuery.cs:238-239 | `GetPrecedence` gives Or 2 and And 1, while the walk treats a larger value as binding tighter (`>=` at line 209, `>` at line 213), so Or binds tighter than And | with the walk otherwise repaired, `a And b Or c` with `a` and `b` matching nothing and `c` matching everything evaluates `a and (b or c)`, false | And 2 and Or 1, so the walk gives `(a and b) or c`, true, as C# itself groups the `&` and Or operators (lines 119-120) | high; not executed | RepairedClimbing.CodeTableDisagrees | RepairedClimbing.AndFirstTableIsIntended |

`AppendOnlyArrays.AddRange` and the expression evaluator stay as written in the rest of the model, because those are the paths the expression code calls. The corrected members state the intended behaviour beside them. `RepairedClimbing` repairs the walk's other defects (the lookahead, the first `Advance` and the recursive call's minimum precedence) so that the precedence table can be judged on its own.
