/**
 * `InlineStack<T>`: a bounded stack that lives in storage supplied by its
 * caller. The storage (a span in the original, an array here) is not owned:
 * `Push` writes into the caller's array in place, and the stack itself is
 * nothing but that array and an index counting the occupied slots.
 */
module InlineStacks {
  import opened Wrappers

  class InlineStack<T> {
    /** The caller's storage; the stack never replaces it. */
    const stack: array<T>
    /** Number of occupied slots, which are `stack[..stackIndex]`. */
    var stackIndex: nat

    ghost predicate Valid()
      reads this
    {
      stackIndex <= stack.Length
    }

    /** The occupied part of the storage, bottom first. */
    function Stack(): (s: seq<T>)
      reads this, stack
      requires Valid()
      ensures |s| == stackIndex
      ensures forall i :: 0 <= i < |s| ==> s[i] == stack[i]
    {
      stack[..stackIndex]
    }

    /** Empty exactly when no element is on the stack. */
    predicate IsEmpty()
      reads this, stack
      requires Valid()
      ensures IsEmpty() <==> Stack() == []
    {
      stackIndex == 0
    }

    constructor (storage: array<T>)
      ensures Valid()
      ensures stack == storage && stackIndex == 0
      ensures IsEmpty() && Stack() == []
    {
      stack := storage;
      stackIndex := 0;
    }

    /** Writes `value` into the first free slot and occupies it. */
    method Push(value: T)
      requires Valid()
      requires stackIndex < stack.Length
      modifies this`stackIndex, stack
      ensures Valid()
      ensures stackIndex == old(stackIndex) + 1
      ensures stack[..] == old(stack[..])[old(stackIndex) := value]
      ensures Stack() == old(Stack()) + [value]
    {
      stack[stackIndex] := value;
      stackIndex := stackIndex + 1;
    }

    /** Releases the top slot and returns what it holds; the storage is not written. */
    method Pop() returns (value: T)
      requires Valid()
      requires !IsEmpty()
      modifies this`stackIndex
      ensures Valid()
      ensures stackIndex == old(stackIndex) - 1
      ensures value == stack[stackIndex]
      ensures value == old(Stack())[|old(Stack())| - 1]
      ensures Stack() == old(Stack())[..|old(Stack())| - 1]
    {
      stackIndex := stackIndex - 1;
      value := stack[stackIndex];
    }

    /** `Pop` when the stack is not empty; otherwise nothing happens and the result is absent. */
    method TryPop() returns (r: Option<T>)
      requires Valid()
      modifies this`stackIndex
      ensures Valid()
      ensures r.None? <==> old(IsEmpty())
      ensures old(IsEmpty()) ==> stackIndex == old(stackIndex)
      ensures !old(IsEmpty()) ==>
                stackIndex == old(stackIndex) - 1 &&
                r == Some(old(Stack())[|old(Stack())| - 1]) &&
                Stack() == old(Stack())[..|old(Stack())| - 1]
    {
      if stackIndex > 0 {
        stackIndex := stackIndex - 1;
        r := Some(stack[stackIndex]);
      } else {
        r := None;
      }
    }

    /** The top element, if any, without releasing it. */
    function TryPeek(): (r: Option<T>)
      reads this, stack
      requires Valid()
      ensures r.None? <==> IsEmpty()
      ensures r.Some? ==> r.value == Stack()[|Stack()| - 1]
    {
      if stackIndex > 0 then Some(stack[stackIndex - 1]) else None
    }
  }

  /** A push followed by a pop hands back the pushed value and restores the stack. */
  method PushThenPop<T>(s: InlineStack<T>, value: T) returns (popped: T)
    requires s.Valid() && s.stackIndex < s.stack.Length
    modifies s, s.stack
    ensures s.Valid()
    ensures popped == value
    ensures s.stackIndex == old(s.stackIndex)
    ensures s.Stack() == old(s.Stack())
  {
    s.Push(value);
    popped := s.Pop();
  }
}
