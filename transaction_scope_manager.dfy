/**
 * `TransactionScopeManager`: the ambient transaction of an asynchronous flow,
 * kept as an immutable stack in one cell. The cell starts unset; `Push`
 * replaces it by the stack with one more transaction on top, `Pop` by the
 * stack without its top. `ImmutableStack.Peek` and `ImmutableStack.Pop` throw
 * `InvalidOperationException` on the empty stack.
 *
 * A cell is `None` while unset, otherwise `Some(stack)` with the stack's top
 * as the last element of the sequence.
 */
module TransactionScopes {
  import opened Wrappers

  /** A `VManagementTransaction`, known by its identity only. */
  datatype Transaction = Transaction(id: nat)

  type Cell = Option<seq<Transaction>>

  /** The stack `Push` starts from: the cell's, or the empty stack. */
  function StackOf(cell: Cell): seq<Transaction>
  {
    if cell.Some? then cell.value else []
  }

  /** `Current`, as written: the top of the stack, null while the cell is
      unset, and the exception of `Peek` once the cell holds the empty
      stack. */
  function CurrentOf(cell: Cell): (r: Result<Option<Transaction>>)
    ensures cell.None? ==> r == Ok(None)
    ensures cell == Some([]) ==> r == Err(InvalidOperation)
    ensures cell.Some? && cell.value != [] ==> r == Ok(Some(cell.value[|cell.value| - 1]))
  {
    match cell
    case None => Ok(None)
    case Some(stack) => if stack == [] then Err(InvalidOperation) else Ok(Some(stack[|stack| - 1]))
  }

  /** `Current` as its documentation promises it: the top of the stack, or
      null when there is none. */
  function IntendedCurrentOf(cell: Cell): (r: Option<Transaction>)
    ensures StackOf(cell) == [] <==> r.None?
    ensures r.Some? ==> r.value == StackOf(cell)[|StackOf(cell)| - 1]
    ensures CurrentOf(cell).Ok? ==> r == CurrentOf(cell).value
  {
    var stack := StackOf(cell);
    if stack == [] then None else Some(stack[|stack| - 1])
  }

  /** The cell after `Push(t)`. */
  function Pushed(cell: Cell, t: Transaction): (r: Cell)
    ensures r.Some? && StackOf(r) == StackOf(cell) + [t]
  {
    Some(StackOf(cell) + [t])
  }

  /** The cell after `Pop()`, or the exception it throws. */
  function Popped(cell: Cell): (r: Result<Cell>)
    ensures cell.None? ==> r == Ok(None)
    ensures cell == Some([]) ==> r == Err(InvalidOperation)
    ensures cell.Some? && cell.value != [] ==> r.Ok? && r.value.Some? && r.value.value + [cell.value[|cell.value| - 1]] == cell.value
  {
    match cell
    case None => Ok(None)
    case Some(stack) => if stack == [] then Err(InvalidOperation) else Ok(Some(stack[..|stack| - 1]))
  }

  /** After `Push(t)`, `Current` is `t`. */
  lemma PushedIsCurrent(cell: Cell, t: Transaction)
    ensures CurrentOf(Pushed(cell, t)) == Ok(Some(t))
    ensures IntendedCurrentOf(Pushed(cell, t)) == Some(t)
  {
  }

  /** `Pop` undoes `Push`: the stack is what it was before. */
  lemma PopUndoesPush(cell: Cell, t: Transaction)
    ensures Popped(Pushed(cell, t)) == Ok(Some(StackOf(cell)))
  {
    assert (StackOf(cell) + [t])[..|StackOf(cell)|] == StackOf(cell);
  }

  /** The cell after pushing `ts`, first to last. */
  function PushedAll(cell: Cell, ts: seq<Transaction>): (r: Cell)
    ensures r == if ts == [] then cell else Some(StackOf(cell) + ts)
    decreases ts
  {
    if ts == [] then cell
    else
      var next := Pushed(cell, ts[0]);
      assert next == Some(StackOf(cell) + [ts[0]]);
      assert ts == [ts[0]] + ts[1..];
      assert StackOf(next) + ts[1..] == StackOf(cell) + ts;
      if ts[1..] == [] then
        assert ts == [ts[0]];
        next
      else PushedAll(next, ts[1..])
  }

  /** The cell after `n` pops, or the exception one of them throws. */
  function PoppedN(cell: Cell, n: nat): Result<Cell>
    decreases n
  {
    if n == 0 then Ok(cell)
    else
      var next :- Popped(cell);
      PoppedN(next, n - 1)
  }

  /** `k` pops of a stack holding at least `k` transactions remove its top
      `k`. */
  lemma {:induction false} PoppedTop(stack: seq<Transaction>, k: nat)
    requires k <= |stack|
    ensures PoppedN(Some(stack), k) == Ok(Some(stack[..|stack| - k]))
    decreases k
  {
    if k == 0 {
      assert stack[..|stack|] == stack;
    } else {
      var shorter := stack[..|stack| - 1];
      assert Popped(Some(stack)) == Ok(Some(shorter));
      PoppedTop(shorter, k - 1);
      assert shorter[..|shorter| - (k - 1)] == stack[..|stack| - k];
    }
  }

  /** Nested scopes are last in, first out: after pushing `ts` and popping
      `k` of them, the current transaction is the `k`-th from the last one
      pushed, and the stack is the one before with the first `|ts| - k`
      pushed on it. */
  lemma NestedScopes(cell: Cell, ts: seq<Transaction>, k: nat)
    requires k < |ts|
    ensures PoppedN(PushedAll(cell, ts), k) == Ok(Some(StackOf(cell) + ts[..|ts| - k]))
    ensures CurrentOf(PoppedN(PushedAll(cell, ts), k).value) == Ok(Some(ts[|ts| - 1 - k]))
  {
    assert PushedAll(cell, ts) == Some(StackOf(cell) + ts);
    PoppedPushed(StackOf(cell), ts, k);
    LastOfKept(StackOf(cell), ts, k);
  }

  /** `k` pops after pushing `b` on `a` leave `a` with all but the top `k` of `b`. */
  lemma PoppedPushed(a: seq<Transaction>, b: seq<Transaction>, k: nat)
    requires k <= |b|
    ensures PoppedN(Some(a + b), k) == Ok(Some(a + b[..|b| - k]))
  {
    PoppedTop(a + b, k);
    assert (a + b)[..|a + b| - k] == a + b[..|b| - k];
  }

  lemma LastOfKept(a: seq<Transaction>, b: seq<Transaction>, k: nat)
    requires k < |b|
    ensures CurrentOf(Some(a + b[..|b| - k])) == Ok(Some(b[|b| - 1 - k]))
  {
    var kept := a + b[..|b| - k];
    assert kept[|kept| - 1] == b[|b| - 1 - k];
  }

  /** Once every pushed transaction has been popped again, the cell holds
      the empty stack rather than nothing, and `Current` throws where it
      returned null before the first `Push`. */
  lemma EmptiedScopeCurrentFails(t: Transaction)
    ensures CurrentOf(None) == Ok(None)
    ensures Popped(Pushed(None, t)) == Ok(Some([]))
    ensures CurrentOf(Popped(Pushed(None, t)).value) == Err(InvalidOperation)
  {
    PopUndoesPush(None, t);
  }

  /** With `Current` as documented, popping what was pushed restores the
      current transaction, also when the cell was unset. */
  lemma IntendedCurrentRestored(cell: Cell, t: Transaction)
    ensures Popped(Pushed(cell, t)).Ok?
    ensures IntendedCurrentOf(Popped(Pushed(cell, t)).value) == IntendedCurrentOf(cell)
  {
    PopUndoesPush(cell, t);
  }

  /** The manager's cell. */
  class TransactionScopeManager {
    var cell: Cell

    /** Before any `Push` the cell is unset and `Current` is null. */
    constructor ()
      ensures cell == None && CurrentOf(cell) == Ok(None)
    {
      cell := None;
    }

    /** `Push`: the transaction goes on top of the cell's stack, or of the
        empty stack while the cell is unset. */
    method Push(t: Transaction)
      modifies this
      ensures cell == Pushed(old(cell), t)
      ensures CurrentOf(cell) == Ok(Some(t))
    {
      var stack := if cell.Some? then cell.value else [];
      cell := Some(stack + [t]);
    }

    /** `Pop`: nothing while the cell is unset; otherwise the top is
        removed, which throws on the empty stack. */
    method Pop() returns (r: Outcome)
      modifies this
      ensures Popped(old(cell)).Err? ==> r == Fail(Popped(old(cell)).error) && cell == old(cell)
      ensures Popped(old(cell)).Ok? ==> r == Pass && cell == Popped(old(cell)).value
    {
      var stack := cell;
      if stack.Some? {
        if stack.value == [] {
          return Fail(InvalidOperation);
        }
        cell := Some(stack.value[..|stack.value| - 1]);
      }
      r := Pass;
    }
  }
}
