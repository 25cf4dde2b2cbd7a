/**
 * `Stack<T>`: a stack over an array whose initial elements form a floor
 * that `pop` never goes below, while `top` only refuses an empty stack.
 */
module Stacks {
  import opened Wrappers

  class Stack<T> {
    var data: seq<T>
    /** The number of elements the stack was created with. */
    const initialLength: nat

    /** The floor is never crossed. */
    predicate Valid()
      reads this
    {
      initialLength <= |data|
    }

    /** Lines 5-8: the initial elements become the floor. */
    constructor(initial: seq<T>)
      ensures Valid() && data == initial && initialLength == |initial|
    {
      data := initial;
      initialLength := |initial|;
    }

    /** Lines 10-16: the element at `index`, or an error when there is none. */
    method At(index: int) returns (r: Result<T, string>)
      ensures r.Success? <==> 0 <= index < |data|
      ensures r.Success? ==> r.value == data[index]
      ensures r.Failure? ==> r.error == "Index out of bounds"
    {
      if !(0 <= index < |data|) {
        return Failure("Index out of bounds");
      }
      return Success(data[index]);
    }

    /** Lines 18-20. */
    method Push(item: T)
      modifies this
      requires Valid()
      ensures Valid() && data == old(data) + [item]
    {
      data := data + [item];
    }

    /**
     * Lines 22-27: the last element is removed and returned, unless only
     * the floor is left, which is an error that changes nothing.
     */
    method Pop() returns (r: Result<T, string>)
      modifies this
      requires Valid()
      ensures Valid()
      ensures r.Failure? <==> |old(data)| <= initialLength
      ensures r.Failure? ==> r.error == "Stack is empty." && data == old(data)
      ensures r.Success? ==> old(data) == data + [r.value]
    {
      if |data| <= initialLength {
        return Failure("Stack is empty.");
      }
      r := Success(data[|data| - 1]);
      data := data[..|data| - 1];
    }

    /**
     * Lines 29-34: the last element; only an empty stack is refused, even
     * when the floor is higher than zero.
     */
    method Top() returns (r: Result<T, string>)
      ensures r.Success? <==> |data| > 0
      ensures r.Success? ==> r.value == data[|data| - 1]
      ensures r.Failure? ==> r.error == "Stack empty."
    {
      if |data| <= 0 {
        return Failure("Stack empty.");
      }
      return Success(data[|data| - 1]);
    }
  }

  /** A push followed by a pop returns the pushed element and restores the contents. */
  method PushThenPop<T>(s: Stack<T>, x: T) returns (r: Result<T, string>)
    modifies s
    requires s.Valid()
    ensures s.Valid() && r == Success(x) && s.data == old(s.data)
  {
    s.Push(x);
    var top := s.Top();
    assert top == Success(x);
    r := s.Pop();
    ghost var pushed := old(s.data) + [x];
    assert s.data + [r.value] == pushed;
    assert s.data == pushed[..|pushed| - 1] && r.value == pushed[|pushed| - 1];
  }
}
