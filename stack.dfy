/**
 * DataStructures/Stack.swift: a last-in, first-out stack kept as an array
 * whose end is the top of the stack.
 */
module Stacks {
  import opened Options

  /** `s` back to front. */
  function Reversed<T>(s: seq<T>): (r: seq<T>)
    ensures |r| == |s|
    ensures forall i | 0 <= i < |s| :: r[i] == s[|s| - 1 - i]
  {
    if s == [] then [] else [s[|s| - 1]] + Reversed(s[..|s| - 1])
  }

  class Stack<T> {
    /** The pushed elements, oldest first; the last one is the top. */
    var elements: seq<T>

    constructor ()
      ensures elements == []
    {
      elements := [];
    }

    /** Adds `item` on top. */
    method Push(item: T)
      modifies this
      ensures elements == old(elements) + [item]
      ensures Count() == old(Count()) + 1 && Peek() == Some(item)
    {
      elements := elements + [item];
    }

    /** Removes and returns the top element; an empty stack gives `None` and stays empty. */
    method Pop() returns (top: Option<T>)
      modifies this
      ensures old(elements) == [] ==> top == None && elements == []
      ensures old(elements) != [] ==>
        top == Some(old(elements)[|old(elements)| - 1]) && elements == old(elements)[..|old(elements)| - 1]
      ensures top == old(Peek())
      ensures old(elements) != [] ==> Count() == old(Count()) - 1
    {
      if elements == [] {
        return None;
      }
      top := Some(elements[|elements| - 1]);
      elements := elements[..|elements| - 1];
    }

    /** The top element, if any, without removing it. */
    function Peek(): (top: Option<T>)
      reads this
      ensures top.None? <==> elements == []
      ensures top.Some? ==> top.value == elements[|elements| - 1] && top.value == ToArray()[0]
    {
      if elements == [] then None else Some(elements[|elements| - 1])
    }

    function Count(): (n: nat)
      reads this
      ensures n == |ToArray()|
    {
      |elements|
    }

    function IsEmpty(): (empty: bool)
      reads this
      ensures empty <==> Count() == 0
      ensures empty <==> Peek() == None
    {
      elements == []
    }

    /** Empties the stack. */
    method RemoveAll()
      modifies this
      ensures elements == [] && IsEmpty()
    {
      elements := [];
    }

    /** The elements in the order they would be popped: the top first, the first pushed last. */
    function ToArray(): (order: seq<T>)
      reads this
      ensures |order| == |elements|
      ensures forall i | 0 <= i < |order| :: order[i] == elements[|elements| - 1 - i]
    {
      Reversed(elements)
    }
  }

  /**
   * Pops `stack` until it is empty: the elements come out in the order
   * `toArray` lists them, the last pushed first.
   */
  method PopUntilEmpty<T>(stack: Stack<T>) returns (popped: seq<T>)
    modifies stack
    ensures popped == old(stack.ToArray())
    ensures popped == Reversed(old(stack.elements)) && stack.elements == []
  {
    popped := [];
    while !stack.IsEmpty()
      invariant popped + stack.ToArray() == old(stack.ToArray())
      decreases |stack.elements|
    {
      var top := stack.Pop();
      popped := popped + [top.value];
    }
  }

  /** The pushes and pops of the stack unit tests: elements come back last-in, first-out. */
  method LastInFirstOut() returns (popped: seq<Option<int>>, afterwards: Option<int>)
    ensures popped == [Some(3), Some(2), Some(1)]
    ensures afterwards == None
  {
    var stack := new Stack<int>();
    stack.Push(1);
    stack.Push(2);
    stack.Push(3);
    var first := stack.Pop();
    var second := stack.Pop();
    var third := stack.Pop();
    popped := [first, second, third];
    afterwards := stack.Pop();
  }

  /** `toArray` lists the elements in pop order without changing the stack. */
  method PopOrderExample() returns (order: seq<int>, peeked: Option<int>)
    ensures order == [3, 2, 1]
    ensures peeked == Some(3)
  {
    var stack := new Stack<int>();
    stack.Push(1);
    stack.Push(2);
    stack.Push(3);
    order := stack.ToArray();
    peeked := stack.Peek();
  }
}
