/** `BoundedQueue<E>`: a fixed-capacity buffer, newest element first.  `push`
    shifts every slot one place towards the end, dropping the last one, and
    writes the new element into slot 0.  Empty slots hold Java's `null`,
    written `None` here. */
module BoundedQueues {
  import opened Wrappers

  /** The contents after `push(e)`: `e`, then every old element but the last. */
  function Pushed<T>(s: seq<T>, e: T): (r: seq<T>)
    requires |s| > 0
    ensures |r| == |s|
  {
    [e] + s[..|s| - 1]
  }

  /** `push(e)` puts `e` in slot 0 and moves every other element one slot back. */
  lemma PushedShifts<T>(s: seq<T>, e: T)
    requires |s| > 0
    ensures Pushed(s, e)[0] == e
    ensures forall i :: 1 <= i < |s| ==> Pushed(s, e)[i] == s[i - 1]
  {
  }

  /** Nothing but the old last element is lost, and nothing but `e` is gained. */
  lemma PushedLosesOnlyLast<T>(s: seq<T>, e: T)
    requires |s| > 0
    ensures multiset(Pushed(s, e)) + multiset{s[|s| - 1]} == multiset(s) + multiset{e}
  {
    assert s == s[..|s| - 1] + [s[|s| - 1]];
    calc {
      multiset(Pushed(s, e)) + multiset{s[|s| - 1]};
      multiset{e} + multiset(s[..|s| - 1]) + multiset{s[|s| - 1]};
      multiset{e} + multiset(s[..|s| - 1] + [s[|s| - 1]]);
    }
  }

  /** After `k` pushes into a queue of capacity `n`, the first `k` slots hold the
      pushed elements (newest first) and the rest holds the old front. */
  function PushedAll<T>(s: seq<T>, es: seq<T>): (r: seq<T>)
    requires |s| > 0
    ensures |r| == |s|
  {
    if |es| == 0 then s else Pushed(PushedAll(s, es[..|es| - 1]), es[|es| - 1])
  }

  /** A slot that was empty at construction stays empty until enough pushes
      have happened to reach it. */
  lemma {:induction false} PushedAllShifts<T>(s: seq<T>, es: seq<T>, i: nat)
    requires |s| > 0 && |es| <= i < |s|
    ensures PushedAll(s, es)[i] == s[i - |es|]
  {
    if |es| > 0 {
      PushedAllShifts(s, es[..|es| - 1], i - 1);
    }
  }

  class BoundedQueue<T> {
    var data: array<Option<T>>

    function Elements(): seq<Option<T>>
      reads this, data
    {
      data[..]
    }

    /** `BoundedQueue(length)`: `length` empty slots. */
    constructor (length: nat)
      ensures fresh(data)
      ensures Elements() == seq(length, _ => None)
    {
      data := new Option<T>[length](_ => None);
    }

    /** The capacity, fixed at construction. */
    function GetLength(): nat
      reads this
    {
      data.Length
    }

    method Get(i: nat) returns (e: Option<T>)
      requires i < GetLength()
      ensures e == Elements()[i]
    {
      e := data[i];
    }

    /** `push(e)`: the shift loop runs from the last slot down to slot 1, then slot 0
        is written.  With capacity 0 the write to slot 0 fails. */
    method Push(e: T) returns (o: Outcome)
      modifies data
      ensures o.Fail? <==> GetLength() == 0
      ensures o.Fail? ==> o.error == IndexOutOfBounds && Elements() == old(Elements())
      ensures o.Pass? ==> Elements() == Pushed(old(Elements()), Some(e))
    {
      ghost var s := data[..];
      var i := data.Length - 1;
      while i > 0
        invariant -1 <= i < data.Length || (data.Length == 0 && i == -1)
        invariant forall k :: 0 <= k <= i ==> data[k] == s[k]
        invariant forall k :: i < k < data.Length && k > 0 ==> data[k] == s[k - 1]
      {
        data[i] := data[i - 1];
        i := i - 1;
      }
      if data.Length == 0 {
        return Fail(IndexOutOfBounds);
      }
      data[0] := Some(e);
      assert data[..] == Pushed(s, Some(e));
      return Pass;
    }
  }
}
