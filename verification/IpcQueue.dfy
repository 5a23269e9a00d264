/** The message queue of an endpoint: a ring of eight places. */
module IpcQueue {
  const PLACES: nat := 8

  /** The i-th place from head. */
  function Place(head: nat, i: nat): (p: nat)
    ensures p < PLACES
    ensures (head < PLACES && i < PLACES ==> p == if head + i < PLACES then head + i else head + i - PLACES)
  {
    (head + i) % 8
  }

  class Queue<T(0)> {
    const q: array<T>
    var head: nat
    var count: nat

    ghost predicate Valid()
      reads this
    {
      q.Length == PLACES && head < PLACES && count <= PLACES
    }

    /** The messages, oldest first. */
    ghost function Contents(): (s: seq<T>)
      reads this, q
      requires Valid()
      ensures |s| == count
    {
      seq(count, i requires 0 <= i < count reads this, q requires q.Length == PLACES => q[Place(head, i)])
    }

    constructor ()
      ensures Valid() && fresh(q) && Contents() == []
    {
      q := new T[PLACES];
      head, count := 0, 0;
    }

    method Push(m: T) returns (ok: bool)
      requires Valid()
      modifies this`count, q
      ensures Valid() && ok == (|old(Contents())| < PLACES)
      ensures Contents() == if ok then old(Contents()) + [m] else old(Contents())
    {
      if count == PLACES {
        return false;
      }
      ghost var was := Contents();
      q[Place(head, count)] := m;
      count := count + 1;
      assert Contents() == was + [m];
      return true;
    }

    method Peek() returns (found: bool, m: T)
      requires Valid()
      ensures found == (Contents() != []) && (found ==> m == Contents()[0])
    {
      found, m := count > 0, q[head];
    }

    method Pop()
      requires Valid()
      modifies this`head, this`count
      ensures Valid() && Contents() == if old(Contents()) == [] then [] else old(Contents())[1..]
    {
      if count > 0 {
        ghost var was := Contents();
        head, count := Place(head, 1), count - 1;
        assert Contents() == was[1..];
      }
    }

    /** Every message, in order; none is left. */
    method Drain() returns (dropped: seq<T>)
      requires Valid()
      modifies this`head, this`count
      ensures Valid() && Contents() == [] && dropped == old(Contents())
    {
      dropped := [];
      ghost var all := Contents();
      while count > 0
        invariant Valid() && |dropped| <= |all| && dropped == all[..|dropped|] && Contents() == all[|dropped|..]
        decreases count
      {
        var found, m := Peek();
        Pop();
        dropped := dropped + [m];
      }
    }
  }
}
