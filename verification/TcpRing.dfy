/** The receive buffer as the connection stores it: a ring in a fixed array, standing for the
    sequence of bytes received and not yet read. */
module TcpRing {
  import opened TcpSender

  /** Where the i-th byte from the head lives. */
  function Slot(head: nat, i: nat): (k: nat)
    requires head < 32768
    ensures k < 32768
  {
    (head + i) % 32768
  }

  lemma SlotsApart(head: nat, i: nat, j: nat)
    requires head < 32768 && i < j < 32768
    ensures Slot(head, i) != Slot(head, j)
  {
  }

  lemma SlotMoved(head: nat, n: nat, i: nat)
    requires head < 32768
    ensures Slot(Slot(head, n), i) == Slot(head, n + i)
  {
  }

  class Ring {
    const buf: array<bv8>
    var head: nat
    var len: nat

    ghost predicate Valid()
      reads this
    {
      buf.Length == 32768 && head < 32768 && len <= 32768
    }

    ghost function Contents(): (s: Bytes)
      reads this, buf
      requires Valid()
      ensures |s| == len
    {
      seq(len, i requires 0 <= i < len reads this, buf requires Valid() => buf[Slot(head, i)])
    }

    constructor ()
      ensures Valid() && fresh(buf) && Contents() == []
    {
      buf := new bv8[32768];
      head, len := 0, 0;
    }

    /** Received bytes go behind those already there. */
    method Append(data: Bytes)
      requires Valid() && len + |data| <= 32768
      modifies this`len, buf
      ensures Valid() && Contents() == old(Contents()) + data
    {
      var i := 0;
      while i < |data|
        invariant 0 <= i <= |data| && Valid() && len == old(len)
        invariant forall k | 0 <= k < len :: buf[Slot(head, k)] == old(buf[Slot(head, k)])
        invariant forall k | 0 <= k < i :: buf[Slot(head, len + k)] == data[k]
      {
        forall k | 0 <= k < len + i ensures Slot(head, k) != Slot(head, len + i) {
          SlotsApart(head, k, len + i);
        }
        buf[Slot(head, len + i)] := data[i];
        i := i + 1;
      }
      len := len + |data|;
      forall k | 0 <= k < len ensures Contents()[k] == (old(Contents()) + data)[k] {
        if k >= old(len) {
          assert buf[Slot(head, old(len) + (k - old(len)))] == data[k - old(len)];
        }
      }
    }

    /** Reading takes from the front. */
    method Take(n: nat) returns (data: Bytes)
      requires Valid() && n <= len
      modifies this`head, this`len
      ensures Valid() && old(Contents()) == data + Contents() && |data| == n
    {
      data := [];
      for i := 0 to n
        invariant data == old(Contents())[..i] && head == old(head) && len == old(len)
      {
        data := data + [buf[Slot(head, i)]];
      }
      head, len := Slot(head, n), len - n;
      forall k | 0 <= k < len ensures Contents()[k] == old(Contents())[n + k] {
        SlotMoved(old(head), n, k);
      }
    }
  }
}
