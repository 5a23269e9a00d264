/** Handle values and the table slots they name. */
module Handles {
  import opened Common
  import opened Congruence

  const SLOTS: nat := 32

  const GEN_MAX: nat := 0x7F_FFFF

  /** A slot of a handle table; without an object it is free. */
  datatype Entry = Entry(obj: Option<nat>, rights: set<nat>, gen: nat)

  predicate TableOk(t: seq<Entry>) {
    |t| == SLOTS && forall i | 0 <= i < SLOTS :: 1 <= t[i].gen <= GEN_MAX
  }

  function NewTable(): (t: seq<Entry>) {
    seq(SLOTS, i => Entry(None, {}, 1))
  }

  /** The generation of a slot after so many handles of it have been closed or moved. */
  function GenOf(bumps: nat): nat {
    1 + bumps % GEN_MAX
  }

  function Bump(gen: nat): nat {
    if gen >= GEN_MAX then 1 else gen + 1
  }

  lemma BumpGen(bumps: nat)
    ensures Bump(GenOf(bumps)) == GenOf(bumps + 1)
  {
    var q, r := bumps / 0x7F_FFFF, bumps % 0x7F_FFFF;
    if r + 1 < 0x7F_FFFF {
      Div(bumps + 1, 0x7F_FFFF, q, r + 1);
    } else {
      Div(bumps + 1, 0x7F_FFFF, q + 1, 0);
    }
  }

  function Encode(i: nat, gen: nat): nat {
    gen * 256 + (i + 1)
  }

  /** The slot a handle value names, if it names one that is taken. */
  function Resolve(t: seq<Entry>, h: nat): Option<nat>
    requires TableOk(t)
  {
    var slot, gen := h % 256, h / 256;
    if slot == 0 || slot > SLOTS || h >= 0x8000_0000 then None
    else if t[slot - 1].obj.None? || t[slot - 1].gen != gen then None
    else Some(slot - 1)
  }

  /** A value resolves to a slot exactly if the slot is taken and the value was made for its generation. */
  lemma ResolveIff(t: seq<Entry>, h: nat, i: nat)
    requires TableOk(t)
    ensures Resolve(t, h) == Some(i) <==> i < SLOTS && t[i].obj.Some? && h == Encode(i, t[i].gen)
  {
    if i < SLOTS && h == Encode(i, t[i].gen) {
      Div(h, 256, t[i].gen, i + 1);
    }
  }

  lemma ModZeroIff(b: nat, c: nat)
    requires b <= c
    ensures (c - b) % 0x7F_FFFF == 0 <==> c % 0x7F_FFFF == b % 0x7F_FFFF
  {
    var m := 0x7F_FFFF;
    var q, r, p, s := b / m, b % m, c / m, c % m;
    if r == s {
      Div(c - b, m, p - q, 0);
    }
  }

  /** A value given out when its slot had been closed or moved b times, looked up when it has been c times:
      it resolves only to a slot that is taken, and only if the generations have come round in between. */
  lemma StaleIff(t: seq<Entry>, i: nat, b: nat, c: nat)
    requires TableOk(t) && i < SLOTS && t[i].gen == GenOf(c) && b <= c
    ensures Resolve(t, Encode(i, GenOf(b))).Some? <==> t[i].obj.Some? && (c - b) % GEN_MAX == 0
    ensures b < c < b + GEN_MAX ==> Resolve(t, Encode(i, GenOf(b))) == None
  {
    var h := Encode(i, GenOf(b));
    ResolveIff(t, h, i);
    ModZeroIff(b, c);
    if Resolve(t, h).Some? {
      ResolveIff(t, h, Resolve(t, h).value);
      Div(h, 256, GenOf(b), i + 1);
    }
  }
}
