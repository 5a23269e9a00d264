/** What the processor permits at an address: the rights that every entry of the walk grants.  The tables are
    kept so that these are the rights of the leaf. */
module PageRights {
  import opened Common
  import opened PageTree
  import opened PageUpdate

  const RIGHTS: set<nat> := {W, U}

  /** The rights that all the entries of a walk have. */
  function Allowed(mem: Memory, t: nat, level: nat, va: nat): set<nat>
    requires level < 4
    decreases level
  {
    if t !in mem || |mem[t]| != 512 then {} else
      var e := mem[t][Index(va, level)];
      if !Present(e) then {}
      else if IsLeaf(e, level) then e.flags * RIGHTS
      else if level == 0 then {}
      else e.flags * Allowed(mem, e.frame, level - 1, va)
  }

  /** Nothing in table t is for the user. */
  ghost predicate Private(mem: Memory, t: nat) {
    t in mem ==> forall j | 0 <= j < |mem[t]| :: Present(mem[t][j]) ==> U !in mem[t][j].flags
  }

  /** An entry that leads to a table lets writes through, and whatever there is for the user behind it. */
  ghost predicate Leads(mem: Memory, e: Pte, level: nat) {
    Refers(e, level) ==> W in e.flags && (U in e.flags || Private(mem, e.frame))
  }

  ghost predicate AskEntry(t: nat, i: nat) {
    true
  }

  ghost predicate NestedKey(k: nat, mem: Memory, at: map<nat, Place>) {
    true
  }

  /** So it is with all the entries (behind a key). */
  ghost predicate Nested(mem: Memory, at: map<nat, Place>) {
    forall k {:trigger NestedKey(k, mem, at)} :: NestedKey(k, mem, at) ==>
      forall t: nat, i: nat {:trigger AskEntry(t, i)} :: AskEntry(t, i) ==>
        (t in mem && t in at && i < |mem[t]| && |at[t].path| <= 3 ==> Leads(mem, mem[t][i], 3 - |at[t].path|))
  }

  lemma NestedAt(mem: Memory, at: map<nat, Place>, t: nat, i: nat)
    requires Nested(mem, at) && t in mem && t in at && i < |mem[t]| && |at[t].path| <= 3
    ensures Leads(mem, mem[t][i], 3 - |at[t].path|)
  {
    assert NestedKey(0, mem, at) && AskEntry(t, i);
  }

  /** The processor permits exactly what the leaf says. */
  lemma {:induction false} AllowedIff(mem: Memory, at: map<nat, Place>, kernel: nat, t: nat, level: nat, va: nat)
    requires TreeOk(mem, at, kernel) && Nested(mem, at) && level < 4 && OnWalk(at, t, level, va)
    ensures var leaf := Lookup(mem, t, level, va);
            Allowed(mem, t, level, va) == if leaf.Some? then leaf.value.entry.flags * RIGHTS else {}
    ensures Private(mem, t) ==> U !in Allowed(mem, t, level, va)
    decreases level
  {
    assert TableOk(mem, at, kernel, t);
    var i := Index(va, level);
    NestedAt(mem, at, t, i);
    if level > 0 && Refers(mem[t][i], level) {
      WalkNext(mem, at, kernel, t, level, va);
      AllowedIff(mem, at, kernel, mem[t][i].frame, level - 1, va);
    }
  }

  /** The entry that leads to t, if there is one, is open for the user. */
  ghost predicate Lit(mem: Memory, at: map<nat, Place>, t: nat)
    requires t in at
  {
    var w := at[t];
    w.path != [] ==>
      && 1 <= w.path[0] <= 255 && w.up in mem && w.path[|w.path| - 1] < |mem[w.up]|
      && U in mem[w.up][w.path[|w.path| - 1]].flags
  }

  /** In a user slot only one entry leads to a table. */
  lemma OneWay(mem: Memory, at: map<nat, Place>, kernel: nat, s: nat, j: nat, t: nat)
    requires TreeOk(mem, at, kernel) && s in mem && t in at && j < 512 && |mem[s]| == 512 && |at[s].path| <= 3
    requires Refers(mem[s][j], 3 - |at[s].path|) && mem[s][j].frame == t
    ensures at[t].path == at[s].path + [j] && |at[t].path| >= 1
    ensures 1 <= at[t].path[0] <= 255 ==> at[t].up == s
  {
    assert TableOk(mem, at, kernel, s);
    assert EntryOk(mem, at, kernel, s, j);
  }

  /** Entries that are cleared, and tables that go, leave the rest in order. */
  lemma NestedFewer(mem: Memory, at: map<nat, Place>, mem': Memory, at': map<nat, Place>)
    requires Nested(mem, at) && mem'.Keys <= mem.Keys && forall s | s in mem' && s in at' :: s in at && at'[s] == at[s]
    requires forall s | s in mem' :: |mem'[s]| == |mem[s]| &&
               forall j | 0 <= j < |mem[s]| :: mem'[s][j] == mem[s][j] || !Present(mem'[s][j])
    ensures Nested(mem', at')
  {
    forall s: nat, j: nat | s in mem' && s in at' && j < |mem'[s]| && |at'[s].path| <= 3
      ensures Leads(mem', mem'[s][j], 3 - |at'[s].path|)
    {
      NestedAt(mem, at, s, j);
    }
  }

  /** An entry changes: it may gain the user flag only where the entry above has it. */
  lemma PutNested(mem: Memory, at: map<nat, Place>, kernel: nat, t: nat, i: nat, e: Pte)
    requires TreeOk(mem, at, kernel) && Nested(mem, at) && t in mem && i < 512 && |mem[t]| == 512 && |at[t].path| <= 3
    requires var l := 3 - |at[t].path|;
             Refers(e, l) ==> Refers(mem[t][i], l) && e.frame == mem[t][i].frame && mem[t][i].flags <= e.flags
    requires Present(e) && U in e.flags ==> Lit(mem, at, t)
    ensures Nested(Put(mem, t, i, e), at)
  {
    var mem' := Put(mem, t, i, e);
    forall s: nat, j: nat | s in mem' && s in at && j < |mem'[s]| && |at[s].path| <= 3
      ensures Leads(mem', mem'[s][j], 3 - |at[s].path|)
    {
      PutLeads(mem, at, kernel, t, i, e, s, j);
    }
  }

  lemma PutLeads(mem: Memory, at: map<nat, Place>, kernel: nat, t: nat, i: nat, e: Pte, s: nat, j: nat)
    requires TreeOk(mem, at, kernel) && Nested(mem, at) && t in mem && i < 512 && |mem[t]| == 512 && |at[t].path| <= 3
    requires var l := 3 - |at[t].path|;
             Refers(e, l) ==> Refers(mem[t][i], l) && e.frame == mem[t][i].frame && mem[t][i].flags <= e.flags
    requires Present(e) && U in e.flags ==> Lit(mem, at, t)
    requires s in mem && s in at && j < |mem[s]| && |at[s].path| <= 3
    ensures Leads(Put(mem, t, i, e), Put(mem, t, i, e)[s][j], 3 - |at[s].path|)
  {
    var mem' := Put(mem, t, i, e);
    assert TableOk(mem, at, kernel, s);
    NestedAt(mem, at, s, j);
    var f, l := mem[s][j], 3 - |at[s].path|;
    if Refers(mem'[s][j], l) {
      assert Refers(f, l) && mem'[s][j].frame == f.frame;
      assert EntryOk(mem, at, kernel, s, j);
      OneWay(mem, at, kernel, s, j, f.frame);
      assert s == t && j == i ==> f.frame != t;
    }
  }

  /** A new table is hung: with the user flag only where the entry above has it. */
  lemma HangNested(mem: Memory, at: map<nat, Place>, kernel: nat, t: nat, i: nat, p: nat, flags: set<nat>)
    requires CanHang(mem, at, kernel, t, i, p) && Nested(mem, at) && W in flags && P in flags && PS !in flags
    requires U in flags ==> Lit(mem, at, t)
    ensures Nested(Hang(mem, t, i, p, flags), at[p := Below(kernel, at[t], t, i)])
  {
    var mem', at' := Hang(mem, t, i, p, flags), at[p := Below(kernel, at[t], t, i)];
    forall s: nat, j: nat | s in mem' && s in at' && j < |mem'[s]| && |at'[s].path| <= 3
      ensures Leads(mem', mem'[s][j], 3 - |at'[s].path|)
    {
      HangLeads(mem, at, kernel, t, i, p, flags, s, j);
    }
  }

  lemma HangLeads(mem: Memory, at: map<nat, Place>, kernel: nat, t: nat, i: nat, p: nat, flags: set<nat>, s: nat,
                  j: nat)
    requires CanHang(mem, at, kernel, t, i, p) && Nested(mem, at) && W in flags && P in flags && PS !in flags
    requires U in flags ==> Lit(mem, at, t)
    requires s in Hang(mem, t, i, p, flags) && j < |Hang(mem, t, i, p, flags)[s]|
    requires s in at[p := Below(kernel, at[t], t, i)] && |at[p := Below(kernel, at[t], t, i)][s].path| <= 3
    ensures Leads(Hang(mem, t, i, p, flags), Hang(mem, t, i, p, flags)[s][j],
                  3 - |at[p := Below(kernel, at[t], t, i)][s].path|)
  {
    var mem' := Hang(mem, t, i, p, flags);
    assert mem'[p] == NewTable();
    if s in mem && !(s == t && j == i) {
      assert TableOk(mem, at, kernel, s);
      NestedAt(mem, at, s, j);
      var f, l := mem[s][j], 3 - |at[s].path|;
      if Refers(f, l) {
        assert EntryOk(mem, at, kernel, s, j);
        OneWay(mem, at, kernel, s, j, f.frame);
      }
    }
  }
}
