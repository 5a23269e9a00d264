/** Mapping a memory object: the handle, the task's list of mappings and the page tables together. */
module VmoMapping {
  import opened Common
  import opened Handles
  import opened References
  import opened Capabilities
  import PageTree
  import PageRights
  import PageTables
  import Spaces
  import SpaceLife
  import UserAccess

  datatype MapResult = MapDone | MapRefused(code: Code) | MapRange | MapExists

  /** What the call returns, as far as it does not depend on whether there are pages for the tables. */
  ghost function Refusal(w: World, mem: PageTree.Memory, root: nat, t: nat, h: nat, va: nat,
                         prot: nat): Option<MapResult>
    requires t in w.tables && t in w.maps && TableOk(w.tables[t])
  {
    if prot == 0 || prot > 3 then Some(MapRefused(Invalid))
    else
      var st := Lookup(w.tables[t], w.objs, h, VMO, MapNeeds(prot));
      if st != Done then Some(MapRefused(st))
      else
        var o := Named(w, t, h);
        if va % 0x1000 != 0 then Some(MapRefused(Invalid))
        else if !SpaceLife.Fits(va, |w.objs[o].pages|) then Some(MapRange)
        else if FirstNone(w.maps[t], 0) == |w.maps[t]| then Some(MapRefused(NoMemory))
        else if exists i: nat ::
                  i < |w.objs[o].pages| && PageTree.Lookup(mem, root, 3, SpaceLife.PageAt(va, i)).Some?
        then Some(MapExists)
        else None
  }

  /** The pages of the object are at va, in order and not executable, writable only if the handle allows it, and
      nothing else has changed. */
  ghost predicate Placed(w: World, t: nat, h: nat, va: nat, prot: nat, mem: PageTree.Memory, mem': PageTree.Memory,
                         at: map<nat, PageTree.Place>, root: nat)
    requires t in w.tables && TableOk(w.tables[t])
  {
    && Resolve(w.tables[t], h).Some? && Named(w, t, h) in w.objs && w.objs[Named(w, t, h)].Vmo?
    && MapNeeds(prot) <= w.tables[t][Resolve(w.tables[t], h).value].rights
    && SpaceLife.Shows(mem, mem', at, root, va, SpaceLife.Leaves(w.objs[Named(w, t, h)].pages, prot >= 2))
  }

  /** The checks before anything is changed; o is the object and i the place for the mapping. */
  method Check(k: Kernel, pt: PageTables.Tables, root: nat, t: nat, h: nat, va: nat, prot: nat)
    returns (r: Option<MapResult>, o: nat, i: nat)
    requires k.Valid() && t in k.tables
    ensures TableOk(k.tables[t]) && t in k.maps && r == Refusal(k.W(), pt.mem, root, t, h, va, prot)
    ensures r.None? ==>
              && Resolve(k.tables[t], h).Some? && o == Named(k.W(), t, h) && o in k.objs && k.objs[o].Vmo?
              && MapNeeds(prot) <= k.tables[t][Resolve(k.tables[t], h).value].rights
              && i == FirstNone(k.maps[t], 0) < |k.maps[t]|
              && SpaceLife.Fits(va, |k.objs[o].pages|)
              && forall j: nat | j < |k.objs[o].pages| ::
                   PageTree.Lookup(pt.mem, root, 3, SpaceLife.PageAt(va, j)) == None
  {
    TheTask(k.W(), multiset{}, t);
    i := 0;
    var st;
    st, o := k.Mappable(t, h, prot);
    if st != Done {
      return Some(MapRefused(st)), o, i;
    }
    var frames := k.objs[o].pages;
    if va % 0x1000 != 0 {
      return Some(MapRefused(Invalid)), o, i;
    }
    if !UserAccess.RangeOk(va, 0x1000 * |frames|) {
      return Some(MapRange), o, i;
    }
    i := k.FindMap(t);
    if i == |k.maps[t]| {
      return Some(MapRefused(NoMemory)), o, i;
    }
    var any := SpaceLife.AnyMapped(pt, root, va, |frames|);
    r := if any then Some(MapExists) else None;
  }

  method Map(k: Kernel, pt: PageTables.Tables, root: nat, t: nat, h: nat, va: nat, prot: nat, ghost home: map<nat, nat>)
    returns (r: MapResult)
    requires k.Valid() && t in k.tables && Alive(t) in k.holders
    requires pt.Valid() && PageTree.IsRoot(pt.at, root) && root != pt.kernel
    requires Spaces.SpaceOk(pt.mem, pt.pmm.Free(), root, home)
    requires forall o | o in k.objs && k.objs[o].Vmo? :: forall p <- k.objs[o].pages :: p * 0x1000 < PageTables.PHYS_MAX
    modifies k`objs, k`maps, k`holders, pt, pt.pmm, pt.pmm.used
    ensures k.Valid() && pt.Valid() && PageTables.Extends(old(pt.at), pt.at, root)
    ensures Spaces.SpaceOk(pt.mem, pt.pmm.Free(), root, home)
    ensures Spaces.Account(pt.mem, pt.pmm.Free(), home) == old(Spaces.Account(pt.mem, pt.pmm.Free(), home))
    ensures TableOk(old(k.tables)[t]) && t in old(k.maps)
    ensures match old(Refusal(k.W(), pt.mem, root, t, h, va, prot))
            case Some(why) => r == why
            case None => r == MapDone || (r == MapRefused(NoMemory) && pt.pmm.Free() == {})
    ensures PageRights.Nested(old(pt.mem), old(pt.at)) ==> PageRights.Nested(pt.mem, pt.at)
    ensures r != MapDone ==> k.W() == old(k.W()) && PageTables.SameWalks(old(pt.at), old(pt.mem), pt.mem)
    ensures r == MapDone ==>
              && Placed(old(k.W()), t, h, va, prot, old(pt.mem), pt.mem, old(pt.at), root)
              && FirstNone(old(k.maps)[t], 0) < |old(k.maps)[t]|
              && k.W() == MapAdded(old(k.W()), t, FirstNone(old(k.maps)[t], 0), Named(old(k.W()), t, h))
  {
    var why, o, i := Check(k, pt, root, t, h, va, prot);
    if why.Some? {
      return why.value;
    }
    var ok := Enter(k, pt, root, t, o, i, va, prot, home);
    r := if ok then MapDone else MapRefused(NoMemory);
  }

  /** The pages into the tables, and the mapping into the task's list. */
  method Enter(k: Kernel, pt: PageTables.Tables, root: nat, t: nat, o: nat, i: nat, va: nat, prot: nat,
               ghost home: map<nat, nat>)
    returns (ok: bool)
    requires k.Valid() && Alive(t) in k.holders && t in k.maps && i < |k.maps[t]| && k.maps[t][i].None?
    requires o in k.objs && k.objs[o].Vmo? && forall p <- k.objs[o].pages :: p * 0x1000 < PageTables.PHYS_MAX
    requires pt.Valid() && PageTree.IsRoot(pt.at, root) && root != pt.kernel
    requires Spaces.SpaceOk(pt.mem, pt.pmm.Free(), root, home)
    requires SpaceLife.Fits(va, |k.objs[o].pages|)
    requires forall j: nat | j < |k.objs[o].pages| :: PageTree.Lookup(pt.mem, root, 3, SpaceLife.PageAt(va, j)) == None
    modifies k`objs, k`maps, k`holders, pt, pt.pmm, pt.pmm.used
    ensures k.Valid() && pt.Valid() && PageTables.Extends(old(pt.at), pt.at, root)
    ensures Spaces.SpaceOk(pt.mem, pt.pmm.Free(), root, home)
    ensures Spaces.Account(pt.mem, pt.pmm.Free(), home) == old(Spaces.Account(pt.mem, pt.pmm.Free(), home))
    ensures k.W() == if ok then MapAdded(old(k.W()), t, i, o) else old(k.W())
    ensures if ok then SpaceLife.Shows(old(pt.mem), pt.mem, old(pt.at), root, va,
                                       SpaceLife.Leaves(old(k.objs)[o].pages, prot >= 2))
            else pt.pmm.Free() == {} && PageTables.SameWalks(old(pt.at), old(pt.mem), pt.mem)
    ensures PageRights.Nested(old(pt.mem), old(pt.at)) ==> PageRights.Nested(pt.mem, pt.at)
  {
    var done := SpaceLife.MapAll(pt, root, va, k.objs[o].pages, prot >= 2, home);
    ok := done == SpaceLife.VmoOk;
    if ok {
      Note(k, pt, t, i, o);
    }
  }

  /** The mapping into the task's list; the page tables are not touched. */
  method Note(k: Kernel, ghost pt: PageTables.Tables, t: nat, i: nat, o: nat)
    requires k.Valid() && Alive(t) in k.holders && t in k.maps && i < |k.maps[t]| && k.maps[t][i].None?
    requires o in k.objs && k.objs[o].Vmo? && pt.Valid()
    modifies k`objs, k`maps, k`holders
    ensures k.Valid() && pt.Valid() && k.W() == MapAdded(old(k.W()), t, i, o)
  {
    k.AddMap(t, i, o);
  }
}
