/** On-disk structures of nxstore v1 and the checks a reader makes on them. */
module StoreFormat {

  const BLOCK := 4096
  const FORMAT_VERSION := 1
  const FIRST_DATA := 2
  const MIN_BLOCKS := 16
  const MAX_BLOCKS := 32768
  const HIST_MAX := 8
  const PIN_MAX := 4
  const LOG_MAX := 16
  const OBJ_MAX := 49
  const NAME_MAX := 27
  const PIN_NAME_MAX := 15
  const LABEL_MAX := 15
  const OBJ_MAX_BYTES := 8 * BLOCK
  const RETAIN_MIN := 2
  const RETAIN_MAX := HIST_MAX + 1
  const RESERVE_BLOCKS := 10
  const TWO32 := 0x1_0000_0000

  type Bytes = seq<bv8>
  type Page = b: Bytes | |b| == BLOCK witness seq(BLOCK, _ => 0)

  /** The objects of one generation: bytes by name. */
  type Contents = map<string, Bytes>

  datatype Super = Super(version: nat, blockSize: nat, blockCount: nat, storeId: nat, gen: nat,
                         rootBlk: nat, rootCrc: nat, retain: nat, bootId: nat)
  datatype Ref = Ref(gen: nat, blk: nat, crc: nat)
  datatype Pin = Pin(name: string, ref: Ref)
  datatype LogEntry = LogEntry(gen: nat, bootId: nat, text: string)
  datatype Obj = Obj(oid: nat, modGen: nat, version: nat, blk: nat, len: nat, crc: nat,
                     kind: nat, nblk: nat, name: string)
  datatype Root = Root(gen: nat, parentGen: nat, storeId: nat, nextOid: nat, bootId: nat,
                       retain: nat, flags: nat, text: string, hist: seq<Ref>, pins: seq<Pin>,
                       log: seq<LogEntry>, objs: seq<Obj>)

  /** What a block holds.  A torn block is Junk: its checksum does not match.  Every other
      checksum comparison is explicit and works for arbitrary checksum functions. */
  datatype Block = SuperBlock(super: Super) | RootBlock(root: Root) | DataBlock(bytes: Page) | Junk

  datatype Checksums = Checksums(root: Root -> nat, data: Bytes -> nat)

  // ---- names ----

  predicate NameChar(c: char) {
    'a' <= c <= 'z' || 'A' <= c <= 'Z' || '0' <= c <= '9' || c == '.' || c == '_' || c == '-' || c == '/'
  }

  predicate NameOk(name: string) {
    0 < |name| <= NAME_MAX && forall c <- name :: NameChar(c)
  }

  predicate PinNameOk(name: string) {
    0 < |name| <= PIN_NAME_MAX &&
    forall c <- name :: 'a' <= c <= 'z' || '0' <= c <= '9' || c == '_' || c == '-'
  }

  predicate LabelOk(text: string) {
    0 < |text| <= LABEL_MAX && forall c <- text :: ' ' < c <= '~'
  }

  // ---- which roots a mount accepts ----

  function NblkFor(len: nat): nat {
    (len + 4095) / 4096
  }

  predicate Overlap(a: nat, an: nat, b: nat, bn: nat) {
    a < b + bn && b < a + an
  }

  predicate HeaderSane(r: Root) {
    && r.gen != 0 && r.parentGen < r.gen
    && |r.objs| <= OBJ_MAX && |r.hist| <= HIST_MAX && |r.pins| <= PIN_MAX
    && 0 < |r.log| <= LOG_MAX && r.log[0].gen == r.gen
    && RETAIN_MIN <= r.retain <= RETAIN_MAX && r.nextOid != 0
    && |r.text| <= LABEL_MAX
  }

  predicate RefSane(f: Ref, gen: nat, blocks: nat) {
    0 < f.gen < gen && FIRST_DATA <= f.blk < blocks
  }

  /** The retained generations, newest first: strictly decreasing from the root's own. */
  predicate HistSane(gen: nat, hist: seq<Ref>, blocks: nat) {
    && (hist != [] ==> hist[0].gen < gen)
    && (forall f <- hist :: 0 < f.gen && FIRST_DATA <= f.blk < blocks)
    && forall i | 0 < i < |hist| :: hist[i].gen < hist[i - 1].gen
  }

  predicate PinsSane(r: Root, blocks: nat) {
    && (forall p <- r.pins :: PinNameOk(p.name) && RefSane(p.ref, r.gen, blocks))
    && forall i, j | 0 <= j < i < |r.pins| :: r.pins[j].name != r.pins[i].name
  }

  predicate ObjShaped(o: Obj, gen: nat, nextOid: nat, blocks: nat) {
    && NameOk(o.name) && 0 < o.oid < nextOid && 0 < o.modGen <= gen
    && o.len <= OBJ_MAX_BYTES && o.nblk == NblkFor(o.len)
    && (if o.nblk != 0 then FIRST_DATA <= o.blk && o.blk + o.nblk <= blocks else o.blk == 0)
  }

  predicate ObjsApart(p: Obj, o: Obj) {
    && p.name != o.name && p.oid != o.oid
    && !(o.nblk != 0 && p.nblk != 0 && Overlap(o.blk, o.nblk, p.blk, p.nblk))
  }

  predicate ObjsShaped(objs: seq<Obj>, gen: nat, nextOid: nat, blocks: nat) {
    && (forall o <- objs :: ObjShaped(o, gen, nextOid, blocks))
    && forall i, j | 0 <= j < i < |objs| :: ObjsApart(objs[j], objs[i])
  }

  /** No object's 32-bit version counter stands at 0. */
  predicate VersionsOk(objs: seq<Obj>) {
    forall o <- objs :: o.version != 0
  }

  predicate ObjsSane(objs: seq<Obj>, gen: nat, nextOid: nat, blocks: nat) {
    ObjsShaped(objs, gen, nextOid, blocks) && VersionsOk(objs)
  }

  predicate RootSane(r: Root, blocks: nat) {
    HeaderSane(r) && HistSane(r.gen, r.hist, blocks) && PinsSane(r, blocks)
    && ObjsSane(r.objs, r.gen, r.nextOid, blocks)
  }

  // ---- extents ----

  predicate Within(first: nat, n: nat, b: nat) {
    first <= b < first + n
  }

  function Span(first: nat, n: nat): set<nat> {
    set b: nat | first <= b < first + n && Within(first, n, b)
  }

  predicate Covers(o: Obj, b: nat) {
    Within(o.blk, o.nblk, b)
  }

  function Extent(o: Obj): set<nat> {
    Span(o.blk, o.nblk)
  }

  /** The block of a root and the blocks of its data extents. */
  function RootBlocks(r: Root, blk: nat): set<nat> {
    {blk} + set o, b | o in r.objs && b in Extent(o) :: b
  }

  predicate Readable(v: seq<Block>, o: Obj) {
    && o.blk + o.nblk <= |v| && NblkFor(o.len) <= o.nblk
    && forall b | o.blk <= b < o.blk + o.nblk :: v[b].DataBlock?
  }

  function Joined(v: seq<Block>, first: nat, n: nat): (r: Bytes)
    requires first + n <= |v| && forall b | first <= b < first + n :: v[b].DataBlock?
    ensures NblkFor(|r|) == n && |r| == 4096 * n
    decreases n
  {
    if n == 0 then [] else v[first].bytes + Joined(v, first + 1, n - 1)
  }

  function ObjBytes(v: seq<Block>, o: Obj): (r: Bytes)
    requires Readable(v, o)
    ensures |r| == o.len
  {
    Joined(v, o.blk, o.nblk)[..o.len]
  }

  predicate ExtentOk(v: seq<Block>, o: Obj, sum: Checksums) {
    Readable(v, o) && sum.data(ObjBytes(v, o)) == o.crc
  }

  /** The blocks of the extent that stores `data`: the tail is padded with zeros. */
  function Pieces(data: Bytes): (r: seq<Block>)
    ensures |r| == NblkFor(|data|)
    decreases |data|
  {
    if data == [] then []
    else if |data| < BLOCK then [DataBlock(data + seq(BLOCK - |data|, _ => 0))]
    else [DataBlock(data[..BLOCK])] + Pieces(data[BLOCK..])
  }

  lemma {:induction false} JoinedPieces(v: seq<Block>, first: nat, data: Bytes)
    requires first + NblkFor(|data|) <= |v| && v[first..first + NblkFor(|data|)] == Pieces(data)
    ensures forall b | first <= b < first + NblkFor(|data|) :: v[b].DataBlock?
    ensures data <= Joined(v, first, NblkFor(|data|))
    decreases |data|
  {
    var n := NblkFor(|data|);
    if data != [] {
      assert v[first] == v[first..first + n][0];
      if |data| >= BLOCK {
        assert v[first + 1..first + n] == v[first..first + n][1..];
        JoinedPieces(v, first + 1, data[BLOCK..]);
        assert data == data[..BLOCK] + data[BLOCK..];
      }
    }
  }

  /** Reading the extent that a put wrote gives back the bytes that were put. */
  lemma PutReadsBack(v: seq<Block>, o: Obj, data: Bytes, sum: Checksums)
    requires o.len == |data| && o.nblk == NblkFor(o.len) && o.blk + o.nblk <= |v|
    requires o.crc == sum.data(data) && v[o.blk..o.blk + o.nblk] == Pieces(data)
    ensures ExtentOk(v, o, sum) && ObjBytes(v, o) == data
  {
    JoinedPieces(v, o.blk, data);
    assert ObjBytes(v, o) == data;
  }

  lemma {:induction false} JoinedFrame(v: seq<Block>, v': seq<Block>, first: nat, n: nat)
    requires first + n <= |v| && |v'| == |v|
    requires forall b | first <= b < first + n :: v[b].DataBlock? && v'[b] == v[b]
    ensures Joined(v', first, n) == Joined(v, first, n)
    decreases n
  {
    if n > 0 {
      JoinedFrame(v, v', first + 1, n - 1);
    }
  }

  /** An extent reads the same on two disks that agree on its blocks. */
  lemma ExtentFrame(v: seq<Block>, v': seq<Block>, o: Obj, sum: Checksums)
    requires |v'| == |v| && forall b | o.blk <= b < o.blk + o.nblk && b < |v| :: v'[b] == v[b]
    ensures Readable(v', o) == Readable(v, o)
    ensures Readable(v, o) ==> ObjBytes(v', o) == ObjBytes(v, o)
    ensures ExtentOk(v', o, sum) == ExtentOk(v, o, sum)
  {
    assert Readable(v, o) ==> Readable(v', o);
    if Readable(v, o) {
      JoinedFrame(v, v', o.blk, o.nblk);
    }
  }
}
