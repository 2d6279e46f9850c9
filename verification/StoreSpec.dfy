/** The state of an open store, what each operation makes of it, and the invariant that ties the
    block allocator, the indexes and the directory record to the blocks on disk. */
module StoreSpec {
  import opened Codec
  import opened BlockTable
  import opened ChainWrite
  import Directory

  const DIRECTORY_TAG: nat := 0xFFFF_FFFF

  datatype HeadInfo = HeadInfo(tag: nat, next: nat)

  datatype State = State(
    cap: nat,                      // data bytes per block
    durable: bool,
    table: Table,                  // the file
    nblocks: nat,                  // data blocks are 1..nblocks
    free: seq<nat>,                // a stack, top at the end
    head: map<nat, HeadInfo>,
    byTag: map<nat, set<nat>>,
    roots: Directory.Roots,
    dirId: nat)                    // 0 when there is no directory record

  // ---- Allocation --------------------------------------------------------------------

  /** The ids that k allocations give: the free stack from the top, then fresh blocks. */
  function Taken(free: seq<nat>, nblocks: nat, k: nat): (ids: seq<nat>)
    ensures |ids| == k
  {
    seq(k, i requires 0 <= i < k => if i < |free| then free[|free| - 1 - i] else nblocks + 1 + i - |free|)
  }

  function FreeLeft(free: seq<nat>, k: nat): seq<nat> {
    if k <= |free| then free[..|free| - k] else []
  }

  function BlocksAfter(free: seq<nat>, nblocks: nat, k: nat): nat {
    if k <= |free| then nblocks else nblocks + (k - |free|)
  }

  // ---- Operations --------------------------------------------------------------------

  function TagSet(byTag: map<nat, set<nat>>, tag: nat): set<nat> {
    if tag in byTag then byTag[tag] else {}
  }

  function InsertIds(s: State, data: Bytes): (ids: seq<nat>)
    requires s.cap > 0
    ensures |ids| == |Pieces(data, s.cap)|
  {
    Taken(s.free, s.nblocks, |Pieces(data, s.cap)|)
  }

  function UpdateIds(s: State, id: nat, data: Bytes): (ids: seq<nat>)
    requires s.cap > 0
    ensures |ids| == |Pieces(data, s.cap)|
  {
    [id] + Taken(s.free, s.nblocks, |Pieces(data, s.cap)| - 1)
  }

  function InsertEvents(s: State, data: Bytes, tag: nat): seq<Event>
    requires s.cap > 0
  {
    ChainEvents(InsertIds(s, data), Pieces(data, s.cap), tag, s.durable)
  }

  function UpdateEvents(s: State, id: nat, data: Bytes): seq<Event>
    requires s.cap > 0 && id in s.head
  {
    ChainEvents(UpdateIds(s, id, data), Pieces(data, s.cap), s.head[id].tag, s.durable)
  }

  function FreeEvents(id: nat, durable: bool): seq<Event> {
    [Put(id, FREE_BLOCK)] + SyncIf(durable)
  }

  function Insert(s: State, data: Bytes, tag: nat): State
    requires s.cap > 0
  {
    var ids, k := InsertIds(s, data), |Pieces(data, s.cap)|;
    s.(table := Apply(s.table, InsertEvents(s, data, tag)),
       nblocks := BlocksAfter(s.free, s.nblocks, k),
       free := FreeLeft(s.free, k),
       head := s.head[ids[0] := HeadInfo(tag, Link(ids, 1))],
       byTag := s.byTag[tag := TagSet(s.byTag, tag) + {ids[0]}])
  }

  /** chain is the run of continuations that the record gives up. */
  function Update(s: State, chain: seq<nat>, id: nat, data: Bytes): State
    requires s.cap > 0 && id in s.head
  {
    var ids, k := UpdateIds(s, id, data), |Pieces(data, s.cap)| - 1;
    s.(table := Apply(s.table, UpdateEvents(s, id, data)),
       nblocks := BlocksAfter(s.free, s.nblocks, k),
       free := FreeLeft(s.free, k) + chain,
       head := s.head[id := HeadInfo(s.head[id].tag, Link(ids, 1))])
  }

  function DropTag(byTag: map<nat, set<nat>>, tag: nat, id: nat): map<nat, set<nat>> {
    if tag !in byTag then byTag
    else if byTag[tag] - {id} == {} then byTag - {tag}
    else byTag[tag := byTag[tag] - {id}]
  }

  /** Removal up to, and without, the saving of the directory. */
  function Unlink(s: State, chain: seq<nat>, id: nat): State
    requires id in s.head
  {
    s.(table := Apply(s.table, FreeEvents(id, s.durable)),
       byTag := DropTag(s.byTag, s.head[id].tag, id),
       head := s.head - {id},
       free := s.free + [id] + chain,
       roots := DropRoots(s.roots, id))
  }

  function DropRoots(roots: Directory.Roots, id: nat): Directory.Roots {
    map n | n in roots && roots[n] != id :: roots[n]
  }

  ghost function SaveDirectory(s: State, l: Layout): State
    requires s.cap > 0 && (s.dirId != 0 ==> s.dirId in s.head)
  {
    var out := Directory.Encode(s.roots);
    if s.dirId == 0 then Insert(s, out, DIRECTORY_TAG).(dirId := InsertIds(s, out)[0])
    else Update(s, Chain(l, s.dirId), s.dirId, out)
  }

  ghost function SaveDirectoryEvents(s: State): seq<Event>
    requires s.cap > 0 && (s.dirId != 0 ==> s.dirId in s.head)
  {
    var out := Directory.Encode(s.roots);
    if s.dirId == 0 then InsertEvents(s, out, DIRECTORY_TAG) else UpdateEvents(s, s.dirId, out)
  }

  ghost function SaveDirectoryLayout(s: State, l: Layout): Layout
    requires s.cap > 0
  {
    var out := Directory.Encode(s.roots);
    var ids := if s.dirId == 0 then InsertIds(s, out) else UpdateIds(s, s.dirId, out);
    l[ids[0] := ids[1..]]
  }

  // ---- The invariant -------------------------------------------------------------------

  /** Every record takes exactly the blocks its length calls for. */
  ghost predicate PackedAs(r: map<nat, Record>, l: Layout, cap: nat)
    requires cap > 0
  {
    forall h :: h in l && h in r ==> |l[h]| + 1 == Chunks(|r[h].bytes|, cap)
  }

  ghost predicate Packed(t: Table, l: Layout, cap: nat)
    requires cap > 0 && Sound(t, l)
  {
    PackedAs(Records(t, l), l, cap)
  }

  ghost predicate HeadsExact(s: State, l: Layout)
    requires Sound(s.table, l)
  {
    && (forall h :: h in s.head <==> h in l)
    && (forall h :: h in l ==> IsHead(s.table, h) && s.head[h] == InfoOf(s.table[h].block))
  }

  function InfoOf(b: Block): HeadInfo {
    HeadInfo(b.tag, b.next)
  }

  /** The free stack holds each block that no record uses, once. */
  ghost predicate FreeExact(free: seq<nat>, nblocks: nat, l: Layout) {
    && Distinct(free)
    && (forall i :: 0 <= i < |free| ==> 0 < free[i] <= nblocks && !Used(l, free[i]))
    && (forall b: nat :: 0 < b <= nblocks && !Used(l, b) ==> b in free)
  }

  ghost predicate TagsExact(head: map<nat, HeadInfo>, byTag: map<nat, set<nat>>) {
    && (forall tag, id :: tag in byTag && id in byTag[tag] ==> id in head && head[id].tag == tag)
    && (forall id :: id in head ==> head[id].tag in byTag && id in byTag[head[id].tag])
    && (forall tag :: tag in byTag ==> byTag[tag] != {})
  }

  /** Blocks 1..nblocks are the heads, the blocks of one chain each, and the free stack. */
  ghost predicate Partition(s: State, l: Layout) {
    Sound(s.table, l) && |s.table| == s.nblocks + 1 && FreeExact(s.free, s.nblocks, l)
  }

  /** Allocator and indexes agree with the blocks on disk. */
  ghost predicate Indexed(s: State, l: Layout) {
    Partition(s, l) && HeadsExact(s, l) && TagsExact(s.head, s.byTag)
  }

  ghost predicate Core(s: State, l: Layout) {
    s.cap > 0 && Indexed(s, l) && Packed(s.table, l, s.cap)
  }

  ghost predicate OnlyDirectory(head: map<nat, HeadInfo>, dirId: nat) {
    && (dirId != 0 ==> dirId in head && head[dirId].tag == DIRECTORY_TAG)
    && (forall h :: h in head && head[h].tag == DIRECTORY_TAG ==> h == dirId)
  }

  /** There is one directory record, holding the roots, or none and no roots. */
  ghost predicate DirectoryExact(s: State, l: Layout)
    requires Sound(s.table, l) && HeadsExact(s, l)
  {
    && OnlyDirectory(s.head, s.dirId)
    && (if s.dirId == 0 then s.roots == map[]
        else Records(s.table, l)[s.dirId] == Record(DIRECTORY_TAG, Directory.Encode(s.roots)))
  }

  ghost predicate Inv(s: State, l: Layout) {
    Core(s, l) && DirectoryExact(s, l)
  }

  // ---- Allocation keeps the partition -----------------------------------------------------

  lemma TakenAt(free: seq<nat>, nblocks: nat, k: nat, i: nat)
    requires i < k
    ensures Taken(free, nblocks, k)[i] == if i < |free| then free[|free| - 1 - i] else nblocks + 1 + i - |free|
  {
  }

  lemma TakenFresh(free: seq<nat>, nblocks: nat, l: Layout, k: nat)
    requires FreeExact(free, nblocks, l)
    requires forall b: nat :: Used(l, b) ==> b <= nblocks
    ensures var ids := Taken(free, nblocks, k);
            && Distinct(ids)
            && (forall i :: 0 <= i < k ==> 0 < ids[i] <= BlocksAfter(free, nblocks, k) && !Used(l, ids[i]))
            && (forall b: nat :: nblocks < b <= BlocksAfter(free, nblocks, k) ==> b in ids)
  {
    var ids := Taken(free, nblocks, k);
    forall b: nat | nblocks < b <= BlocksAfter(free, nblocks, k) ensures b in ids {
      TakenAt(free, nblocks, k, b - nblocks - 1 + |free|);
    }
  }

  /** Allocation moves blocks from the stack to the ids, and what it leaves is still exact. */
  lemma TakenSplits(free: seq<nat>, nblocks: nat, k: nat, b: nat)
    requires forall i :: 0 <= i < |free| ==> 0 < free[i] <= nblocks
    requires Distinct(free)
    ensures b in FreeLeft(free, k) <==> b in free && b !in Taken(free, nblocks, k)
  {
    var ids, left := Taken(free, nblocks, k), FreeLeft(free, k);
    if b in left && b in ids {
      var i :| 0 <= i < |left| && left[i] == b;
      var j :| 0 <= j < |ids| && ids[j] == b;
      TakenAt(free, nblocks, k, j);
    }
    if b in free && b !in left {
      var i :| 0 <= i < |free| && free[i] == b;
      var j := |free| - 1 - i;
      assert j < k;
      TakenAt(free, nblocks, k, j);
      assert ids[j] == b;
    }
  }

  // ---- What a chain write keeps -----------------------------------------------------------

  /** The ids of a chain write: they may carry it, and every new block is among them. */
  ghost predicate Placed(s: State, l: Layout, ids: seq<nat>, nblocks: nat) {
    && MayCarry(l, ids) && s.nblocks <= nblocks
    && (forall i :: 0 <= i < |ids| ==> ids[i] <= nblocks)
    && (forall b: nat :: s.nblocks < b <= nblocks ==> b in ids)
  }

  lemma PlacedCommits(s: State, l: Layout, ids: seq<nat>, nblocks: nat, pieces: seq<Bytes>, tag: nat)
    requires Sound(s.table, l) && |s.table| == s.nblocks + 1
    requires Placed(s, l, ids, nblocks) && |pieces| == |ids|
    ensures var u := Apply(s.table, ChainEvents(ids, pieces, tag, s.durable));
            Committed(s.table, u, l, ids, pieces, tag) && |u| == nblocks + 1
  {
    ChainWrote(s.table, ids, pieces, tag, s.durable);
    var u := Apply(s.table, ChainEvents(ids, pieces, tag, s.durable));
    if nblocks > s.nblocks {
      assert nblocks in ids;
      var i :| 0 <= i < |ids| && ids[i] == nblocks;
      assert ids[i] < |u|;
    }
    forall b: nat | 0 < b < |u| ensures u[b].Full? {
      if Off(ids, 0, b) {
        assert b !in ids;
      }
    }
  }

  lemma PackedPut(t: Table, l: Layout, u: Table, ids: seq<nat>, data: Bytes, tag: nat, cap: nat)
    requires cap > 0 && Sound(t, l) && Packed(t, l, cap)
    requires |ids| == |Pieces(data, cap)| && Sound(u, l[ids[0] := ids[1..]])
    requires Records(u, l[ids[0] := ids[1..]]) == Records(t, l)[ids[0] := Record(tag, data)]
    ensures Packed(u, l[ids[0] := ids[1..]], cap)
  {
    PiecesCount(data, cap);
    var m := l[ids[0] := ids[1..]];
    forall h | h in m ensures |m[h]| + 1 == Chunks(|Records(u, m)[h].bytes|, cap) {
      if h != ids[0] {
        assert Records(u, m)[h] == Records(t, l)[h];
      }
    }
  }

  lemma HeadPut(t: Table, u: Table, l: Layout, ids: seq<nat>, pieces: seq<Bytes>, tag: nat, h: nat)
    requires Committed(t, u, l, ids, pieces, tag)
    requires h in l || h == ids[0]
    ensures IsHead(u, h)
    ensures InfoOf(u[h].block) == if h == ids[0] then HeadInfo(tag, Link(ids, 1)) else InfoOf(t[h].block)
  {
    if h == ids[0] {
      NewRecord(u, ids, pieces, tag);
      assert u[ids[0]] == Full(ChainBlock(ids, pieces, tag, 0));
    } else {
      OthersUntouched(t, u, l, ids, pieces, tag, h);
    }
  }

  lemma HeadsPut(s: State, l: Layout, s': State, ids: seq<nat>, pieces: seq<Bytes>, tag: nat)
    requires Committed(s.table, s'.table, l, ids, pieces, tag) && HeadsExact(s, l)
    requires Sound(s'.table, l[ids[0] := ids[1..]])
    requires s'.head == s.head[ids[0] := HeadInfo(tag, Link(ids, 1))]
    ensures HeadsExact(s', l[ids[0] := ids[1..]])
  {
    hide Exclusive, Readable, Wrote, Chained;
    forall h | h in l || h == ids[0] ensures IsHead(s'.table, h) && s'.head[h] == InfoOf(s'.table[h].block) {
      HeadPut(s.table, s'.table, l, ids, pieces, tag, h);
    }
  }

  /** A chain write of data under head ids[0], on everything but the free stack and tag index. */
  lemma WriteKeeps(s: State, l: Layout, s': State, ids: seq<nat>, data: Bytes, tag: nat)
    requires s.cap > 0 && Sound(s.table, l) && |s.table| == s.nblocks + 1
    requires Packed(s.table, l, s.cap) && HeadsExact(s, l)
    requires Placed(s, l, ids, s'.nblocks) && |ids| == |Pieces(data, s.cap)|
    requires s'.table == Apply(s.table, ChainEvents(ids, Pieces(data, s.cap), tag, s.durable))
    requires s'.head == s.head[ids[0] := HeadInfo(tag, Link(ids, 1))]
    ensures var m := l[ids[0] := ids[1..]];
            && Sound(s'.table, m) && |s'.table| == s'.nblocks + 1
            && Records(s'.table, m) == Records(s.table, l)[ids[0] := Record(tag, data)]
            && Packed(s'.table, m, s.cap) && HeadsExact(s', m)
  {
    var pieces := Pieces(data, s.cap);
    PlacedCommits(s, l, ids, s'.nblocks, pieces, tag);
    ChainCommits(s.table, s'.table, l, ids, pieces, tag);
    PiecesFlatten(data, s.cap);
    PackedPut(s.table, l, s'.table, ids, data, tag, s.cap);
    HeadsPut(s, l, s', ids, pieces, tag);
  }

  lemma UsedInRange(s: State, l: Layout, b: nat)
    requires Sound(s.table, l) && |s.table| == s.nblocks + 1 && Used(l, b)
    ensures 0 < b <= s.nblocks
  {
    if b in l {
      assert IsHead(s.table, b);
    } else {
      var h, i :| h in l && 0 <= i < |l[h]| && l[h][i] == b;
      assert Chained(s.table, l, h);
    }
  }

  // ---- Insert ----------------------------------------------------------------------------

  lemma InsertPlaced(s: State, l: Layout, data: Bytes)
    requires s.cap > 0 && Partition(s, l)
    ensures var ids := InsertIds(s, data);
            Placed(s, l, ids, BlocksAfter(s.free, s.nblocks, |ids|)) && ids[0] !in l
  {
    forall b: nat | Used(l, b) ensures b <= s.nblocks { UsedInRange(s, l, b); }
    TakenFresh(s.free, s.nblocks, l, |Pieces(data, s.cap)|);
    var ids := InsertIds(s, data);
    assert forall i :: 0 <= i < |ids| ==> !Used(l, ids[i]);
  }

  lemma InsertFree(s: State, l: Layout, data: Bytes)
    requires s.cap > 0 && Partition(s, l)
    ensures var ids := InsertIds(s, data);
            FreeExact(FreeLeft(s.free, |ids|), BlocksAfter(s.free, s.nblocks, |ids|), l[ids[0] := ids[1..]])
  {
    InsertPlaced(s, l, data);
    var ids := InsertIds(s, data);
    var k, m := |ids|, l[ids[0] := ids[1..]];
    var left, n := FreeLeft(s.free, k), BlocksAfter(s.free, s.nblocks, k);
    forall i | 0 <= i < |left| ensures 0 < left[i] <= n && !Used(m, left[i]) {
      assert left[i] == s.free[i];
      TakenSplits(s.free, s.nblocks, k, left[i]);
      UsedAfterCommit(s.table, l, ids, left[i]);
    }
    forall b: nat | 0 < b <= n && !Used(m, b) ensures b in left {
      UsedAfterCommit(s.table, l, ids, b);
      TakenSplits(s.free, s.nblocks, k, b);
    }
  }

  lemma TagsPut(head: map<nat, HeadInfo>, byTag: map<nat, set<nat>>, h: nat, tag: nat, next: nat)
    requires TagsExact(head, byTag) && h !in head
    ensures TagsExact(head[h := HeadInfo(tag, next)], byTag[tag := TagSet(byTag, tag) + {h}])
  {
  }

  /** An insert adds one record under a fresh id and changes no other. */
  lemma InsertKeeps(s: State, l: Layout, data: Bytes, tag: nat)
    requires Core(s, l)
    ensures var ids, s' := InsertIds(s, data), Insert(s, data, tag);
            var m := l[ids[0] := ids[1..]];
            && Core(s', m)
            && ids[0] !in l
            && Records(s'.table, m) == Records(s.table, l)[ids[0] := Record(tag, data)]
  {
    var ids, s' := InsertIds(s, data), Insert(s, data, tag);
    InsertPlaced(s, l, data);
    WriteKeeps(s, l, s', ids, data, tag);
    InsertFree(s, l, data);
    TagsPut(s.head, s.byTag, ids[0], tag, Link(ids, 1));
  }

  // ---- Update ----------------------------------------------------------------------------

  lemma UpdatePlaced(s: State, l: Layout, id: nat, data: Bytes)
    requires s.cap > 0 && Partition(s, l) && id in l
    ensures var ids := UpdateIds(s, id, data);
            Placed(s, l, ids, BlocksAfter(s.free, s.nblocks, |ids| - 1))
  {
    forall b: nat | Used(l, b) ensures b <= s.nblocks { UsedInRange(s, l, b); }
    var k := |Pieces(data, s.cap)| - 1;
    TakenFresh(s.free, s.nblocks, l, k);
    var taken := Taken(s.free, s.nblocks, k);
    HeadsAreNotChained(s.table, l, id);
    assert IsHead(s.table, id) && Used(l, id);
    CarryUnder(l, id, taken);
    forall b: nat | s.nblocks < b <= BlocksAfter(s.free, s.nblocks, k) ensures b in [id] + taken {
      assert b in taken;
    }
  }

  lemma CarryUnder(l: Layout, id: nat, taken: seq<nat>)
    requires id > 0 && id in l && !InChain(l, id) && Distinct(taken)
    requires forall i :: 0 <= i < |taken| ==> taken[i] > 0 && !Used(l, taken[i])
    ensures MayCarry(l, [id] + taken)
  {
    var ids := [id] + taken;
    assert Used(l, id);
    forall i | 0 < i < |ids| ensures ids[i] > 0 && !Used(l, ids[i]) && ids[i] != id {
      assert ids[i] == taken[i - 1];
    }
  }

  /** Pushing blocks that have fallen out of use onto an otherwise exact stack. */
  lemma StackGrows(free: seq<nat>, extra: seq<nat>, nblocks: nat, l: Layout)
    requires Distinct(free) && Distinct(extra)
    requires forall i :: 0 <= i < |free| ==> 0 < free[i] <= nblocks && !Used(l, free[i]) && free[i] !in extra
    requires forall i :: 0 <= i < |extra| ==> 0 < extra[i] <= nblocks && !Used(l, extra[i])
    requires forall b: nat :: 0 < b <= nblocks && !Used(l, b) ==> b in free || b in extra
    ensures FreeExact(free + extra, nblocks, l)
  {
    var now := free + extra;
    forall i, j | 0 <= i < j < |now| ensures now[i] != now[j] {
      if i < |free| <= j {
        assert now[i] !in extra && now[j] == extra[j - |free|];
      }
    }
  }

  lemma ChainMembers(l: Layout, id: nat, i: nat)
    requires id in l && i < |l[id]|
    ensures Used(l, l[id][i])
  {
    assert InChain(l, l[id][i]);
  }

  lemma UpdateFree(s: State, l: Layout, id: nat, data: Bytes)
    requires s.cap > 0 && Partition(s, l) && id in l
    ensures var ids := UpdateIds(s, id, data);
            FreeExact(FreeLeft(s.free, |ids| - 1) + l[id], BlocksAfter(s.free, s.nblocks, |ids| - 1), l[id := ids[1..]])
  {
    UpdatePlaced(s, l, id, data);
    var ids := UpdateIds(s, id, data);
    var k, m := |ids| - 1, l[id := ids[1..]];
    var left, n := FreeLeft(s.free, k), BlocksAfter(s.free, s.nblocks, k);
    assert ids[1..] == Taken(s.free, s.nblocks, k);
    ChainUsed(l, id);
    assert Used(l, id);
    forall i | 0 <= i < |left| ensures 0 < left[i] <= n && !Used(m, left[i]) && left[i] !in l[id] {
      assert left[i] == s.free[i];
      TakenSplits(s.free, s.nblocks, k, left[i]);
      UsedAfterCommit(s.table, l, ids, left[i]);
    }
    forall i | 0 <= i < |l[id]| ensures 0 < l[id][i] <= n && !Used(m, l[id][i]) {
      ReleasedByUpdate(s, l, ids, l[id][i]);
    }
    forall b: nat | 0 < b <= n && !Used(m, b) ensures b in left || b in l[id] {
      UsedAfterCommit(s.table, l, ids, b);
      TakenSplits(s.free, s.nblocks, k, b);
    }
    StackGrows(left, l[id], n, m);
  }

  lemma ReleasedByUpdate(s: State, l: Layout, ids: seq<nat>, b: nat)
    requires Partition(s, l) && MayCarry(l, ids) && ids[0] in l && b in l[ids[0]]
    ensures 0 < b <= s.nblocks && !Used(l[ids[0] := ids[1..]], b)
  {
    var i :| 0 <= i < |l[ids[0]]| && l[ids[0]][i] == b;
    ChainMembers(l, ids[0], i);
    assert InChain(l, b);
    UsedInRange(s, l, b);
    UsedAfterCommit(s.table, l, ids, b);
  }

  lemma ChainUsed(l: Layout, id: nat)
    requires id in l
    ensures forall b :: b in l[id] ==> Used(l, b)
  {
    forall b | b in l[id] ensures Used(l, b) {
      var i :| 0 <= i < |l[id]| && l[id][i] == b;
      ChainMembers(l, id, i);
    }
  }

  /** An update replaces one record's bytes, keeps its tag, and changes no other record. */
  lemma UpdateKeeps(s: State, l: Layout, id: nat, data: Bytes)
    requires Core(s, l) && id in l
    ensures var ids, s' := UpdateIds(s, id, data), Update(s, l[id], id, data);
            var m := l[id := ids[1..]];
            && Core(s', m)
            && Records(s'.table, m) == Records(s.table, l)[id := Record(s.head[id].tag, data)]
  {
    var ids, s' := UpdateIds(s, id, data), Update(s, l[id], id, data);
    UpdatePlaced(s, l, id, data);
    WriteKeeps(s, l, s', ids, data, s.head[id].tag);
    UpdateFree(s, l, id, data);
    TagsKept(s.head, s.byTag, id, Link(ids, 1));
  }

  lemma TagsKept(head: map<nat, HeadInfo>, byTag: map<nat, set<nat>>, h: nat, next: nat)
    requires TagsExact(head, byTag) && h in head
    ensures TagsExact(head[h := HeadInfo(head[h].tag, next)], byTag)
  {
  }

  // ---- Remove ----------------------------------------------------------------------------

  lemma GivenUp(s: State, l: Layout, id: nat, b: nat)
    requires Partition(s, l) && id in l
    requires b == id || b in l[id]
    ensures Used(l, b) && 0 < b <= s.nblocks && !Used(Without(l, id), b)
  {
    ChainUsed(l, id);
    UsedInRange(s, l, b);
    UsedAfterFree(s.table, l, id, b);
  }

  lemma GivenUpDistinct(t: Table, l: Layout, id: nat)
    requires Sound(t, l) && id in l
    ensures Distinct([id] + l[id])
  {
    var extra := [id] + l[id];
    HeadsAreNotChained(t, l, id);
    forall i, j | 0 <= i < j < |extra| ensures extra[i] != extra[j] {
      assert extra[j] == l[id][j - 1];
      assert InChain(l, extra[j]);
    }
  }

  lemma UnlinkFree(s: State, l: Layout, id: nat)
    requires Partition(s, l) && id in l
    ensures FreeExact(s.free + [id] + l[id], s.nblocks, Without(l, id))
  {
    var m, extra := Without(l, id), [id] + l[id];
    GivenUpDistinct(s.table, l, id);
    forall i | 0 <= i < |extra| ensures Used(l, extra[i]) && 0 < extra[i] <= s.nblocks && !Used(m, extra[i]) {
      GivenUp(s, l, id, extra[i]);
    }
    forall i | 0 <= i < |s.free| ensures !Used(m, s.free[i]) && s.free[i] !in extra {
      UsedAfterFree(s.table, l, id, s.free[i]);
    }
    forall b: nat | 0 < b <= s.nblocks && !Used(m, b) ensures b in s.free || b in extra {
      UsedAfterFree(s.table, l, id, b);
    }
    StackGrows(s.free, extra, s.nblocks, m);
    assert s.free + extra == s.free + [id] + l[id];
  }

  lemma TagsDropped(head: map<nat, HeadInfo>, byTag: map<nat, set<nat>>, id: nat)
    requires TagsExact(head, byTag) && id in head
    ensures TagsExact(head - {id}, DropTag(byTag, head[id].tag, id))
  {
  }

  lemma PackedFree(t: Table, l: Layout, u: Table, id: nat, cap: nat)
    requires cap > 0 && Sound(t, l) && Packed(t, l, cap)
    requires Sound(u, Without(l, id)) && Records(u, Without(l, id)) == Records(t, l) - {id}
    ensures Packed(u, Without(l, id), cap)
  {
    forall h | h in Without(l, id) ensures Records(u, Without(l, id))[h] == Records(t, l)[h] {
    }
  }

  /** Unlinking removes one record and changes no other. */
  lemma UnlinkKeeps(s: State, l: Layout, id: nat)
    requires Core(s, l) && id in l
    ensures var s', m := Unlink(s, l[id], id), Without(l, id);
            && Core(s', m)
            && Records(s'.table, m) == Records(s.table, l) - {id}
  {
    var s', m := Unlink(s, l[id], id), Without(l, id);
    PutApplied(s.table, id, FREE_BLOCK, s.durable);
    FreeCommits(s.table, l, id);
    PackedFree(s.table, l, s'.table, id, s.cap);
    assert IsHead(s.table, id);
    forall h | h in m ensures IsHead(s'.table, h) && s'.head[h] == InfoOf(s'.table[h].block) {
      assert IsHead(s.table, h);
    }
    UnlinkFree(s, l, id);
    TagsDropped(s.head, s.byTag, id);
  }
}
