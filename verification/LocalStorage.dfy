/** The block store as an object: the file it holds sealed, and the indexes it keeps in memory.
    Every method is proved against the functions of StoreSpec, Vault and Reopen. */
module LocalStorage {
  import opened Options
  import opened Codec
  import opened BlockTable
  import opened ChainWrite
  import opened StoreSpec
  import opened Vault
  import opened Reopen
  import opened CrashRuns
  import opened Conservation
  import opened Scan
  import Directory

  /** A block of the file: never written, or a plaintext sealed for one block number. */
  datatype Slot = Unwritten | Sealed(number: nat, plain: Bytes)

  /** A sealed block opens only at its own number; a malformed plaintext is rejected. */
  function OpenSlot(slot: Slot, id: nat, cap: nat): Cell {
    if slot.Unwritten? || slot.number != id || |slot.plain| != BLOCK_HEADER + cap then Unreadable
    else
      match DecodeBlock(slot.plain, cap)
      case None => Unreadable
      case Some(b) => Full(b)
  }

  function Blocks(file: seq<Slot>, cap: nat): (t: Table)
    ensures |t| == |file|
    ensures forall i :: 0 <= i < |file| ==> t[i] == OpenSlot(file[i], i, cap)
  {
    seq(|file|, i requires 0 <= i < |file| => OpenSlot(file[i], i, cap))
  }

  function PutSlot(file: seq<Slot>, id: nat, slot: Slot): seq<Slot> {
    if id < |file| then file[id := slot] else file + seq(id - |file|, _ => Unwritten) + [slot]
  }

  /** Sealing a storable block and writing it is a block write. */
  lemma SealedWrite(file: seq<Slot>, id: nat, b: Block, cap: nat)
    requires Storable(b, cap) && cap < U32_LIMIT
    ensures Blocks(PutSlot(file, id, Sealed(id, EncodeBlock(b, cap))), cap) == Write(Blocks(file, cap), id, b)
  {
    hide DecodeBlock, EncodeBlock;
    BlockRoundTrip(b, cap);
    var after := Blocks(PutSlot(file, id, Sealed(id, EncodeBlock(b, cap))), cap);
    var expected := Write(Blocks(file, cap), id, b);
    assert |after| == |expected|;
    forall i | 0 <= i < |after| ensures after[i] == expected[i] {
    }
  }

  /** The data bytes of the block that starts at offset, as writeChain cuts them. */
  function Cut(data: Bytes, cap: nat, offset: nat): Bytes {
    if offset >= |data| then [] else if |data| - offset < cap then data[offset..] else data[offset..offset + cap]
  }

  lemma CutShift(data: Bytes, cap: nat, offset: nat)
    requires cap <= |data|
    ensures Cut(data[cap..], cap, offset) == Cut(data, cap, offset + cap)
  {
  }

  lemma {:induction false} PieceAt(data: Bytes, cap: nat, i: nat)
    requires cap > 0 && i < |Pieces(data, cap)|
    ensures Pieces(data, cap)[i] == Cut(data, cap, i * cap)
    decreases |data|
  {
    if i == 0 {
      assert i * cap == 0;
    } else {
      var j := i - 1;
      PieceAt(data[cap..], cap, j);
      CutShift(data, cap, j * cap);
      TimesNext(j, cap);
    }
  }

  lemma TimesNext(j: nat, cap: nat)
    ensures (j + 1) * cap == j * cap + cap
  {
  }

  class LocalStorage {
    const cap: nat
    const durable: bool

    var file: seq<Slot>
    var nblocks: nat
    var dirId: nat
    var dirDirty: bool
    var free: seq<nat>
    var head: map<nat, HeadInfo>
    var byTag: map<nat, set<nat>>
    var roots: Directory.Roots

    /** The chain of every record, and every write and sync since the object was made. */
    ghost var layout: Layout
    ghost var log: seq<Event>

    ghost function Table(): BlockTable.Table
      reads this
    {
      Blocks(file, cap)
    }

    ghost function Now(): State
      reads this
    {
      State(cap, durable, Table(), nblocks, free, head, byTag, roots, dirId)
    }

    /** 71 and 1048519 are the data bytes of the smallest and largest block. */
    ghost predicate Geometry() {
      71 <= cap <= 1048519
    }

    ghost predicate Valid()
      reads this
    {
      Geometry() && !dirDirty && nblocks < U64_LIMIT && Inv(Now(), layout)
    }

    /** Past this many blocks a file offset overflows and the write throws. */
    ghost predicate Room(k: nat)
      reads this
    {
      nblocks + k < U64_LIMIT
    }

    // ---- Opening ----------------------------------------------------------------------

    /** An object attached to a file, before the file is scanned. */
    constructor (file: seq<Slot>, cap: nat, durable: bool)
      ensures this.file == file && this.cap == cap && this.durable == durable
      ensures head == map[] && byTag == map[] && roots == map[] && free == [] && nblocks == 0 && dirId == 0
      ensures !dirDirty && log == []
    {
      this.file, this.cap, this.durable := file, cap, durable;
      head, byTag, roots, free, nblocks, dirId := map[], map[], map[], [], 0, 0;
      dirDirty, layout, log := false, map[], [];
    }

    /** Reads every block; fails at the first one that does not open. */
    method ReadBlocks() returns (ok: bool, t: Table)
      ensures ok <==> Readable(Table())
      ensures ok ==> |t| == |file| && forall b :: 0 < b < |t| ==> t[b] == Table()[b]
    {
      if |file| == 0 {
        return false, [];
      }
      t := [Unreadable];
      var id := 1;
      while id < |file|
        invariant 1 <= id <= |file| && |t| == id
        invariant forall b :: 0 < b < id ==> t[b].Full? && t[b] == Table()[b]
      {
        var b := ReadBlock(id);
        if b.None? {
          return false, t;
        }
        t := t + [Full(b.value)];
        id := id + 1;
      }
      return true, t;
    }

    /** The open-time scan accepts exactly the files whose heads own disjoint, unbroken chains. */
    method ScanFile() returns (ok: bool)
      requires head == map[] && byTag == map[] && roots == map[] && dirId == 0
      modifies this`file, this`nblocks, this`free, this`head, this`byTag, this`layout
      ensures ok <==> exists l :: Sound(old(Table()), l)
      ensures ok ==> Sound(old(Table()), layout) && Now() == Scanned(old(Table()), layout, cap, durable)
    {
      hide TrimTo, FreeBelow, TagIndex, Sound, OpenSlot;
      ghost var whole := Table();
      UnreadableNotSound(whole);
      var fine, t := ReadBlocks();
      if !fine {
        return false;
      }
      HeaderIgnored(t, whole);
      var seen;
      ghost var l;
      fine, head, byTag, seen, l := FindHeads(t);
      if !fine {
        return false;
      }
      KindsDecoded(file, cap);
      nblocks := TrimEnd(t, seen, l);
      free := StackFree(t, seen, nblocks, l);
      layout := l;
      file := file[..nblocks + 1];
      return true;
    }

    /** loadDirectory(): the roots come from the directory record with the lowest id. */
    method LoadDirectory() returns (ok: bool)
      requires Indexed(Now(), layout)
      modifies this`dirId, this`roots
      ensures ok <==> Loaded(old(Now()), layout).Some?
      ensures ok ==> Now() == Loaded(old(Now()), layout).value
    {
      hide FreeExact, TagsExact, Directory.Decode, Records, Blocks;
      if DIRECTORY_TAG !in byTag {
        return true;
      }
      DirectoryIsHead(Now(), layout);
      var d := Lowest(byTag[DIRECTORY_TAG]);
      var fine, raw := GetLocked(d);
      var found := Directory.Read(raw.value);
      if found.None? {
        return false;
      }
      dirId, roots := d, found.value;
      return true;
    }

    /** The constructor's scan and directory load. A file that carries the vault v opens to it. */
    method Open(ghost l: Layout, ghost dir: nat, ghost v: Vault) returns (ok: bool)
      requires head == map[] && byTag == map[] && roots == map[] && dirId == 0 && !dirDirty
      modifies this`file, this`nblocks, this`free, this`head, this`byTag, this`layout, this`dirId, this`roots
      ensures ok ==> Opens(old(Table()), cap, durable, Now(), layout)
      ensures !ok ==> forall s, m :: !Opens(old(Table()), cap, durable, s, m)
      ensures Geometry() && |old(file)| < U64_LIMIT && Directory.Fits(v.roots)
              && Sound(old(Table()), l) && Carries(Records(old(Table()), l), l, cap, dir, v)
              ==> ok && Valid() && Contents() == v
    {
      hide Loaded, Scanned, Carries, Indexed, Core, Records, Blocks, Sound;
      ghost var t := Table();
      ok := ScanFile();
      if ok {
        ScannedIndexed(t, layout, cap, durable);
        ok := LoadDirectory();
      }
      OpenFacts(t, layout, cap, durable, ok, Now(), l, dir, v);
    }

    // ---- Block I/O ----------------------------------------------------------------

    method WriteBlock(id: nat, kind: nat, tag: nat, next: nat, data: Bytes)
      requires Geometry() && Storable(Block(kind, tag, next, data), cap)
      modifies this`file, this`log
      ensures Table() == Write(old(Table()), id, Block(kind, tag, next, data))
      ensures log == old(log) + [Put(id, Block(kind, tag, next, data))]
    {
      var tagBytes := PutLittleEndian(tag, 4);
      var nextBytes := PutLittleEndian(next, 8);
      var usedBytes := PutLittleEndian(|data|, 4);
      var plain := [kind as Byte] + tagBytes + nextBytes + usedBytes + data + Zeros(cap - |data|);
      hide Blocks, Write, PutSlot, LittleEndian;
      SealedWrite(file, id, Block(kind, tag, next, data), cap);
      file := PutSlot(file, id, Sealed(id, plain));
      log := log + [Put(id, Block(kind, tag, next, data))];
    }

    /** None is the exception for an unreadable, foreign or malformed block. */
    method ReadBlock(id: nat) returns (b: Option<Block>)
      ensures b == if id < |Table()| && Table()[id].Full? then Some(Table()[id].block) else None
    {
      if id >= |file| || file[id].Unwritten? || file[id].number != id || |file[id].plain| != BLOCK_HEADER + cap {
        return None;
      }
      var p := file[id].plain;
      var tag := GetLittleEndian(p[1..5]);
      var next := GetLittleEndian(p[5..13]);
      var used := GetLittleEndian(p[13..17]);
      if p[0] as nat > CONTINUATION || used > cap {
        return None;
      }
      return Some(Block(p[0] as nat, tag, next, p[17..17 + used]));
    }

    method SyncFile()
      modifies this`log
      ensures log == old(log) + [Sync]
    {
      log := log + [Sync];
    }

    // ---- Allocation -----------------------------------------------------------------

    method Alloc() returns (id: nat)
      modifies this`free, this`nblocks
      ensures id == Taken(old(free), old(nblocks), 1)[0]
      ensures free == FreeLeft(old(free), 1) && nblocks == BlocksAfter(old(free), old(nblocks), 1)
    {
      if |free| > 0 {
        id := free[|free| - 1];
        free := free[..|free| - 1];
      } else {
        nblocks := nblocks + 1;
        id := nblocks;
      }
    }

    /** The loop over alloc() with which insert and update place a chain. */
    method AllocIds(k: nat) returns (ids: seq<nat>)
      modifies this`free, this`nblocks
      ensures ids == Taken(old(free), old(nblocks), k)
      ensures free == FreeLeft(old(free), k) && nblocks == BlocksAfter(old(free), old(nblocks), k)
    {
      ids := [];
      for i := 0 to k
        invariant ids == Taken(old(free), old(nblocks), i)
        invariant free == FreeLeft(old(free), i) && nblocks == BlocksAfter(old(free), old(nblocks), i)
      {
        var id := Alloc();
        ids := ids + [id];
      }
    }

    // ---- Chains ---------------------------------------------------------------------

    /** chunks(): the rounded-up quotient, at least 1. */
    method ChunkCount(bytes: nat) returns (n: nat)
      requires Geometry()
      ensures n == Chunks(bytes, cap)
    {
      ChunksFormula(bytes, cap);
      n := (bytes + cap - 1) / cap;
      if n < 1 {
        n := 1;
      }
    }

    method WriteContinuations(ids: seq<nat>, data: Bytes)
      requires Geometry() && |ids| == |Pieces(data, cap)|
      requires forall i :: 0 <= i < |ids| ==> ids[i] < U64_LIMIT
      modifies this`file, this`log
      ensures Table() == Apply(old(Table()), ContinuationEvents(ids, Pieces(data, cap)))
      ensures log == old(log) + ContinuationEvents(ids, Pieces(data, cap))
    {
      hide Pieces, Cut, Apply, Write, ContinuationEvents;
      ghost var t, evs := Table(), ContinuationEvents(ids, Pieces(data, cap));
      var n := |ids|;
      var i := n;
      assert evs[..0] == [] && Apply(t, []) == t by { ApplyNone(t); }
      while i > 1
        invariant 1 <= i <= n
        invariant Table() == Apply(t, evs[..n - i]) && log == old(log) + evs[..n - i]
      {
        i := i - 1;
        PieceAt(data, cap, i);
        ContinuationEventAt(ids, Pieces(data, cap), i);
        ApplyOneMore(t, evs, n - 1 - i);
        WriteBlock(ids[i], CONTINUATION, 0, if i + 1 < n then ids[i + 1] else 0, Cut(data, cap, i * cap));
      }
      assert evs[..n - 1] == evs;
    }

    /** Continuations from the last to the first, then the head: a record is committed by one write. */
    method WriteChain(ids: seq<nat>, data: Bytes, tag: nat)
      requires Geometry() && |ids| == |Pieces(data, cap)| && tag < U32_LIMIT
      requires forall i :: 0 <= i < |ids| ==> ids[i] < U64_LIMIT
      modifies this`file, this`log
      ensures Table() == Apply(old(Table()), ChainEvents(ids, Pieces(data, cap), tag, durable))
      ensures log == old(log) + ChainEvents(ids, Pieces(data, cap), tag, durable)
    {
      hide Pieces, Cut, Apply, Write, ContinuationEvents;
      WriteContinuations(ids, data);
      if durable && |ids| > 1 {
        SyncFile();
      }
      BodySteps(old(Table()), ids, Pieces(data, cap), durable);
      PieceAt(data, cap, 0);
      WriteBlock(ids[0], HEAD, tag, if |ids| > 1 then ids[1] else 0, Cut(data, cap, 0));
      if durable {
        SyncFile();
      }
      ChainApplied(old(Table()), ids, Pieces(data, cap), tag, durable);
    }

    /** The continuations of a chain; the guard against a loop never fires. */
    method OldContinuations(next: nat, ghost chain: seq<nat>) returns (ok: bool, ids: seq<nat>)
      requires IsChain(Table(), next, chain) && |chain| <= nblocks
      ensures ok && ids == chain
    {
      ids := [];
      var current := next;
      while current != 0
        invariant |ids| <= |chain| && ids == chain[..|ids|]
        invariant current == Link(chain, |ids|)
        decreases |chain| - |ids|
      {
        if |ids| > nblocks {
          return false, ids;
        }
        assert LinkedAt(Table(), chain, |ids|);
        ids := ids + [current];
        var b := ReadBlock(current);
        if b.None? {
          return false, ids;
        }
        current := b.value.next;
      }
      return true, ids;
    }

    // ---- Records --------------------------------------------------------------------

    method InsertLocked(data: Bytes, tag: nat) returns (id: nat)
      requires Geometry() && Core(Now(), layout) && tag < U32_LIMIT && Room(|Pieces(data, cap)|)
      modifies this`file, this`log, this`free, this`nblocks, this`head, this`byTag, this`layout
      ensures id == InsertIds(old(Now()), data)[0]
      ensures Now() == StoreSpec.Insert(old(Now()), data, tag)
      ensures layout == old(layout)[id := InsertIds(old(Now()), data)[1..]]
      ensures log == old(log) + InsertEvents(old(Now()), data, tag)
    {
      hide Apply, Pieces, Taken, Core, ChainEvents;
      ghost var s := Now();
      InsertBounds(s, layout, data);
      var n := ChunkCount(|data|);
      PiecesCount(data, cap);
      var ids := AllocIds(n);
      assert ids == InsertIds(s, data);
      WriteChain(ids, data, tag);
      head := head[ids[0] := HeadInfo(tag, if |ids| > 1 then ids[1] else 0)];
      byTag := byTag[tag := TagSet(byTag, tag) + {ids[0]}];
      layout := layout[ids[0] := ids[1..]];
      id := ids[0];
    }

    /** get(): nothing for an id that is no head, else its bytes; neither exception can occur. */
    method GetLocked(id: nat) returns (ok: bool, r: Option<Bytes>)
      requires Indexed(Now(), layout)
      ensures ok
      ensures r == if id in layout then Some(Records(Table(), layout)[id].bytes) else None
    {
      hide FreeExact, TagsExact, Records, PackedAs;
      if id !in head {
        return true, None;
      }
      ChainLength(Now(), layout, id);
      RecordBytes(Now(), layout, id);
      ok, r := ReadChain(id, layout[id]);
    }

    method ReadChain(id: nat, ghost chain: seq<nat>) returns (ok: bool, r: Option<Bytes>)
      requires IsHead(Table(), id) && IsChain(Table(), Table()[id].block.next, chain) && |chain| <= nblocks
      ensures ok && r == Some(Table()[id].block.data + ChainBytes(Table(), chain))
    {
      hide Blocks, OpenSlot;
      ghost var t := Table();
      ghost var blocks := [id] + chain;
      assert forall i :: 0 <= i < |blocks| ==> blocks[i] > 0;
      var out: Bytes, current, guard := [], id, 0;
      while current != 0
        invariant guard <= |blocks| && current == Link(blocks, guard)
        invariant out + ChainBytes(t, blocks[guard..]) == t[id].block.data + ChainBytes(t, chain)
        decreases |blocks| - guard
      {
        assert blocks[guard..][1..] == blocks[guard + 1..];
        guard := guard + 1;
        if guard > nblocks + 1 {
          return false, None;
        }
        var b := ReadBlock(current);
        if b.None? || b.value.kind != (if current == id then HEAD else CONTINUATION) {
          return false, None;
        }
        assert guard > 1 ==> LinkedAt(t, chain, guard - 2);
        out := out + b.value.data;
        current := b.value.next;
      }
      assert blocks[guard..] == [] && out + [] == out;
      return true, Some(out);
    }

    method UpdateLocked(id: nat, data: Bytes) returns (ok: bool)
      requires Geometry() && Core(Now(), layout) && id in layout
      requires head[id].tag < U32_LIMIT && Room(|Pieces(data, cap)|)
      modifies this`file, this`log, this`free, this`nblocks, this`head, this`layout
      ensures ok
      ensures Now() == StoreSpec.Update(old(Now()), old(layout[id]), id, data)
      ensures layout == old(layout)[id := UpdateIds(old(Now()), id, data)[1..]]
      ensures log == old(log) + UpdateEvents(old(Now()), id, data)
    {
      hide Apply, Pieces, Taken, Core, ChainEvents, Blocks;
      ghost var s := Now();
      HeadChain(s, layout, id);
      var fine, given := OldContinuations(head[id].next, layout[id]);
      if !fine {
        return false;
      }
      UpdateIdBounds(s, layout, id, data);
      var n := ChunkCount(|data|);
      PiecesCount(data, cap);
      var taken := AllocIds(n - 1);
      var ids := [id] + taken;
      assert ids == UpdateIds(s, id, data);
      WriteChain(ids, data, head[id].tag);
      head := head[id := HeadInfo(head[id].tag, if |ids| > 1 then ids[1] else 0)];
      free := free + given;
      layout := layout[id := ids[1..]];
      return true;
    }

    method SaveDirectoryLocked() returns (ok: bool)
      requires Geometry() && Unsaved(Now(), layout)
      requires Room(|Pieces(Directory.Encode(roots), cap)|)
      modifies this`file, this`log, this`free, this`nblocks, this`head, this`byTag, this`layout, this`dirId
      ensures ok
      ensures Now() == SaveDirectory(old(Now()), old(layout)) && layout == SaveDirectoryLayout(old(Now()), old(layout))
      ensures log == old(log) + SaveDirectoryEvents(old(Now()))
    {
      hide StoreSpec.Insert, StoreSpec.Update, InsertEvents, UpdateEvents, Partition, Packed, TagsExact,
        Directory.Encode, Blocks;
      var out := Directory.Write(roots);
      if dirId == 0 {
        dirId := InsertLocked(out, DIRECTORY_TAG);
        ok := true;
      } else {
        ok := UpdateLocked(dirId, out);
      }
    }

    /** The loop that drops the roots of a removed record. */
    method DropRootsTo(id: nat)
      requires !dirDirty
      modifies this`roots, this`dirDirty
      ensures roots == DropRoots(old(roots), id) && dirDirty == Rooted(old(roots), id)
    {
      var left := roots.Keys;
      while left != {}
        invariant left <= old(roots).Keys
        invariant roots == map n | n in old(roots) && (n in left || old(roots)[n] != id) :: old(roots)[n]
        invariant dirDirty <==> exists n :: n in old(roots) && n !in left && old(roots)[n] == id
      {
        var name :| name in left;
        if roots[name] == id {
          roots := roots - {name};
          dirDirty := true;
        }
        left := left - {name};
      }
    }

    method WriteFree(id: nat)
      requires Geometry()
      modifies this`file, this`log
      ensures Table() == Apply(old(Table()), FreeEvents(id, durable)) && log == old(log) + FreeEvents(id, durable)
    {
      hide Apply, Blocks, Write;
      WriteBlock(id, FREE, 0, 0, []);
      if durable {
        SyncFile();
      }
      PutApplied(old(Table()), id, FREE_BLOCK, durable);
    }

    method Untag(tag: nat, id: nat)
      modifies this`byTag
      ensures byTag == DropTag(old(byTag), tag, id)
    {
      if tag in byTag {
        var others := byTag[tag] - {id};
        byTag := if others == {} then byTag - {tag} else byTag[tag := others];
      }
    }

    /** The record goes with one block write; then the indexes, the free stack and the roots follow. */
    method UnlinkLocked(id: nat) returns (ok: bool)
      requires Geometry() && Core(Now(), layout) && id in layout && !dirDirty
      modifies this`file, this`log, this`free, this`head, this`byTag, this`layout, this`roots, this`dirDirty
      ensures ok
      ensures Now() == Unlink(old(Now()), old(layout[id]), id) && layout == Without(old(layout), id)
      ensures log == old(log) + FreeEvents(id, durable)
      ensures dirDirty == Rooted(old(roots), id)
    {
      hide Apply, Core, Blocks, DropTag, DropRoots, Without, FreeEvents, IsChain, Rooted;
      ghost var s := Now();
      HeadChain(s, layout, id);
      var fine, given := OldContinuations(head[id].next, layout[id]);
      if !fine {
        return false;
      }
      WriteFree(id);
      Untag(head[id].tag, id);
      head := head - {id};
      free := free + [id] + given;
      DropRootsTo(id);
      layout := Without(layout, id);
      return true;
    }

    method RemoveLocked(id: nat) returns (ok: bool)
      requires Geometry() && Unsaved(Now(), layout) && IsRecord(Now(), id) && !dirDirty
      requires Room(|Pieces(Directory.Encode(DropRoots(roots, id)), cap)|)
      modifies this
      ensures ok && !dirDirty
      ensures var mid := Unlink(old(Now()), old(layout[id]), id);
              var m := Without(old(layout), id);
              if Rooted(old(roots), id)
              then Now() == SaveDirectory(mid, m) && layout == SaveDirectoryLayout(mid, m)
                && log == old(log) + FreeEvents(id, durable) + SaveDirectoryEvents(mid)
              else Now() == mid && layout == m && log == old(log) + FreeEvents(id, durable)
    {
      hide Apply, Blocks, Unlink, SaveDirectory, SaveDirectoryEvents, SaveDirectoryLayout, Without, DropRoots, Rooted,
        Directory.Encode, Pieces, Partition, PackedAs, TagsExact, OnlyDirectory, FreeEvents;
      ghost var s, l := Now(), layout;
      UnlinkUnsaved(s, l, id);
      UnlinkSize(s, l[id], id);
      ok := UnlinkLocked(id);
      if dirDirty {
        dirDirty := false;
        assert Now() == Unlink(s, l[id], id);
        ok := SaveDirectoryLocked();
      }
    }

    // ---- The public interface ----------------------------------------------------------

    ghost function Contents(): Vault
      reads this
      requires Valid()
    {
      View(Now(), layout)
    }

    /** Nothing that was written is still unsynced. */
    ghost predicate Synced()
      reads this
    {
      log != [] && log[|log| - 1] == Sync
    }

    /** The object went from state s by exactly op, and issued exactly op's writes and syncs. */
    ghost predicate Performed(s: State, l: Layout, before: seq<Event>, op: Op)
      reads this
    {
      Inv(s, l) && Now() == Exec(s, l, op) && layout == LayoutAfter(s, l, op) && log == before + Events(s, l, op)
    }

    /** None is the exception for the reserved tag. */
    method Insert(data: Bytes, tag: nat) returns (r: Option<nat>)
      requires Valid() && tag < U32_LIMIT && Room(|Pieces(data, cap)|)
      modifies this
      ensures Valid() && Performed(old(Now()), old(layout), old(log), Op.Insert(data, tag))
      ensures r.None? <==> tag == DIRECTORY_TAG
      ensures r.Some? ==> r.value != 0 && r.value !in old(Contents()).records
      ensures Contents() == if r.None? then old(Contents())
        else old(Contents()).(records := old(Contents()).records[r.value := Record(tag, data)])
    {
      hide Apply, Blocks, Pieces, Taken, Partition, PackedAs, TagsExact, HeadsExact, DirectoryExact, ChainEvents, View;
      ghost var s, l := Now(), layout;
      ExecInv(s, l, Op.Insert(data, tag));
      ExecRefines(s, l, Op.Insert(data, tag));
      if tag == DIRECTORY_TAG {
        return None;
      }
      var id := InsertLocked(data, tag);
      return Some(id);
    }

    /** False, and no change, for an id that is no record. */
    method Update(id: nat, data: Bytes) returns (found: bool)
      requires Valid() && Room(|Pieces(data, cap)|)
      modifies this
      ensures Valid() && Performed(old(Now()), old(layout), old(log), Op.Update(id, data))
      ensures found == (id in old(Contents()).records)
      ensures Contents() == if !found then old(Contents())
        else old(Contents()).(records := old(Contents()).records[id := Record(old(Contents()).records[id].tag, data)])
    {
      hide Exec, LayoutAfter, Events, Step, View, StoreSpec.Insert, StoreSpec.Update, Unlink, SaveDirectory,
        SaveDirectoryLayout, SaveDirectoryEvents, Without, Directory.Encode, DropRoots, Rooted, Apply, Blocks, Pieces,
        Core, Records, InsertEvents, UpdateEvents, FreeEvents, OnlyDirectory;
      ghost var s, l := Now(), layout;
      UpdateFacts(s, l, id, data);
      if id == dirId || id !in head {
        return false;
      }
      TagWidth(s, file, l, id);
      var ok := UpdateLocked(id, data);
      return true;
    }

    method Remove(id: nat) returns (found: bool)
      requires Valid() && Room(|Pieces(Directory.Encode(DropRoots(roots, id)), cap)|)
      modifies this
      ensures Valid() && Performed(old(Now()), old(layout), old(log), Op.Remove(id))
      ensures found == (id in old(Contents()).records)
      ensures Contents() == if !found then old(Contents())
        else Vault(old(Contents()).records - {id}, DropRoots(old(Contents()).roots, id))
    {
      hide Exec, LayoutAfter, Events, Step, View, StoreSpec.Insert, StoreSpec.Update, Unlink, SaveDirectory,
        SaveDirectoryLayout, SaveDirectoryEvents, Without, Directory.Encode, DropRoots, Rooted, Apply, Blocks, Pieces,
        Core, Records, InsertEvents, UpdateEvents, FreeEvents, OnlyDirectory;
      ghost var s, l := Now(), layout;
      RemoveFacts(s, l, id);
      if id == dirId || id !in head {
        return false;
      }
      var ok := RemoveLocked(id);
      return true;
    }

    /** False is the exception for an id that is no record. */
    method SetRoot(name: Directory.Name, id: nat) returns (ok: bool)
      requires Valid() && Room(|Pieces(Directory.Encode(roots[name := id]), cap)|)
      modifies this
      ensures Valid() && Performed(old(Now()), old(layout), old(log), Op.SetRoot(name, id))
      ensures ok == (id in old(Contents()).records)
      ensures Contents() == if !ok then old(Contents())
        else old(Contents()).(roots := old(Contents()).roots[name := id])
    {
      hide Exec, LayoutAfter, Events, Step, View, StoreSpec.Insert, StoreSpec.Update, Unlink, SaveDirectory,
        SaveDirectoryLayout, SaveDirectoryEvents, Without, Directory.Encode, DropRoots, Rooted, Apply, Blocks, Pieces,
        Core, Records, InsertEvents, UpdateEvents, FreeEvents, OnlyDirectory;
      ghost var s, l := Now(), layout;
      SetRootFacts(s, l, name, id);
      if id == dirId || id !in head {
        return false;
      }
      roots := roots[name := id];
      var saved := SaveDirectoryLocked();
      return true;
    }

    method Root(name: Directory.Name) returns (r: Option<nat>)
      requires Valid()
      ensures r == if name in Contents().roots then Some(Contents().roots[name]) else None
    {
      return if name in roots then Some(roots[name]) else None;
    }

    method RemoveRoot(name: Directory.Name) returns (found: bool)
      requires Valid() && Room(|Pieces(Directory.Encode(roots - {name}), cap)|)
      modifies this
      ensures Valid() && Performed(old(Now()), old(layout), old(log), Op.RemoveRoot(name))
      ensures found == (name in old(Contents()).roots)
      ensures Contents() == old(Contents()).(roots := old(Contents()).roots - {name})
    {
      hide Exec, LayoutAfter, Events, Step, View, StoreSpec.Insert, StoreSpec.Update, Unlink, SaveDirectory,
        SaveDirectoryLayout, SaveDirectoryEvents, Without, Directory.Encode, DropRoots, Rooted, Apply, Blocks, Pieces,
        Core, Records, InsertEvents, UpdateEvents, FreeEvents, OnlyDirectory;
      ghost var s, l := Now(), layout;
      RemoveRootFacts(s, l, name);
      if name !in roots {
        return false;
      }
      roots := roots - {name};
      var saved := SaveDirectoryLocked();
      return true;
    }

    /** get() also answers for the directory's own id, with the encoded roots. */
    method Get(id: nat) returns (r: Option<Bytes>)
      requires Valid()
      ensures id != dirId ==> r == if id in Contents().records then Some(Contents().records[id].bytes) else None
      ensures id == dirId && id != 0 ==> r == Some(Directory.Encode(Contents().roots))
    {
      hide Blocks, Partition, PackedAs, TagsExact, Directory.Encode;
      var ok;
      ok, r := GetLocked(id);
    }

    method Exists(id: nat) returns (found: bool)
      requires Valid()
      ensures found == (id in Contents().records)
    {
      ViewKeys(Now(), layout, id);
      return id != dirId && id in head;
    }

    /** The ids of one tag, ascending; the directory is never listed. */
    method Ids(tag: nat) returns (out: seq<nat>)
      requires Valid()
      ensures forall i, j :: 0 <= i < j < |out| ==> out[i] < out[j]
      ensures forall id :: id in out <==> id in Contents().records && Contents().records[id].tag == tag
    {
      hide Blocks, Partition, PackedAs, DirectoryExact;
      TaggedRecords(Now(), layout, tag);
      out := [];
      if tag == DIRECTORY_TAG || tag !in byTag {
        return;
      }
      out := Ascending(byTag[tag]);
    }

    method RecordCount() returns (n: nat)
      requires Valid()
      ensures n == |Contents().records|
    {
      RecordsCounted(Now(), layout);
      n := |head| - if dirId != 0 then 1 else 0;
    }
  }

  lemma TaggedRecords(s: State, l: Layout, tag: nat)
    requires Inv(s, l)
    ensures tag == DIRECTORY_TAG ==> forall id :: id in View(s, l).records ==> View(s, l).records[id].tag != tag
    ensures tag != DIRECTORY_TAG ==>
      forall id :: id in TagSet(s.byTag, tag) <==> id in View(s, l).records && View(s, l).records[id].tag == tag
  {
    hide FreeExact, PackedAs;
    HeadTags(s, l);
    forall id: nat ensures id in View(s, l).records <==> IsRecord(s, id) {
      ViewKeys(s, l, id);
    }
  }

  lemma RecordsCounted(s: State, l: Layout)
    requires Inv(s, l)
    ensures |View(s, l).records| == |s.head| - if s.dirId != 0 then 1 else 0
  {
    RecordKeys(s, l);
    CountWithout(Records(s.table, l), s.dirId, s.head);
  }

  lemma RecordKeys(s: State, l: Layout)
    requires Inv(s, l)
    ensures Records(s.table, l).Keys == s.head.Keys && (s.dirId != 0 <==> s.dirId in s.head)
  {
    hide FreeExact, TagsExact, PackedAs;
    HeadTags(s, l);
    assert 0 !in l;
  }

  lemma CountWithout<V>(r: map<nat, V>, id: nat, head: map<nat, HeadInfo>)
    requires r.Keys == head.Keys
    ensures |r - {id}| == |head| - if id in head then 1 else 0
  {
    assert (r - {id}).Keys == head.Keys - {id};
    assert |(r - {id}).Keys| == |r - {id}| && |head.Keys| == |head|;
  }

  // ---- What each public call needs to know about its operation -----------------------------

  lemma UpdateFacts(s: State, l: Layout, id: nat, data: Bytes)
    requires Inv(s, l)
    ensures var op := Op.Update(id, data);
            var v, found := View(s, l), IsRecord(s, id);
            && found == (id in v.records) && (found ==> id in l)
            && Exec(s, l, op) == (if found then StoreSpec.Update(s, l[id], id, data) else s)
            && LayoutAfter(s, l, op) == (if found then l[id := UpdateIds(s, id, data)[1..]] else l)
            && Events(s, l, op) == (if found then UpdateEvents(s, id, data) else [])
            && Inv(Exec(s, l, op), LayoutAfter(s, l, op))
            && Exec(s, l, op).nblocks <= s.nblocks + |Pieces(data, s.cap)|
            && View(Exec(s, l, op), LayoutAfter(s, l, op)) ==
               if found then v.(records := v.records[id := Record(v.records[id].tag, data)]) else v
  {
    hide Apply, Pieces, Taken, Partition, PackedAs, TagsExact, DirectoryExact, View, Records;
    ExecInv(s, l, Op.Update(id, data));
    ExecRefines(s, l, Op.Update(id, data));
    ViewKeys(s, l, id);
  }

  lemma SaveSize(s: State, l: Layout)
    requires Unsaved(s, l)
    ensures SaveDirectory(s, l).nblocks <= s.nblocks + |Pieces(Directory.Encode(s.roots), s.cap)|
  {
    hide Pieces, Apply, Directory.Encode;
  }

  lemma RemoveSize(s: State, l: Layout, id: nat)
    requires Inv(s, l) && IsRecord(s, id)
    ensures RemoveRecord(s, l, id).nblocks <= s.nblocks + |Pieces(Directory.Encode(DropRoots(s.roots, id)), s.cap)|
  {
    hide Pieces, Directory.Encode, SaveDirectory;
    UnlinkUnsaved(s, l, id);
    UnlinkSize(s, l[id], id);
    if Rooted(s.roots, id) {
      SaveSize(Unlink(s, l[id], id), Without(l, id));
    }
  }

  lemma RemoveFacts(s: State, l: Layout, id: nat)
    requires Inv(s, l)
    ensures var op := Op.Remove(id);
            var v, found := View(s, l), IsRecord(s, id);
            && found == (id in v.records) && (found ==> id in l) && v.roots == s.roots && Unsaved(s, l)
            && (!found ==> Exec(s, l, op) == s && LayoutAfter(s, l, op) == l && Events(s, l, op) == [])
            && (found ==>
                  var mid, m := Unlink(s, l[id], id), Without(l, id);
                  if Rooted(s.roots, id)
                  then Exec(s, l, op) == SaveDirectory(mid, m) && LayoutAfter(s, l, op) == SaveDirectoryLayout(mid, m)
                    && Events(s, l, op) == FreeEvents(id, s.durable) + SaveDirectoryEvents(mid)
                  else (Exec(s, l, op) == mid && LayoutAfter(s, l, op) == m
                        && Events(s, l, op) == FreeEvents(id, s.durable)))
            && Inv(Exec(s, l, op), LayoutAfter(s, l, op))
            && Exec(s, l, op).nblocks <= s.nblocks + |Pieces(Directory.Encode(DropRoots(s.roots, id)), s.cap)|
            && View(Exec(s, l, op), LayoutAfter(s, l, op)) ==
               if found then Vault(v.records - {id}, DropRoots(v.roots, id)) else v
  {
    hide Apply, Pieces, Partition, PackedAs, TagsExact, Records, SaveDirectory, SaveDirectoryLayout,
      SaveDirectoryEvents, Unlink, Without, FreeEvents, Directory.Encode, DropRoots, Rooted;
    ExecInv(s, l, Op.Remove(id));
    ExecRefines(s, l, Op.Remove(id));
    ViewKeys(s, l, id);
    if IsRecord(s, id) {
      RemoveSize(s, l, id);
      UnlinkUnsaved(s, l, id);
      assert FreeEvents(id, s.durable) + [] == FreeEvents(id, s.durable);
    }
  }

  lemma SetRootFacts(s: State, l: Layout, name: Directory.Name, id: nat)
    requires Inv(s, l)
    ensures var op := Op.SetRoot(name, id);
            var v, found := View(s, l), IsRecord(s, id);
            var mid := s.(roots := s.roots[name := id]);
            && found == (id in v.records) && v.roots == s.roots && Unsaved(mid, l)
            && (if found
                then Exec(s, l, op) == SaveDirectory(mid, l) && LayoutAfter(s, l, op) == SaveDirectoryLayout(mid, l)
                  && Events(s, l, op) == SaveDirectoryEvents(mid)
                else Exec(s, l, op) == s && LayoutAfter(s, l, op) == l && Events(s, l, op) == [])
            && Inv(Exec(s, l, op), LayoutAfter(s, l, op))
            && Exec(s, l, op).nblocks <= s.nblocks + |Pieces(Directory.Encode(mid.roots), s.cap)|
            && View(Exec(s, l, op), LayoutAfter(s, l, op)) ==
               if found then v.(roots := v.roots[name := id]) else v
  {
    hide Apply, Pieces, Partition, PackedAs, TagsExact, Records, SaveDirectory, SaveDirectoryLayout,
      SaveDirectoryEvents, Directory.Encode;
    ExecInv(s, l, Op.SetRoot(name, id));
    ExecRefines(s, l, Op.SetRoot(name, id));
    ViewKeys(s, l, id);
    RootsChange(s, l, s.roots[name := id]);
    SaveSize(WithRoot(s, name, id), l);
  }

  lemma RemoveRootFacts(s: State, l: Layout, name: Directory.Name)
    requires Inv(s, l)
    ensures var op := Op.RemoveRoot(name);
            var v, mid := View(s, l), s.(roots := s.roots - {name});
            && v.roots == s.roots && Unsaved(mid, l)
            && (if name in s.roots
                then Exec(s, l, op) == SaveDirectory(mid, l) && LayoutAfter(s, l, op) == SaveDirectoryLayout(mid, l)
                  && Events(s, l, op) == SaveDirectoryEvents(mid)
                else Exec(s, l, op) == s && LayoutAfter(s, l, op) == l && Events(s, l, op) == [])
            && Inv(Exec(s, l, op), LayoutAfter(s, l, op))
            && Exec(s, l, op).nblocks <= s.nblocks + |Pieces(Directory.Encode(mid.roots), s.cap)|
            && View(Exec(s, l, op), LayoutAfter(s, l, op)) == v.(roots := v.roots - {name})
  {
    hide Apply, Pieces, Partition, PackedAs, TagsExact, Records, SaveDirectory, SaveDirectoryLayout,
      SaveDirectoryEvents, Directory.Encode;
    ExecInv(s, l, Op.RemoveRoot(name));
    ExecRefines(s, l, Op.RemoveRoot(name));
    RootsChange(s, l, s.roots - {name});
    SaveSize(WithoutRoot(s, name), l);
  }

  /** Tags read back from a file fit their field. */
  lemma TagWidth(s: State, file: seq<Slot>, l: Layout, id: nat)
    requires Inv(s, l) && IsRecord(s, id) && s.table == Blocks(file, s.cap)
    ensures s.head[id].tag < U32_LIMIT
  {
    assert IsHead(s.table, id) && s.table[id] == OpenSlot(file[id], id, s.cap);
    DecodedFields(file[id].plain, s.cap);
  }

  lemma UnlinkSize(s: State, chain: seq<nat>, id: nat)
    requires id in s.head
    ensures Unlink(s, chain, id).nblocks == s.nblocks && Unlink(s, chain, id).cap == s.cap
    ensures Unlink(s, chain, id).roots == DropRoots(s.roots, id)
  {
  }

  lemma HeadChain(s: State, l: Layout, id: nat)
    requires Core(s, l) && id in l
    ensures id in s.head && id < |s.table| && s.table[id].Full?
    ensures IsChain(s.table, s.head[id].next, l[id]) && |l[id]| <= s.nblocks
  {
    assert Chained(s.table, l, id);
    ChainLength(s, l, id);
  }

  lemma UpdateIdBounds(s: State, l: Layout, id: nat, data: Bytes)
    requires Core(s, l) && id in l && s.nblocks + |Pieces(data, s.cap)| < U64_LIMIT
    ensures forall i :: 0 <= i < |UpdateIds(s, id, data)| ==> UpdateIds(s, id, data)[i] < U64_LIMIT
  {
    hide Pieces, Taken;
    UpdatePlaced(s, l, id, data);
  }

  lemma InsertBounds(s: State, l: Layout, data: Bytes)
    requires Core(s, l) && s.nblocks + |Pieces(data, s.cap)| < U64_LIMIT
    ensures forall i :: 0 <= i < |InsertIds(s, data)| ==> InsertIds(s, data)[i] < U64_LIMIT
  {
    hide Pieces, Taken;
    InsertPlaced(s, l, data);
  }

  lemma RecordBytes(s: State, l: Layout, id: nat)
    requires Indexed(s, l) && id in l
    ensures Chained(s.table, l, id)
    ensures Records(s.table, l)[id].bytes == s.table[id].block.data + ChainBytes(s.table, l[id])
  {
    assert Chained(s.table, l, id);
  }

  lemma OpenFacts(t: BlockTable.Table, layout: Layout, cap: nat, durable: bool, ok: bool, now: State,
                  l: Layout, dir: nat, v: Vault)
    requires (exists m :: Sound(t, m)) ==> Sound(t, layout) && Indexed(Scanned(t, layout, cap, durable), layout)
    requires ok <==> Sound(t, layout) && Loaded(Scanned(t, layout, cap, durable), layout).Some?
    requires ok ==> Loaded(Scanned(t, layout, cap, durable), layout) == Some(now)
    ensures ok ==> Opens(t, cap, durable, now, layout)
    ensures !ok ==> forall s, m :: !Opens(t, cap, durable, s, m)
    ensures cap > 0 && Sound(t, l) && Carries(Records(t, l), l, cap, dir, v) && Directory.Fits(v.roots)
            ==> ok && Inv(now, layout) && View(now, layout) == v && now.nblocks < |t|
  {
    hide Loaded, Scanned, Carries, Indexed, Core, Records, Sound;
    forall s, m | Opens(t, cap, durable, s, m) ensures ok {
      LayoutUnique(t, layout, m);
    }
    if cap > 0 && Sound(t, l) && Carries(Records(t, l), l, cap, dir, v) && Directory.Fits(v.roots) {
      LayoutUnique(t, l, layout);
      OpenCarried(t, l, cap, durable, dir, v);
      ScannedSize(t, l, cap, durable);
    }
  }

  lemma ScannedSize(t: BlockTable.Table, l: Layout, cap: nat, durable: bool)
    requires Sound(t, l)
    ensures Scanned(t, l, cap, durable).nblocks < |t|
  {
    TrimBounds(l, |t| - 1);
  }

  /** The order in which std::set yields its members. */
  method Ascending(s: set<nat>) returns (out: seq<nat>)
    ensures forall i, j :: 0 <= i < j < |out| ==> out[i] < out[j]
    ensures forall x :: x in out <==> x in s
  {
    out := [];
    var left := s;
    while left != {}
      invariant left <= s
      invariant forall i, j :: 0 <= i < j < |out| ==> out[i] < out[j]
      invariant forall x :: x in out <==> x in s - left
      invariant forall x, y :: x in out && y in left ==> x < y
    {
      var least := Lowest(left);
      ghost var before := out;
      out := out + [least];
      left := left - {least};
      assert forall x :: x in out <==> x in before || x == least;
      forall i | 0 <= i < |before| ensures before[i] < least { assert before[i] in before; }
    }
  }

  method Lowest(s: set<nat>) returns (d: nat)
    requires s != {}
    ensures d == Least(s)
  {
    LeastExists(s);
    d :| d in s && forall x :: x in s ==> d <= x;
  }

  lemma DirectoryIsHead(s: State, l: Layout)
    requires Indexed(s, l) && DIRECTORY_TAG in s.byTag
    ensures s.byTag[DIRECTORY_TAG] != {} && Least(s.byTag[DIRECTORY_TAG]) in l
  {
  }

  lemma UnreadableNotSound(t: BlockTable.Table)
    ensures !Readable(t) ==> forall l :: !Sound(t, l)
  {
  }

  /** The header entry of a table plays no part in its chains. */
  lemma HeaderIgnored(t: BlockTable.Table, u: BlockTable.Table)
    requires |t| == |u| >= 1 && Readable(t) && Readable(u)
    requires forall b :: 0 < b < |t| ==> t[b] == u[b]
    ensures forall l :: Sound(t, l) <==> Sound(u, l)
    ensures forall l :: Sound(t, l) ==> ScannedHeads(t, l) == ScannedHeads(u, l)
  {
    forall l ensures Sound(t, l) <==> Sound(u, l) {
      HeaderIgnoredBy(t, u, l);
      HeaderIgnoredBy(u, t, l);
    }
  }

  lemma HeaderIgnoredBy(t: BlockTable.Table, u: BlockTable.Table, l: Layout)
    requires |t| == |u| >= 1 && Readable(t) && Readable(u)
    requires forall b :: 0 < b < |t| ==> t[b] == u[b]
    ensures Sound(t, l) ==> Sound(u, l)
  {
    if Sound(t, l) {
      forall h: nat ensures h in l <==> IsHead(u, h) {
        assert IsHead(t, h) <==> IsHead(u, h);
      }
      forall h | h in l ensures Chained(u, l, h) {
        assert Chained(t, l, h);
        forall i | 0 <= i < |l[h]| ensures LinkedAt(u, l[h], i) {
          assert LinkedAt(t, l[h], i);
        }
      }
    }
  }

  lemma KindsDecoded(file: seq<Slot>, cap: nat)
    ensures forall b :: 0 <= b < |file| && Blocks(file, cap)[b].Full? ==>
              Blocks(file, cap)[b].block.kind <= CONTINUATION
  {
  }

  lemma ApplyNone(t: BlockTable.Table)
    ensures Apply(t, []) == t
  {
  }

  lemma ApplyOneMore(t: BlockTable.Table, evs: seq<Event>, m: nat)
    requires m < |evs|
    ensures evs[..m + 1] == evs[..m] + [evs[m]]
    ensures Apply(t, evs[..m + 1]) == ApplyOne(Apply(t, evs[..m]), evs[m])
  {
    assert evs[..m + 1][..m] == evs[..m];
  }

  lemma BodySteps(t: BlockTable.Table, ids: seq<nat>, pieces: seq<Bytes>, durable: bool)
    requires 0 < |ids| == |pieces|
    ensures Apply(t, BodyEvents(ids, pieces, durable)) == Apply(t, ContinuationEvents(ids, pieces))
  {
    ApplyConcat(t, ContinuationEvents(ids, pieces), SyncIf(durable && |ids| > 1));
    SyncApplied(Apply(t, ContinuationEvents(ids, pieces)), durable && |ids| > 1);
  }
}
