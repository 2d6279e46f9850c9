/** Without durable mode nothing is synced inside an operation: which record writes a crash may then
    tear, up to the next sync. */
module UnsyncedWrites {
  import opened Codec
  import opened BlockTable
  import opened ChainWrite
  import opened StoreSpec
  import opened Vault
  import opened CrashRuns
  import opened TornChains
  import Directory

  /** Continuations are written without a tag. */
  ghost predicate CleanTags(t: Table) {
    forall b: nat :: IsContinuation(t, b) ==> t[b].block.tag == 0
  }

  lemma ChainKeepsCleanTags(t: Table, ids: seq<nat>, pieces: seq<Bytes>, tag: nat, durable: bool)
    requires CleanTags(t) && 0 < |ids| == |pieces| && Distinct(ids)
    ensures CleanTags(Apply(t, ChainEvents(ids, pieces, tag, durable)))
  {
    ChainWrote(t, ids, pieces, tag, durable);
    var u := Apply(t, ChainEvents(ids, pieces, tag, durable));
    forall b: nat | IsContinuation(u, b) ensures u[b].block.tag == 0 {
      if Off(ids, 0, b) {
        assert IsContinuation(t, b);
      } else {
        var i :| 0 <= i < |ids| && ids[i] == b;
        assert u[ids[i]] == Full(ChainBlock(ids, pieces, tag, i));
      }
    }
  }

  lemma FreeingKeepsCleanTags(t: Table, id: nat, durable: bool)
    requires CleanTags(t)
    ensures CleanTags(Apply(t, FreeEvents(id, durable)))
  {
    PutApplied(t, id, FREE_BLOCK, durable);
    var u := Write(t, id, FREE_BLOCK);
    forall b: nat | IsContinuation(u, b) ensures u[b].block.tag == 0 {
      assert IsContinuation(t, b);
    }
  }

  lemma SavingKeepsCleanTags(s: State, l: Layout)
    requires Unsaved(s, l) && CleanTags(s.table)
    ensures CleanTags(SaveDirectory(s, l).table)
  {
    hide CleanTags, Pieces, Apply, Directory.Encode, TagsExact, PackedAs;
    var out := Directory.Encode(s.roots);
    if s.dirId == 0 {
      InsertPlaced(s, l, out);
      Distincts(l, InsertIds(s, out));
      ChainKeepsCleanTags(s.table, InsertIds(s, out), Pieces(out, s.cap), DIRECTORY_TAG, s.durable);
    } else {
      UpdatePlaced(s, l, s.dirId, out);
      Distincts(l, UpdateIds(s, s.dirId, out));
      ChainKeepsCleanTags(s.table, UpdateIds(s, s.dirId, out), Pieces(out, s.cap), s.head[s.dirId].tag, s.durable);
    }
  }

  lemma RemovingKeepsCleanTags(s: State, l: Layout, id: nat)
    requires Inv(s, l) && IsRecord(s, id) && CleanTags(s.table)
    ensures CleanTags(RemoveRecord(s, l, id).table)
  {
    hide CleanTags, Apply, SaveDirectory, FreeExact, TagsExact, PackedAs, Directory.Encode;
    FreeingKeepsCleanTags(s.table, id, s.durable);
    if Rooted(s.roots, id) {
      UnlinkUnsaved(s, l, id);
      SavingKeepsCleanTags(Unlink(s, l[id], id), Without(l, id));
    }
  }

  /** No operation of the store gives a continuation a tag. */
  lemma OperationsKeepCleanTags(s: State, l: Layout, op: Op)
    requires Inv(s, l) && CleanTags(s.table)
    ensures CleanTags(Exec(s, l, op).table)
  {
    hide CleanTags, Pieces, Apply, SaveDirectory, RemoveRecord, FreeExact, TagsExact, PackedAs, Taken, Directory.Encode;
    match op
    case Insert(data, tag) =>
      InsertPlaced(s, l, data);
      Distincts(l, InsertIds(s, data));
      ChainKeepsCleanTags(s.table, InsertIds(s, data), Pieces(data, s.cap), tag, s.durable);
    case Update(id, data) =>
      if IsRecord(s, id) {
        UpdatePlaced(s, l, id, data);
        Distincts(l, UpdateIds(s, id, data));
        ChainKeepsCleanTags(s.table, UpdateIds(s, id, data), Pieces(data, s.cap), s.head[id].tag, s.durable);
      }
    case Remove(id) => if IsRecord(s, id) { RemovingKeepsCleanTags(s, l, id); }
    case SetRoot(name, id) =>
      if IsRecord(s, id) {
        RootsChange(s, l, s.roots[name := id]);
        SavingKeepsCleanTags(WithRoot(s, name, id), l);
      }
    case RemoveRoot(name) =>
      if name in s.roots {
        RootsChange(s, l, s.roots - {name});
        SavingKeepsCleanTags(WithoutRoot(s, name), l);
      }
  }

  /** The continuation the write would put into block ids[i] is there already. */
  predicate OnDisk(t: Table, ids: seq<nat>, pieces: seq<Bytes>, i: nat)
    requires i < |ids| == |pieces|
  {
    ids[i] < |t| && t[ids[i]] == Full(ChainBlock(ids, pieces, 0, i))
  }

  ghost predicate AllOnDisk(t: Table, ids: seq<nat>, pieces: seq<Bytes>)
    requires |ids| == |pieces|
  {
    forall i :: 0 < i < |ids| ==> OnDisk(t, ids, pieces, i)
  }

  /** Every crash image of the unsynced write holds the old record or the whole new one, and every other
      record, each in its own blocks. */
  ghost predicate WriteAtomic(t: Table, l: Layout, ids: seq<nat>, pieces: seq<Bytes>, tag: nat)
    requires Sound(t, l) && 0 < |ids| == |pieces|
  {
    forall img :: CrashImage(t, ChainEvents(ids, pieces, tag, false), img) ==>
      || (Sound(img, l) && Records(img, l) == Records(t, l))
      || WholeNew(t, l, ids, pieces, tag, img)
  }

  ghost predicate WholeNew(t: Table, l: Layout, ids: seq<nat>, pieces: seq<Bytes>, tag: nat, img: Table)
    requires Sound(t, l) && 0 < |ids| == |pieces|
  {
    var m := l[ids[0] := ids[1..]];
    Sound(img, m) && Records(img, m) == Records(t, l)[ids[0] := Record(tag, Flatten(pieces))]
  }

  // ---- Nothing to lose ----------------------------------------------------------------------

  lemma {:induction false} RewritesSurvive(t: Table, evs: seq<Event>, img: Table)
    requires forall i :: 0 <= i < |evs| ==> evs[i].Put? && evs[i].id < |t| && t[evs[i].id] == Full(evs[i].block)
    requires Survives(t, evs, img)
    ensures img == t
  {
    if evs != [] {
      var before, last := evs[..|evs| - 1], evs[|evs| - 1];
      var kept :| Survives(t, before, kept) && (img == kept || img == Write(kept, last.id, last.block));
      RewritesSurvive(t, before, kept);
    }
  }

  lemma ContinuationsRewrite(t: Table, ids: seq<nat>, pieces: seq<Bytes>, k: nat, img: Table)
    requires 0 < |ids| == |pieces| && AllOnDisk(t, ids, pieces) && k < |ids|
    requires Survives(t, ContinuationEvents(ids, pieces)[..k], img)
    ensures img == t
  {
    var evs := ContinuationEvents(ids, pieces)[..k];
    forall i | 0 <= i < |evs| ensures evs[i].Put? && evs[i].id < |t| && t[evs[i].id] == Full(evs[i].block) {
      ContinuationEventAt(ids, pieces, |ids| - 1 - i);
      assert OnDisk(t, ids, pieces, |ids| - 1 - i);
    }
    RewritesSurvive(t, evs, img);
  }

  lemma UnsyncedEvents(ids: seq<nat>, pieces: seq<Bytes>, tag: nat)
    requires 0 < |ids| == |pieces|
    ensures ChainEvents(ids, pieces, tag, false)
            == ContinuationEvents(ids, pieces) + [Put(ids[0], ChainBlock(ids, pieces, tag, 0))]
  {
  }

  lemma LastWrite(t: Table, before: seq<Event>, id: nat, b: Block, img: Table) returns (kept: Table)
    requires Survives(t, before + [Put(id, b)], img)
    ensures Survives(t, before, kept) && (img == kept || img == Write(kept, id, b))
  {
    var all := before + [Put(id, b)];
    assert all[..|all| - 1] == before && all[|all| - 1] == Put(id, b);
    kept :| Survives(t, before, kept) && (img == kept || img == Write(kept, id, b));
  }

  lemma RewritingIsAtomic(t: Table, l: Layout, ids: seq<nat>, pieces: seq<Bytes>, tag: nat, img: Table)
    requires Sound(t, l) && MayCarry(l, ids) && 0 < |ids| == |pieces| && ids[0] <= |t| && AllOnDisk(t, ids, pieces)
    requires CrashImage(t, ChainEvents(ids, pieces, tag, false), img)
    ensures img == t || WholeNew(t, l, ids, pieces, tag, img)
  {
    hide WholeNew, AllOnDisk, MayCarry, Sound, ChainBlock, ContinuationEvents, ChainEvents;
    var conts, head := ContinuationEvents(ids, pieces), Put(ids[0], ChainBlock(ids, pieces, tag, 0));
    var all := ChainEvents(ids, pieces, tag, false);
    UnsyncedEvents(ids, pieces, tag);
    var k :| 0 <= k <= |all| && Survives(t, all[..k], img);
    if k <= |conts| {
      assert all[..k] == conts[..k];
      ContinuationsRewrite(t, ids, pieces, k, img);
    } else {
      assert all[..k] == all && conts == conts[..|conts|];
      var kept := LastWrite(t, conts, head.id, head.block, img);
      ContinuationsRewrite(t, ids, pieces, |conts|, kept);
      if img != t { RewrittenHead(t, l, ids, pieces, tag); }
    }
  }

  lemma RewrittenHead(t: Table, l: Layout, ids: seq<nat>, pieces: seq<Bytes>, tag: nat)
    requires Sound(t, l) && MayCarry(l, ids) && 0 < |ids| == |pieces| && ids[0] <= |t| && AllOnDisk(t, ids, pieces)
    ensures WholeNew(t, l, ids, pieces, tag, Write(t, ids[0], ChainBlock(ids, pieces, tag, 0)))
  {
    var u := Write(t, ids[0], ChainBlock(ids, pieces, tag, 0));
    forall i | 0 <= i < |ids| ensures ids[i] < |u| && u[ids[i]] == Full(ChainBlock(ids, pieces, tag, i)) {
      if i > 0 { assert OnDisk(t, ids, pieces, i) && ids[0] != ids[i]; }
    }
    forall b: nat | 0 <= b < |u| && Off(ids, 0, b) ensures u[b] == if b < |t| then t[b] else Unreadable {
      assert ids[0] != b;
    }
    assert Wrote(t, u, ids, pieces, tag, 0);
    Readables(t, ids[0], ChainBlock(ids, pieces, tag, 0));
    ChainCommits(t, u, l, ids, pieces, tag);
  }

  lemma Readables(t: Table, id: nat, b: Block)
    requires Readable(t) && id <= |t|
    ensures Readable(Write(t, id, b))
  {
  }

  // ---- One continuation lost -------------------------------------------------------------------

  lemma {:induction false} SkippedSurvives(t: Table, evs: seq<Event>, j: nat)
    requires j < |evs| && forall i :: 0 <= i < |evs| ==> evs[i].Put?
    ensures Survives(t, evs, Apply(t, evs[..j] + evs[j + 1..]))
  {
    var n := |evs| - 1;
    var before := evs[..n];
    if j == n {
      assert evs[..j] + evs[j + 1..] == before;
      CompleteSurvives(t, before);
    } else {
      SkippedSurvives(t, before, j);
      var rest := before[..j] + before[j + 1..];
      assert evs[..j] + evs[j + 1..] == rest + [evs[n]];
      assert (rest + [evs[n]])[..|rest|] == rest;
    }
  }

  lemma EventIds(ids: seq<nat>, pieces: seq<Bytes>, tag: nat, k: nat)
    requires 0 < |ids| == |pieces| && k < |ids|
    ensures |ChainEvents(ids, pieces, tag, false)| == |ids|
    ensures ChainEvents(ids, pieces, tag, false)[k]
            == Put(ids[|ids| - 1 - k], ChainBlock(ids, pieces, tag, |ids| - 1 - k))
  {
    UnsyncedEvents(ids, pieces, tag);
    if k < |ids| - 1 { ContinuationEventAt(ids, pieces, |ids| - 1 - k); }
  }

  /** img is t with every block of the chain written but block ids[i]. */
  ghost predicate LostOne(t: Table, ids: seq<nat>, pieces: seq<Bytes>, tag: nat, i: nat, img: Table)
    requires |ids| == |pieces|
  {
    && (forall m :: 0 <= m < |ids| && m != i ==> ids[m] < |img| && img[ids[m]] == Full(ChainBlock(ids, pieces, tag, m)))
    && (i < |ids| && ids[i] < |img| && img[ids[i]].Full? ==> ids[i] < |t| && img[ids[i]] == t[ids[i]])
  }

  lemma LosingOne(t: Table, ids: seq<nat>, pieces: seq<Bytes>, tag: nat, i: nat) returns (img: Table)
    requires i < |ids| == |pieces| && Distinct(ids)
    ensures CrashImage(t, ChainEvents(ids, pieces, tag, false), img) && LostOne(t, ids, pieces, tag, i, img)
  {
    hide CrashImage, ChainEvents, ContinuationEvents, ChainBlock;
    var all, n := ChainEvents(ids, pieces, tag, false), |ids|;
    EventIds(ids, pieces, tag, n - 1 - i);
    forall k | 0 <= k < n ensures all[k] == Put(ids[n - 1 - k], ChainBlock(ids, pieces, tag, n - 1 - k)) {
      EventIds(ids, pieces, tag, k);
    }
    img := Skipped(t, all, n - 1 - i);
    forall m | 0 <= m < n && m != i ensures ids[m] < |img| && img[ids[m]] == Full(ChainBlock(ids, pieces, tag, m)) {
      assert all[n - 1 - m] == Put(ids[m], ChainBlock(ids, pieces, tag, m));
    }
  }

  /** Writes to different blocks, with only write j lost. */
  lemma Skipped(t: Table, all: seq<Event>, j: nat) returns (img: Table)
    requires j < |all| && forall i :: 0 <= i < |all| ==> all[i].Put?
    requires forall i, k :: 0 <= i < k < |all| ==> all[i].id != all[k].id
    ensures CrashImage(t, all, img)
    ensures forall k :: 0 <= k < |all| && k != j ==> all[k].id < |img| && img[all[k].id] == Full(all[k].block)
    ensures var b := all[j].id; b < |img| && img[b].Full? ==> b < |t| && img[b] == t[b]
  {
    SkippedSurvives(t, all, j);
    assert all[..|all|] == all;
    var evs := all[..j] + all[j + 1..];
    img := Apply(t, evs);
    hide CrashImage, Apply, Survives;
    forall k | 0 <= k < |evs| ensures evs[k] == all[if k < j then k else k + 1] { }
    PutsApply(t, evs);
    forall k | 0 <= k < |all| && k != j ensures all[k].id < |img| && img[all[k].id] == Full(all[k].block) {
      assert evs[if k < j then k else k - 1] == all[k];
    }
    assert Untouched(evs, all[j].id);
  }

  lemma LostIsNotOld(t: Table, l: Layout, ids: seq<nat>, pieces: seq<Bytes>, tag: nat, i: nat, img: Table)
    requires MayCarry(l, ids) && 0 < i < |ids| == |pieces| && LostOne(t, ids, pieces, tag, i, img)
    ensures !Sound(img, l)
  {
    var h, c := ids[0], ids[1];
    assert img[h] == Full(ChainBlock(ids, pieces, tag, 0)) && IsHead(img, h);
    assert !InChain(l, c);
    assert h in l ==> |l[h]| > 0 ==> l[h][0] != c;
    assert !Chained(img, l, h);
  }

  lemma LostLinks(t: Table, l: Layout, ids: seq<nat>, pieces: seq<Bytes>, tag: nat, i: nat, img: Table)
    requires 0 < i < |ids| == |pieces| && LostOne(t, ids, pieces, tag, i, img)
    requires Sound(img, l[ids[0] := ids[1..]]) && CleanTags(t)
    ensures ids[i] < |t| && ids[i] < |img| && img[ids[i]] == t[ids[i]] && t[ids[i]].Full?
    ensures t[ids[i]].block == ChainBlock(ids, pieces, tag, i).(data := t[ids[i]].block.data)
  {
    var m := l[ids[0] := ids[1..]];
    assert Chained(img, m, ids[0]);
    assert LinkedAt(img, ids[1..], i - 1) && IsContinuation(img, ids[1..][i - 1]);
    assert IsContinuation(t, ids[i]);
  }

  lemma {:induction false} FlattenCancels(pieces: seq<Bytes>, i: nat, d: Bytes)
    requires i < |pieces| && Flatten(pieces[i := d]) == Flatten(pieces)
    ensures d == pieces[i]
    decreases |pieces|
  {
    var other := pieces[i := d];
    if i == 0 {
      assert other[1..] == pieces[1..];
      var tail := Flatten(pieces[1..]);
      assert |d| == |pieces[0]|;
      assert (d + tail)[..|d|] == d && (pieces[0] + tail)[..|d|] == pieces[0];
    } else {
      assert other[1..] == pieces[1..][i - 1 := d];
      var x, y := Flatten(other[1..]), Flatten(pieces[1..]);
      assert (pieces[0] + x)[|pieces[0]|..] == x && (pieces[0] + y)[|pieces[0]|..] == y;
      FlattenCancels(pieces[1..], i - 1, d);
    }
  }

  lemma LostIsNotNew(t: Table, l: Layout, ids: seq<nat>, pieces: seq<Bytes>, tag: nat, i: nat, img: Table)
    requires Sound(t, l) && MayCarry(l, ids) && CleanTags(t)
    requires 0 < i < |ids| == |pieces| && LostOne(t, ids, pieces, tag, i, img) && !OnDisk(t, ids, pieces, i)
    ensures !WholeNew(t, l, ids, pieces, tag, img)
  {
    if WholeNew(t, l, ids, pieces, tag, img) {
      LostLinks(t, l, ids, pieces, tag, i, img);
      var d := t[ids[i]].block.data;
      var other := pieces[i := d];
      forall m | 0 <= m < |ids| ensures ids[m] < |img| && img[ids[m]] == Full(ChainBlock(ids, other, tag, m)) { }
      hide LostOne;
      NewRecord(img, ids, other, tag);
      var after := l[ids[0] := ids[1..]];
      assert Records(img, after)[ids[0]] == RecordAt(img, ids[0], after[ids[0]]);
      assert Flatten(other) == Flatten(pieces);
      FlattenCancels(pieces, i, d);
    }
  }

  /** An unsynced record write is atomic under every crash if and only if it has no continuation to lose:
      the record takes one block, or every further block holds what is written already. */
  lemma WriteAtomicExactly(t: Table, l: Layout, ids: seq<nat>, pieces: seq<Bytes>, tag: nat)
    requires Sound(t, l) && CleanTags(t) && MayCarry(l, ids) && 0 < |ids| == |pieces| && ids[0] <= |t|
    ensures WriteAtomic(t, l, ids, pieces, tag) <==> AllOnDisk(t, ids, pieces)
  {
    hide CrashImage, Sound, WholeNew, LostOne, CleanTags, OnDisk, MayCarry;
    if AllOnDisk(t, ids, pieces) {
      forall img | CrashImage(t, ChainEvents(ids, pieces, tag, false), img)
        ensures (Sound(img, l) && Records(img, l) == Records(t, l)) || WholeNew(t, l, ids, pieces, tag, img)
      {
        RewritingIsAtomic(t, l, ids, pieces, tag, img);
      }
    } else {
      var i :| 0 < i < |ids| && !OnDisk(t, ids, pieces, i);
      Distincts(l, ids);
      var img := LosingOne(t, ids, pieces, tag, i);
      LostIsNotOld(t, l, ids, pieces, tag, i, img);
      LostIsNotNew(t, l, ids, pieces, tag, i, img);
    }
  }

  lemma Distincts(l: Layout, ids: seq<nat>)
    requires MayCarry(l, ids)
    ensures Distinct(ids)
  {
  }

  // ---- Wherever the record ends up ----------------------------------------------------------------

  /** img holds the records of t, or these with record h as in rec. */
  ghost predicate OldOrNewRecords(t: Table, l: Layout, h: nat, rec: Record, img: Table, m: Layout)
    requires Sound(t, l)
  {
    Sound(img, m) && (Records(img, m) == Records(t, l) || Records(img, m) == Records(t, l)[h := rec])
  }

  /** Every crash image of the unsynced write scans, and holds the old record or the new one and every
      other record, in whatever blocks. */
  ghost predicate RecordAtomic(t: Table, l: Layout, ids: seq<nat>, pieces: seq<Bytes>, tag: nat)
    requires Sound(t, l) && 0 < |ids| == |pieces|
  {
    forall img :: CrashImage(t, ChainEvents(ids, pieces, tag, false), img) ==>
      exists m :: OldOrNewRecords(t, l, ids[0], Record(tag, Flatten(pieces)), img, m)
  }

  /** The bytes that make record h the new one, or the old one. */
  ghost function Accepted(t: Table, l: Layout, h: nat, rec: Record): iset<Bytes>
    requires Sound(t, l)
  {
    iset x | Record(rec.tag, x) == rec || (h in l && Record(rec.tag, x) == Records(t, l)[h])
  }

  ghost function WithHead(t: Table, ids: seq<nat>, pieces: seq<Bytes>, tag: nat): Table
    requires 0 < |ids| == |pieces|
  {
    Write(t, ids[0], ChainBlock(ids, pieces, tag, 0))
  }

  ghost function Continuations(ids: seq<nat>, pieces: seq<Bytes>): Writes
    requires 0 < |ids| == |pieces|
  {
    WritesOf(ContinuationEvents(ids, pieces))
  }

  /** With its head written, the record reads as the old or the new one whichever of the further blocks
      hold what was there before. */
  ghost predicate ReadsEitherWay(t: Table, l: Layout, ids: seq<nat>, pieces: seq<Bytes>, tag: nat)
    requires Sound(t, l) && 0 < |ids| == |pieces|
  {
    Reads(WithHead(t, ids, pieces, tag), Continuations(ids, pieces), Without(l, ids[0]), Link(ids, 1), pieces[0], [],
          Accepted(t, l, ids[0], Record(tag, Flatten(pieces))))
  }

  lemma ContinuationsExact(ids: seq<nat>, pieces: seq<Bytes>)
    requires 0 < |ids| == |pieces| && Distinct(ids)
    ensures forall b :: b in Continuations(ids, pieces) ==>
              exists i :: 0 < i < |ids| && ids[i] == b && Continuations(ids, pieces)[b] == ChainBlock(ids, pieces, 0, i)
    ensures forall i :: 0 < i < |ids| ==>
              ids[i] in Continuations(ids, pieces)
                && Continuations(ids, pieces)[ids[i]] == ChainBlock(ids, pieces, 0, i)
    ensures Puts(ContinuationEvents(ids, pieces))
    ensures var evs := ContinuationEvents(ids, pieces);
            forall i, j :: 0 <= i < j < |evs| ==> evs[i].id != evs[j].id
  {
    var evs, w := ContinuationEvents(ids, pieces), Continuations(ids, pieces);
    forall k | 0 <= k < |evs| ensures evs[k] == Put(ids[|ids| - 1 - k], ChainBlock(ids, pieces, 0, |ids| - 1 - k)) {
      ContinuationEventAt(ids, pieces, |ids| - 1 - k);
    }
    WritesMembers(evs);
    forall b | b in w ensures exists i :: 0 < i < |ids| && ids[i] == b && w[b] == ChainBlock(ids, pieces, 0, i) {
      var k :| 0 <= k < |evs| && evs[k] == Put(b, w[b]);
      assert ids[|ids| - 1 - k] == b;
    }
    forall i | 0 < i < |ids| ensures ids[i] in w && w[ids[i]] == ChainBlock(ids, pieces, 0, i) {
      assert evs[|ids| - 1 - i].id in w;
    }
  }

  lemma WithHeadBase(t: Table, l: Layout, ids: seq<nat>, pieces: seq<Bytes>, tag: nat)
    requires Sound(t, l) && MayCarry(l, ids) && |ids| == |pieces| && ids[0] <= |t|
    ensures Base(WithHead(t, ids, pieces, tag), Continuations(ids, pieces), Without(l, ids[0]), ids[0])
    ensures forall g :: g in l && g != ids[0] ==>
              Chained(t, l, g) && RecordAt(WithHead(t, ids, pieces, tag), g, l[g]) == RecordAt(t, g, l[g])
  {
    var u, w, h, o := WithHead(t, ids, pieces, tag), Continuations(ids, pieces), ids[0], Without(l, ids[0]);
    ContinuationsExact(ids, pieces);
    Readables(t, h, ChainBlock(ids, pieces, tag, 0));
    forall g: nat ensures g in o <==> IsHead(u, g) && g != h {
      assert g != h ==> (IsHead(u, g) <==> IsHead(t, g));
    }
    forall g | g in o ensures Chained(u, o, g) && Chained(t, l, g) && RecordAt(u, g, l[g]) == RecordAt(t, g, l[g]) {
      HeadApart(t, l, h, ChainBlock(ids, pieces, tag, 0), g);
    }
    forall b | b in w ensures b > 0 && b !in o && b != h && !InChain(o, b) && w[b].kind == CONTINUATION {
      assert InChain(o, b) ==> InChain(l, b);
    }
    WithoutExclusive(l, h);
  }

  lemma HeadApart(t: Table, l: Layout, h: nat, b: Block, g: nat)
    requires Sound(t, l) && !InChain(l, h) && g in l && g != h
    ensures var u := Write(t, h, b);
            Chained(t, l, g) && Chained(u, Without(l, h), g) && Present(u, l[g])
              && RecordAt(u, g, l[g]) == RecordAt(t, g, l[g])
  {
    var u, cs := Write(t, h, b), l[g];
    assert Chained(t, l, g);
    forall i | 0 <= i < |cs| ensures u[cs[i]] == t[cs[i]] && LinkedAt(u, cs, i) {
      assert LinkedAt(t, cs, i) && InChain(l, cs[i]);
    }
    ChainBytesFrame(t, u, cs);
  }

  /** If the record reads well with every further block lost or not, all of them lie in the file. */
  lemma {:induction false} BlocksInFile(u: Table, w: Writes, o: Layout, ids: seq<nat>, pieces: seq<Bytes>, i: nat,
                                        acc: Bytes, path: seq<nat>, accept: iset<Bytes>)
    requires 0 < i <= |ids| == |pieces| && Reads(u, w, o, Link(ids, i), acc, path, accept)
    requires forall j :: 0 < j < |ids| ==> ids[j] > 0 && ids[j] in w && w[ids[j]].next == Link(ids, j + 1)
    ensures forall j :: i <= j < |ids| ==> ids[j] < |u|
    decreases |ids| - i
  {
    if i < |ids| {
      var b := w[ids[i]];
      BlocksInFile(u, w, o, ids, pieces, i + 1, acc + b.data, path + [ids[i]], accept);
    }
  }

  lemma MendedIsOldOrNew(t: Table, l: Layout, ids: seq<nat>, pieces: seq<Bytes>, tag: nat, img: Table, m: Layout)
    requires Sound(t, l) && MayCarry(l, ids) && |ids| == |pieces| && ids[0] <= |t|
    requires IsHead(WithHead(t, ids, pieces, tag), ids[0])
    requires Mended(WithHead(t, ids, pieces, tag), Without(l, ids[0]), ids[0], img, m,
                    Accepted(t, l, ids[0], Record(tag, Flatten(pieces))))
    ensures OldOrNewRecords(t, l, ids[0], Record(tag, Flatten(pieces)), img, m)
  {
    var h, rec := ids[0], Record(tag, Flatten(pieces));
    var before, after := Records(t, l), Records(img, m);
    WithHeadBase(t, l, ids, pieces, tag);
    hide Base, Sound, Chained, RecordAt, Continuations, MayCarry;
    forall g | g in l && g != h ensures after[g] == before[g] {
      assert g in Without(l, h);
    }
    OneChanged(before, after, h, rec);
  }

  lemma OneChanged(before: map<nat, Record>, after: map<nat, Record>, h: nat, rec: Record)
    requires h in after && forall g :: g in after <==> g in before || g == h
    requires forall g :: g in before && g != h ==> after[g] == before[g]
    requires after[h] == rec || (h in before && after[h] == before[h])
    ensures after == before || after == before[h := rec]
  {
  }

  lemma AllInFile(t: Table, l: Layout, ids: seq<nat>, pieces: seq<Bytes>, tag: nat)
    requires Sound(t, l) && MayCarry(l, ids) && |ids| == |pieces| && ids[0] <= |t|
             && ReadsEitherWay(t, l, ids, pieces, tag)
    ensures forall i :: 0 < i < |ids| ==> ids[i] < |t|
  {
    var u, w, o := WithHead(t, ids, pieces, tag), Continuations(ids, pieces), Without(l, ids[0]);
    ContinuationsExact(ids, pieces);
    hide Accepted, Reads, ContinuationEvents;
    BlocksInFile(u, w, o, ids, pieces, 1, pieces[0], [], Accepted(t, l, ids[0], Record(tag, Flatten(pieces))));
  }

  lemma LosesHead(t: Table, l: Layout, ids: seq<nat>, pieces: seq<Bytes>, k: nat, img: Table)
    requires Sound(t, l) && MayCarry(l, ids) && |ids| == |pieces| && k < |ids|
    requires forall i :: 0 < i < |ids| ==> ids[i] < |t|
    requires Survives(t, ContinuationEvents(ids, pieces)[..k], img)
    ensures Sound(img, l) && Records(img, l) == Records(t, l)
  {
    hide ContinuationEvents, ChainBlock, Sound, Records, Survives;
    var evs := ContinuationEvents(ids, pieces)[..k];
    PrefixWrites(l, ids, pieces, k);
    SurvivesTorn(t, evs, img);
    TornUnused(t, WritesOf(evs), l, img);
  }

  lemma PrefixWrites(l: Layout, ids: seq<nat>, pieces: seq<Bytes>, k: nat)
    requires MayCarry(l, ids) && |ids| == |pieces| && k < |ids|
    ensures var evs := ContinuationEvents(ids, pieces)[..k];
            && Puts(evs) && (forall i, j :: 0 <= i < j < |evs| ==> evs[i].id != evs[j].id)
            && (forall j :: 0 <= j < |evs| ==> evs[j].id in ids[1..])
            && (forall b :: b in WritesOf(evs) ==>
                  b > 0 && b in ids[1..] && !Used(l, b) && WritesOf(evs)[b].kind == CONTINUATION)
  {
    var evs := ContinuationEvents(ids, pieces)[..k];
    forall j | 0 <= j < |evs|
      ensures evs[j] == Put(ids[|ids| - 1 - j], ChainBlock(ids, pieces, 0, |ids| - 1 - j)) && evs[j].id in ids[1..]
    {
      ContinuationEventAt(ids, pieces, |ids| - 1 - j);
      assert ids[1..][|ids| - 2 - j] == evs[j].id;
    }
    WritesMembers(evs);
  }

  lemma KeepsHead(t: Table, l: Layout, ids: seq<nat>, pieces: seq<Bytes>, tag: nat, kept: Table)
    requires MayCarry(l, ids) && |ids| == |pieces| && ids[0] <= |t|
    requires forall i :: 0 < i < |ids| ==> ids[i] < |t|
    requires Survives(t, ContinuationEvents(ids, pieces), kept)
    ensures Torn(WithHead(t, ids, pieces, tag), Continuations(ids, pieces),
            Write(kept, ids[0], ChainBlock(ids, pieces, tag, 0)))
  {
    hide ChainBlock, Survives, WritesOf, Write;
    var conts, w := ContinuationEvents(ids, pieces), Continuations(ids, pieces);
    ContinuationsExact(ids, pieces);
    PrefixWrites(l, ids, pieces, |conts|);
    assert conts[..|conts|] == conts;
    SurvivesTorn(t, conts, kept);
    TornUnderHead(t, w, kept, ids[0], ChainBlock(ids, pieces, tag, 0));
  }

  lemma OldIsOldOrNew(t: Table, l: Layout, h: nat, rec: Record, img: Table)
    requires Sound(t, l) && Sound(img, l) && Records(img, l) == Records(t, l)
    ensures OldOrNewRecords(t, l, h, rec, img, l)
  {
  }

  lemma HeadBlock(t: Table, ids: seq<nat>, pieces: seq<Bytes>, tag: nat)
    requires 0 < |ids| == |pieces| && ids[0] > 0
    ensures var u, h := WithHead(t, ids, pieces, tag), ids[0];
            IsHead(u, h) && u[h].block.next == Link(ids, 1) && u[h].block.data == pieces[0] && u[h].block.tag == tag
  {
  }

  lemma ReadingIsAtomic(t: Table, l: Layout, ids: seq<nat>, pieces: seq<Bytes>, tag: nat,
                        img: Table) returns (m: Layout)
    requires Sound(t, l) && MayCarry(l, ids) && |ids| == |pieces| && ids[0] <= |t|
    requires ReadsEitherWay(t, l, ids, pieces, tag)
    requires CrashImage(t, ChainEvents(ids, pieces, tag, false), img)
    ensures OldOrNewRecords(t, l, ids[0], Record(tag, Flatten(pieces)), img, m)
  {
    hide Accepted, Mended, OldOrNewRecords, Reads, Base, ContinuationEvents, ChainEvents, ChainBlock;
    var conts, head := ContinuationEvents(ids, pieces), Put(ids[0], ChainBlock(ids, pieces, tag, 0));
    var all := ChainEvents(ids, pieces, tag, false);
    var u, w, o := WithHead(t, ids, pieces, tag), Continuations(ids, pieces), Without(l, ids[0]);
    var accept := Accepted(t, l, ids[0], Record(tag, Flatten(pieces)));
    UnsyncedEvents(ids, pieces, tag);
    AllInFile(t, l, ids, pieces, tag);
    var k :| 0 <= k <= |all| && Survives(t, all[..k], img);
    if k <= |conts| {
      assert all[..k] == conts[..k];
      LosesHead(t, l, ids, pieces, k, img);
      m := l;
      OldIsOldOrNew(t, l, ids[0], Record(tag, Flatten(pieces)), img);
    } else {
      assert all[..k] == all && conts == conts[..|conts|];
      var kept := LastWrite(t, conts, head.id, head.block, img);
      if img == kept {
        LosesHead(t, l, ids, pieces, |conts|, img);
        m := l;
        OldIsOldOrNew(t, l, ids[0], Record(tag, Flatten(pieces)), img);
      } else {
        KeepsHead(t, l, ids, pieces, tag, kept);
        WithHeadBase(t, l, ids, pieces, tag);
        HeadBlock(t, ids, pieces, tag);
        m := TornMends(u, w, o, ids[0], img, accept);
        MendedIsOldOrNew(t, l, ids, pieces, tag, img, m);
      }
    }
  }

  /** The image with the head and just the further blocks in p. */
  lemma PickedImage(t: Table, l: Layout, ids: seq<nat>, pieces: seq<Bytes>, tag: nat, p: set<nat>) returns (img: Table)
    requires MayCarry(l, ids) && |ids| == |pieces| && ids[0] <= |t|
    requires p <= Continuations(ids, pieces).Keys && forall b :: b in p ==> b < |WithHead(t, ids, pieces, tag)|
    ensures CrashImage(t, ChainEvents(ids, pieces, tag, false), img)
    ensures Picked(WithHead(t, ids, pieces, tag), Continuations(ids, pieces), p, [], img)
  {
    hide ChainBlock, ContinuationEvents, CrashImage, Survives, Kept, WritesOf, Write;
    var conts, head := ContinuationEvents(ids, pieces), Put(ids[0], ChainBlock(ids, pieces, tag, 0));
    ContinuationsExact(ids, pieces);
    InOldTable(t, ids, pieces, tag, p);
    var kept := Kept(t, conts, p);
    KeptSurvives(t, conts, p);
    img := Write(kept, head.id, head.block);
    LastKept(t, conts, kept, head.id, head.block);
    PickedUnderHead(t, conts, p, head.id, head.block);
    UnsyncedEvents(ids, pieces, tag);
    SurvivorIsImage(t, ChainEvents(ids, pieces, tag, false), img);
  }

  lemma InOldTable(t: Table, ids: seq<nat>, pieces: seq<Bytes>, tag: nat, p: set<nat>)
    requires 0 < |ids| == |pieces| && Distinct(ids) && ids[0] <= |t|
    requires p <= Continuations(ids, pieces).Keys && forall b :: b in p ==> b < |WithHead(t, ids, pieces, tag)|
    ensures ids[0] !in Continuations(ids, pieces) && forall b :: b in p ==> b < |t|
  {
    ContinuationsExact(ids, pieces);
  }

  lemma SurvivorIsImage(t: Table, evs: seq<Event>, img: Table)
    requires Survives(t, evs, img)
    ensures CrashImage(t, evs, img)
  {
    assert evs[..|evs|] == evs;
  }

  lemma TornIsNeither(t: Table, l: Layout, ids: seq<nat>, pieces: seq<Bytes>, tag: nat, img: Table, m: Layout)
    requires Sound(t, l) && 0 < |ids| == |pieces|
    requires Sound(img, m) ==> ids[0] in m && Records(img, m)[ids[0]].tag == tag
    requires Sound(img, m) ==> Records(img, m)[ids[0]].bytes !in Accepted(t, l, ids[0], Record(tag, Flatten(pieces)))
    ensures !OldOrNewRecords(t, l, ids[0], Record(tag, Flatten(pieces)), img, m)
  {
  }

  /** An unsynced record write is atomic under every crash, wherever the record ends up, if and only if it
      reads as the old or the new record whichever of its further blocks are lost. */
  lemma RecordAtomicExactly(t: Table, l: Layout, ids: seq<nat>, pieces: seq<Bytes>, tag: nat)
    requires Sound(t, l) && MayCarry(l, ids) && |ids| == |pieces| && ids[0] <= |t|
    ensures RecordAtomic(t, l, ids, pieces, tag) <==> ReadsEitherWay(t, l, ids, pieces, tag)
  {
    hide CrashImage, ChainEvents, Sound, OldOrNewRecords, Accepted, Reads, Base, MayCarry, Picked, Continuations;
    PositiveHead(l, ids);
    if ReadsEitherWay(t, l, ids, pieces, tag) {
      forall img | CrashImage(t, ChainEvents(ids, pieces, tag, false), img)
        ensures exists m :: OldOrNewRecords(t, l, ids[0], Record(tag, Flatten(pieces)), img, m)
      {
        var m := ReadingIsAtomic(t, l, ids, pieces, tag, img);
      }
    } else {
      var u, w, o, h := WithHead(t, ids, pieces, tag), Continuations(ids, pieces), Without(l, ids[0]), ids[0];
      var accept := Accepted(t, l, h, Record(tag, Flatten(pieces)));
      HeadBlock(t, ids, pieces, tag);
      WithHeadBase(t, l, ids, pieces, tag);
      var p := TornFails(u, w, o, h, accept);
      var img := PickedImage(t, l, ids, pieces, tag, p);
      forall m ensures !OldOrNewRecords(t, l, h, Record(tag, Flatten(pieces)), img, m) {
        TornIsNeither(t, l, ids, pieces, tag, img, m);
      }
    }
  }

  lemma PositiveHead(l: Layout, ids: seq<nat>)
    requires MayCarry(l, ids)
    ensures ids != [] && ids[0] > 0
  {
  }

  /** One block is always atomic; several are not if the second is no leftover continuation. */
  lemma OneBlockReads(t: Table, l: Layout, ids: seq<nat>, pieces: seq<Bytes>, tag: nat)
    requires Sound(t, l) && MayCarry(l, ids) && |ids| == |pieces|
    ensures |ids| == 1 ==> ReadsEitherWay(t, l, ids, pieces, tag)
    ensures |ids| > 1 && !IsContinuation(t, ids[1]) ==> !ReadsEitherWay(t, l, ids, pieces, tag)
  {
    if |ids| == 1 { assert pieces == [pieces[0]] && Flatten(pieces) == pieces[0] + Flatten(pieces[1..]) == pieces[0]; }
  }

  // ---- Insert and update ---------------------------------------------------------------------------

  /** In a store that is not durable, an insert is atomic under a crash before the next sync if and only if
      its record reads well either way. */
  lemma InsertAtomicExactly(s: State, l: Layout, data: Bytes, tag: nat)
    requires Inv(s, l) && !s.durable && tag != DIRECTORY_TAG
    ensures Events(s, l, Op.Insert(data, tag)) == ChainEvents(InsertIds(s, data), Pieces(data, s.cap), tag, false)
    ensures RecordAtomic(s.table, l, InsertIds(s, data), Pieces(data, s.cap), tag)
            <==> ReadsEitherWay(s.table, l, InsertIds(s, data), Pieces(data, s.cap), tag)
    ensures CleanTags(s.table) ==>
              (WriteAtomic(s.table, l, InsertIds(s, data), Pieces(data, s.cap), tag)
               <==> AllOnDisk(s.table, InsertIds(s, data), Pieces(data, s.cap)))
  {
    hide WriteAtomic, RecordAtomic, ReadsEitherWay, AllOnDisk, HeadsExact, TagsExact, PackedAs, DirectoryExact, Pieces,
      CleanTags;
    var ids, pieces := InsertIds(s, data), Pieces(data, s.cap);
    InsertPlaced(s, l, data);
    RecordAtomicExactly(s.table, l, ids, pieces, tag);
    if CleanTags(s.table) { WriteAtomicExactly(s.table, l, ids, pieces, tag); }
  }

  /** The same for an update, which keeps the head block and the tag. */
  lemma UpdateAtomicExactly(s: State, l: Layout, id: nat, data: Bytes)
    requires Inv(s, l) && !s.durable && IsRecord(s, id)
    ensures Events(s, l, Op.Update(id, data))
            == ChainEvents(UpdateIds(s, id, data), Pieces(data, s.cap), s.head[id].tag, false)
    ensures RecordAtomic(s.table, l, UpdateIds(s, id, data), Pieces(data, s.cap), s.head[id].tag)
            <==> ReadsEitherWay(s.table, l, UpdateIds(s, id, data), Pieces(data, s.cap), s.head[id].tag)
    ensures CleanTags(s.table) ==>
              (WriteAtomic(s.table, l, UpdateIds(s, id, data), Pieces(data, s.cap), s.head[id].tag)
               <==> AllOnDisk(s.table, UpdateIds(s, id, data), Pieces(data, s.cap)))
  {
    hide WriteAtomic, RecordAtomic, ReadsEitherWay, AllOnDisk, TagsExact, PackedAs, DirectoryExact, Pieces, CleanTags,
      Taken;
    var ids, pieces := UpdateIds(s, id, data), Pieces(data, s.cap);
    UpdatePlaced(s, l, id, data);
    assert IsHead(s.table, id);
    RecordAtomicExactly(s.table, l, ids, pieces, s.head[id].tag);
    if CleanTags(s.table) { WriteAtomicExactly(s.table, l, ids, pieces, s.head[id].tag); }
  }
}
