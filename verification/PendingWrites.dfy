/** The writes of one durable operation between its syncs: what of them is pending at a given point, and
    what comes up to the first sync. */
module PendingWrites {
  import opened Codec
  import opened BlockTable
  import opened ChainWrite
  import opened StoreSpec
  import opened Vault
  import opened CrashRuns
  import opened TornChains
  import opened LostHeads
  import Directory

  // ---- The record an operation writes -------------------------------------------------------------

  /** evs writes data as one record to the blocks ids of a table with layout l. */
  ghost predicate WritesRecord(t: Table, l: Layout, cap: nat, evs: seq<Event>, ids: seq<nat>, data: Bytes, tag: nat)
    requires cap > 0
  {
    && |ids| == |Pieces(data, cap)| && evs == ChainEvents(ids, Pieces(data, cap), tag, true)
    && Sound(t, l) && MayCarry(l, ids) && forall i :: 0 <= i < |ids| ==> ids[i] <= |t|
  }

  lemma InsertWrites(s: State, l: Layout, data: Bytes, tag: nat)
    requires Core(s, l) && s.durable && AddsAtMostOne(s, |Pieces(data, s.cap)|)
    ensures WritesRecord(s.table, l, s.cap, InsertEvents(s, data, tag), InsertIds(s, data), data, tag)
    ensures var ids, s' := InsertIds(s, data), StoreSpec.Insert(s, data, tag);
            && Sound(s'.table, l[ids[0] := ids[1..]]) && ids[0] !in l
            && Records(s'.table, l[ids[0] := ids[1..]]) == Records(s.table, l)[ids[0] := Record(tag, data)]
  {
    hide Apply, Pieces, ChainEvents, Taken, Records, HeadsExact, TagsExact, PackedAs;
    InsertPlaced(s, l, data);
    TakenBounds(s, |Pieces(data, s.cap)|);
    InsertKeeps(s, l, data, tag);
  }

  lemma UpdateWrites(s: State, l: Layout, id: nat, data: Bytes)
    requires Core(s, l) && s.durable && id in l && AddsAtMostOne(s, |Pieces(data, s.cap)| - 1)
    ensures WritesRecord(s.table, l, s.cap, UpdateEvents(s, id, data), UpdateIds(s, id, data), data, s.head[id].tag)
    ensures var ids, s' := UpdateIds(s, id, data), StoreSpec.Update(s, l[id], id, data);
            && ids[0] == id && Sound(s'.table, l[id := ids[1..]])
            && Records(s'.table, l[id := ids[1..]]) == Records(s.table, l)[id := Record(s.head[id].tag, data)]
  {
    hide Apply, Pieces, ChainEvents, Records, TagsExact, PackedAs;
    UpdatePlaced(s, l, id, data);
    UpdateBounds(s, l, id, data);
    UpdateKeeps(s, l, id, data);
  }

  lemma SaveWrites(s: State, l: Layout) returns (ids: seq<nat>, data: Bytes, tag: nat)
    requires Unsaved(s, l) && s.durable && SmallSave(s)
    ensures WritesRecord(s.table, l, s.cap, SaveDirectoryEvents(s), ids, data, tag)
    ensures s.dirId != 0 ==> ids[0] == s.dirId
    ensures Sound(SaveDirectory(s, l).table, SaveDirectoryLayout(s, l))
    ensures Records(SaveDirectory(s, l).table, SaveDirectoryLayout(s, l))
            == Records(s.table, l)[ids[0] := Record(tag, data)]
  {
    hide Pieces, Records, InsertEvents, UpdateEvents, Directory.Encode, Sound, FreeExact, TagsExact, PackedAs, Apply;
    data := Directory.Encode(s.roots);
    if s.dirId == 0 {
      ids, tag := InsertIds(s, data), DIRECTORY_TAG;
      InsertWrites(s, l, data, tag);
    } else {
      ids, tag := UpdateIds(s, s.dirId, data), s.head[s.dirId].tag;
      UpdateWrites(s, l, s.dirId, data);
    }
  }

  ghost predicate Writes(s: State, l: Layout, op: Op)
    requires Inv(s, l)
  {
    match op
    case Insert(data, tag) => tag != DIRECTORY_TAG
    case Update(id, data) => IsRecord(s, id)
    case Remove(id) => false
    case SetRoot(name, id) => IsRecord(s, id)
    case RemoveRoot(name) => name in s.roots
  }

  /** Every operation but a removal writes one record, or nothing. */
  lemma OpWrites(s: State, l: Layout, op: Op) returns (ids: seq<nat>, data: Bytes, tag: nat)
    requires Inv(s, l) && s.durable && SmallGrowth(s, l, op) && Writes(s, l, op)
    ensures WritesRecord(s.table, l, s.cap, Events(s, l, op), ids, data, tag)
    ensures Sound(Exec(s, l, op).table, LayoutAfter(s, l, op))
    ensures Records(Exec(s, l, op).table, LayoutAfter(s, l, op)) == Records(s.table, l)[ids[0] := Record(tag, data)]
  {
    hide Pieces, Records, InsertEvents, UpdateEvents, SaveDirectoryEvents, SaveDirectory, SaveDirectoryLayout,
      SmallSave, FreeExact, TagsExact, PackedAs, Apply, DirectoryExact, StoreSpec.Insert, StoreSpec.Update,
      WritesRecord;
    match op
    case Insert(data0, tag0) =>
      ids, data, tag := InsertIds(s, data0), data0, tag0;
      InsertWrites(s, l, data, tag);
    case Update(id, data0) =>
      ids, data, tag := UpdateIds(s, id, data0), data0, s.head[id].tag;
      UpdateWrites(s, l, id, data);
    case SetRoot(name, id) =>
      DirectoryKnown(s, l);
      RootsChange(s, l, s.roots[name := id]);
      ids, data, tag := SaveWrites(WithRoot(s, name, id), l);
    case RemoveRoot(name) =>
      DirectoryKnown(s, l);
      RootsChange(s, l, s.roots - {name});
      ids, data, tag := SaveWrites(WithoutRoot(s, name), l);
  }

  lemma DirectoryKnown(s: State, l: Layout)
    requires Inv(s, l)
    ensures Unsaved(s, l)
  {
  }

  // ---- The first segment ---------------------------------------------------------------------------

  /** The writes up to the first sync. */
  ghost function FirstSegment(evs: seq<Event>): seq<Event> {
    if evs == [] || evs[0] == Sync then [] else [evs[0]] + FirstSegment(evs[1..])
  }

  lemma {:induction false} SegmentEnds(a: seq<Event>, b: seq<Event>)
    requires Puts(a)
    ensures FirstSegment(a + [Sync] + b) == a
    decreases |a|
  {
    if a == [] {
      assert (a + [Sync] + b)[0] == Sync;
    } else {
      assert (a + [Sync] + b)[1..] == a[1..] + [Sync] + b;
      SegmentEnds(a[1..], b);
    }
  }

  lemma ContinuationsSegment(l: Layout, ids: seq<nat>, pieces: seq<Bytes>, len: nat, k: nat)
    requires MayCarry(l, ids) && |ids| == |pieces| && k < |ids| && forall i :: 0 <= i < |ids| ==> ids[i] <= len
    ensures ContinuationSegment(ContinuationEvents(ids, pieces)[..k], l, len)
  {
    var evs := ContinuationEvents(ids, pieces)[..k];
    forall j | 0 <= j < |evs| ensures evs[j] == Put(ids[|ids| - 1 - j], ChainBlock(ids, pieces, 0, |ids| - 1 - j)) {
      ContinuationEventAt(ids, pieces, |ids| - 1 - j);
    }
  }

  lemma RecordSegment(t: Table, l: Layout, cap: nat, evs: seq<Event>, ids: seq<nat>, data: Bytes, tag: nat, v: Versions)
    requires cap > 0 && WritesRecord(t, l, cap, evs, ids, data, tag)
    requires ids[0] in v.next && v.next[ids[0]] == Record(tag, data)
    ensures Segment(FirstSegment(evs), l, |t|, v) && FreesRecords(FirstSegment(evs), l)
  {
    var pieces := Pieces(data, cap);
    var conts, head := ContinuationEvents(ids, pieces), Put(ids[0], ChainBlock(ids, pieces, tag, 0));
    if |ids| > 1 {
      ContinuationsSegment(l, ids, pieces, |t|, |conts|);
      assert conts[..|conts|] == conts;
      assert evs == conts + [Sync] + [head, Sync];
      SegmentEnds(conts, [head, Sync]);
    } else {
      assert conts == [] && evs == [head] + [Sync] + [];
      SegmentEnds([head], []);
    }
  }

  lemma FreeingSegment(s: State, l: Layout, id: nat, rest: seq<Event>, v: Versions)
    requires Inv(s, l) && IsRecord(s, id) && id !in v.next
    ensures Segment(FirstSegment(FreeEvents(id, true) + rest), l, |s.table|, v)
    ensures FreesRecords(FirstSegment(FreeEvents(id, true) + rest), l)
  {
    var put := Put(id, FREE_BLOCK);
    assert FreeEvents(id, true) + rest == [put] + [Sync] + rest;
    SegmentEnds([put], rest);
    assert IsHead(s.table, id);
  }

  ghost function VersionsAfter(before: map<nat, Record>, s: State, l: Layout, next: Op): Versions
    requires Inv(s, l)
  {
    ExecRefines(s, l, next);
    Versions(before, Records(s.table, l), Records(Exec(s, l, next).table, LayoutAfter(s, l, next)))
  }

  /** What an operation writes up to its first sync. */
  lemma NextSegment(before: map<nat, Record>, s: State, l: Layout, next: Op)
    requires Inv(s, l) && s.durable && SmallGrowth(s, l, next)
    ensures Segment(FirstSegment(Events(s, l, next)), l, |s.table|, VersionsAfter(before, s, l, next))
    ensures FreesRecords(FirstSegment(Events(s, l, next)), l)
  {
    hide Records, Pieces, FreeExact, TagsExact, PackedAs, DirectoryExact, StoreSpec.Insert, StoreSpec.Update,
      WritesRecord, SaveDirectory, SaveDirectoryLayout, SaveDirectoryEvents, InsertEvents, UpdateEvents, Segment,
      FreesRecords, SmallSave;
    var v := VersionsAfter(before, s, l, next);
    if Writes(s, l, next) {
      var ids, data, tag := OpWrites(s, l, next);
      RecordSegment(s.table, l, s.cap, Events(s, l, next), ids, data, tag, v);
    } else if next.Remove? && IsRecord(s, next.id) {
      RemovedGone(s, l, next.id);
      DirectoryKnown(s, l);
      UnlinkUnsaved(s, l, next.id);
      var rest := if Rooted(s.roots, next.id) then SaveDirectoryEvents(Unlink(s, l[next.id], next.id)) else [];
      FreeingSegment(s, l, next.id, rest, v);
    } else {
      EmptySegment(l, |s.table|, v);
    }
  }

  lemma EmptySegment(l: Layout, len: nat, v: Versions)
    ensures Segment([], l, len, v) && FreesRecords([], l)
  {
  }

  lemma RemovedGone(s: State, l: Layout, id: nat)
    requires Inv(s, l) && IsRecord(s, id)
    ensures Sound(Exec(s, l, Remove(id)).table, LayoutAfter(s, l, Remove(id)))
    ensures id !in Records(Exec(s, l, Remove(id)).table, LayoutAfter(s, l, Remove(id)))
  {
    hide Records, SaveDirectory, SaveDirectoryLayout, FreeExact, TagsExact, PackedAs, Apply, Directory.Encode;
    UnlinkKeeps(s, l, id);
    if Rooted(s.roots, id) {
      RootedDirectory(s, l, id);
      LaterSave(Unlink(s, l[id], id), Without(l, id));
    }
  }

  /** A root is in a directory record, which is not the record it names. */
  lemma RootedDirectory(s: State, l: Layout, id: nat)
    requires Inv(s, l) && IsRecord(s, id) && Rooted(s.roots, id)
    ensures s.dirId != 0 && s.dirId != id && Unsaved(Unlink(s, l[id], id), Without(l, id))
    ensures Unlink(s, l[id], id).dirId == s.dirId && Unlink(s, l[id], id).durable == s.durable
    ensures Unlink(s, l[id], id).cap == s.cap
  {
    UnlinkUnsaved(s, l, id);
  }

  // ---- What is pending at a given point ---------------------------------------------------------------

  /** The last write is that of a head, new or freed, and not synced yet. */
  predicate PendingHead(evs: seq<Event>, k: nat)
    requires k <= |evs|
  {
    k > 0 && evs[k - 1].Put? && evs[k - 1].block.kind != CONTINUATION
  }

  /** Every sound reading of u is one of t, with the same records. */
  ghost predicate SameRecords(t: Table, u: Table) {
    forall m :: Sound(u, m) ==> Sound(t, m) && Records(t, m) == Records(u, m)
  }

  lemma ContinuationsSame(t: Table, l: Layout, ids: seq<nat>, pieces: seq<Bytes>, k: nat, kept: Table)
    requires Sound(t, l) && MayCarry(l, ids) && |ids| == |pieces| && k < |ids|
    requires forall i :: 0 <= i < |ids| ==> ids[i] <= |t|
    requires Survives(t, ContinuationEvents(ids, pieces)[..k], kept)
    ensures Sound(kept, l) && Records(kept, l) == Records(t, l)
  {
    var evs := ContinuationEvents(ids, pieces)[..k];
    hide Survives, Sound, Records, ContinuationEvents;
    ContinuationsSegment(l, ids, pieces, |t|, k);
    SegmentWrites(evs, l, |t|);
    SurvivesTorn(t, evs, kept);
    TornUnused(t, WritesOf(evs), l, kept);
  }

  lemma RecordEvents(t: Table, l: Layout, cap: nat, evs: seq<Event>, ids: seq<nat>, data: Bytes, tag: nat)
    requires cap > 0 && WritesRecord(t, l, cap, evs, ids, data, tag)
    ensures var conts := ContinuationEvents(ids, Pieces(data, cap));
            var head := Put(ids[0], ChainBlock(ids, Pieces(data, cap), tag, 0));
            && evs == conts + SyncIf(|ids| > 1) + [head, Sync]
            && (forall j :: 0 <= j < |conts| ==> conts[j].Put? && conts[j].block.kind == CONTINUATION)
  {
    var conts := ContinuationEvents(ids, Pieces(data, cap));
    forall j | 0 <= j < |conts| ensures conts[j].Put? && conts[j].block.kind == CONTINUATION {
      ContinuationEventAt(ids, Pieces(data, cap), |ids| - 1 - j);
    }
  }

  lemma SameAsSelf(t: Table)
    ensures SameRecords(t, t)
  {
  }

  /** While no head is pending, whatever is lost changes no record. */
  lemma RecordQuiet(t: Table, l: Layout, cap: nat, evs: seq<Event>, ids: seq<nat>, data: Bytes, tag: nat, k: nat,
                    kept: Table)
    requires cap > 0 && WritesRecord(t, l, cap, evs, ids, data, tag) && k <= |evs| && !PendingHead(evs, k)
    requires Survives(t, evs[..k], kept)
    ensures SameRecords(kept, Apply(t, evs[..k]))
  {
    var pieces := Pieces(data, cap);
    var conts := ContinuationEvents(ids, pieces);
    RecordEvents(t, l, cap, evs, ids, data, tag);
    hide Survives, Sound, Records, Pieces, ContinuationEvents, ChainEvents;
    if k == 0 || evs[k - 1] == Sync {
      SyncedSurvives(t, evs[..k], kept);
      SameAsSelf(kept);
    } else {
      assert evs[..k] == conts[..k];
      var u := Apply(t, evs[..k]);
      CompleteSurvives(t, evs[..k]);
      ContinuationsSame(t, l, ids, pieces, k, kept);
      ContinuationsSame(t, l, ids, pieces, k, u);
      forall m | Sound(u, m) ensures Sound(kept, m) && Records(kept, m) == Records(u, m) {
        LayoutUnique(u, m, l);
      }
    }
  }

  /** A pending head: everything before it is synced, and changes no record. */
  lemma RecordLoud(t: Table, l: Layout, cap: nat, evs: seq<Event>, ids: seq<nat>, data: Bytes, tag: nat, k: nat)
    requires cap > 0 && WritesRecord(t, l, cap, evs, ids, data, tag) && k <= |evs| && PendingHead(evs, k)
    ensures var base := Apply(t, evs[..k - 1]); Sound(base, l) && Records(base, l) == Records(t, l) && |t| <= |base|
    ensures evs[k - 1].id == ids[0] && evs[k - 1].block.kind == HEAD && (k == 1 || evs[k - 2] == Sync)
  {
    var pieces := Pieces(data, cap);
    var conts := ContinuationEvents(ids, pieces);
    RecordEvents(t, l, cap, evs, ids, data, tag);
    hide Survives, Sound, Records, Pieces, ContinuationEvents, ChainEvents;
    assert evs[..k - 1] == conts + SyncIf(|ids| > 1);
    var u := Apply(t, conts);
    CompleteSurvives(t, conts);
    assert conts[..|conts|] == conts;
    ContinuationsSame(t, l, ids, pieces, |conts|, u);
    ApplyConcat(t, conts, SyncIf(|ids| > 1));
    SyncApplied(u, |ids| > 1);
    ApplyLonger(t, conts);
  }

  lemma {:induction false} ApplyLonger(t: Table, evs: seq<Event>)
    ensures |t| <= |Apply(t, evs)|
  {
    if evs != [] { ApplyLonger(t, evs[..|evs| - 1]); }
  }

  // ---- The same for every operation -------------------------------------------------------------------

  /** The directory part of the removal of a rooted record, after the freed head is synced. */
  lemma RemovalTail(s: State, l: Layout, id: nat, k: nat)
    requires Inv(s, l) && s.durable && IsRecord(s, id) && 2 <= k <= |Events(s, l, Remove(id))|
    ensures var evs := Events(s, l, Remove(id));
            var rest := evs[2..];
            && evs[..2] == FreeEvents(id, true) && evs[..k] == FreeEvents(id, true) + rest[..k - 2]
            && (k > 2 ==> Rooted(s.roots, id) && rest == SaveDirectoryEvents(Unlink(s, l[id], id)))
            && Apply(s.table, FreeEvents(id, true)) == Unlink(s, l[id], id).table
            && Apply(s.table, evs[..k]) == Apply(Unlink(s, l[id], id).table, rest[..k - 2])
            && forall img ::
                 Survives(s.table, evs[..k], img) <==> Survives(Unlink(s, l[id], id).table, rest[..k - 2], img)
  {
    hide SaveDirectoryEvents, FreeExact, TagsExact, PackedAs, DirectoryExact, Survives, Apply;
    var evs := Events(s, l, Remove(id));
    var free, rest := FreeEvents(id, true), evs[2..];
    assert evs[..k] == free + rest[..k - 2];
    ApplyConcat(s.table, free, rest[..k - 2]);
    forall img ensures Survives(s.table, evs[..k], img) <==> Survives(Unlink(s, l[id], id).table, rest[..k - 2], img) {
      SurvivesAfterSync(s.table, free, rest[..k - 2], img);
    }
  }

  lemma KilledQuiet(s: State, l: Layout, op: Op, k: nat, kept: Table)
    requires Inv(s, l) && s.durable && SmallGrowth(s, l, op) && k <= |Events(s, l, op)|
             && !PendingHead(Events(s, l, op), k)
    requires Survives(s.table, Events(s, l, op)[..k], kept)
    ensures SameRecords(kept, Apply(s.table, Events(s, l, op)[..k]))
  {
    hide Survives, Apply, SameRecords, WritesRecord, SaveDirectoryEvents, FreeExact, TagsExact, PackedAs, SmallSave,
      InsertEvents, UpdateEvents;
    var evs := Events(s, l, op);
    if k == 0 || evs[k - 1] == Sync {
      SyncedSurvives(s.table, evs[..k], kept);
      SameAsSelf(kept);
    } else if Writes(s, l, op) {
      var ids, data, tag := OpWrites(s, l, op);
      RecordQuiet(s.table, l, s.cap, evs, ids, data, tag, k, kept);
    } else {
      RemovalQuiet(s, l, op.id, k, kept);
    }
  }

  lemma RemovalQuiet(s: State, l: Layout, id: nat, k: nat, kept: Table)
    requires Inv(s, l) && s.durable && SmallGrowth(s, l, Remove(id)) && IsRecord(s, id)
    requires 0 < k <= |Events(s, l, Remove(id))| && !PendingHead(Events(s, l, Remove(id)), k)
    requires Events(s, l, Remove(id))[k - 1] != Sync && Survives(s.table, Events(s, l, Remove(id))[..k], kept)
    ensures SameRecords(kept, Apply(s.table, Events(s, l, Remove(id))[..k]))
  {
    AfterFreeing(s, l, id, k);
    hide Inv, Survives, Apply, SameRecords, WritesRecord, SaveDirectoryEvents, SmallSave, Events, Unlink, Without,
      Unsaved;
    var evs := Events(s, l, Remove(id));
    RemovalTail(s, l, id, k);
    RootedDirectory(s, l, id);
    var mid, m := Unlink(s, l[id], id), Without(l, id);
    var ids, data, tag := SaveWrites(mid, m);
    RecordQuiet(mid.table, m, s.cap, evs[2..], ids, data, tag, k - 2, kept);
  }

  lemma AfterFreeing(s: State, l: Layout, id: nat, k: nat)
    requires Inv(s, l) && s.durable && SmallGrowth(s, l, Remove(id)) && IsRecord(s, id)
    requires 0 < k <= |Events(s, l, Remove(id))| && Events(s, l, Remove(id))[k - 1] != Sync
    ensures id in l && s.cap > 0
    ensures k == 1 ==> Events(s, l, Remove(id))[0] == Put(id, FREE_BLOCK) && PendingHead(Events(s, l, Remove(id)), 1)
    ensures k != 1 ==> k > 2 && Rooted(s.roots, id) && SmallSave(Unlink(s, l[id], id))
  {
    hide SaveDirectoryEvents, SmallSave, FreeExact, TagsExact, PackedAs, DirectoryExact;
  }

  /** base, with layout lb, is what is synced below the pending head. */
  ghost predicate Below(s: State, l: Layout, op: Op, k: nat, base: Table, lb: Layout)
    requires Inv(s, l) && 0 < k <= |Events(s, l, op)| && Events(s, l, op)[k - 1].Put?
  {
    var evs := Events(s, l, op);
    var h, x := evs[k - 1].id, evs[k - 1].block;
    && base == Apply(s.table, evs[..k - 1]) && (k == 1 || evs[k - 2] == Sync)
    && Sound(base, lb) && 0 < h <= |base| && !InChain(lb, h)
    && (x.kind == HEAD || (x.kind == FREE && h in lb))
    && Agree(Records(base, lb), Records(s.table, l), h)
    && ((Alike(base, s.table, l) && lb == l) || LeftHalf(s, l, op, base, lb))
  }

  ghost predicate LeftHalf(s: State, l: Layout, op: Op, base: Table, lb: Layout)
    requires Inv(s, l)
  {
    && op.Remove? && IsRecord(s, op.id) && Rooted(s.roots, op.id) && lb == Without(l, op.id)
    && Alike(base, Unlink(s, l[op.id], op.id).table, lb)
  }

  lemma KilledLoud(s: State, l: Layout, op: Op, k: nat) returns (lb: Layout)
    requires Inv(s, l) && s.durable && SmallGrowth(s, l, op)
    requires 0 < k <= |Events(s, l, op)| && PendingHead(Events(s, l, op), k)
    ensures Below(s, l, op, k, Apply(s.table, Events(s, l, op)[..k - 1]), lb)
  {
    hide Apply, WritesRecord, SaveDirectoryEvents, FreeExact, TagsExact, PackedAs, DirectoryExact, SmallSave,
      InsertEvents, UpdateEvents, Records, Below;
    var evs := Events(s, l, op);
    if Writes(s, l, op) {
      lb := l;
      var ids, data, tag := OpWrites(s, l, op);
      RecordLoud(s.table, l, s.cap, evs, ids, data, tag, k);
      RecordPlaces(s.table, l, s.cap, evs, ids, data, tag);
      BelowWrite(s, l, op, k, ids);
    } else {
      lb := RemovalLoud(s, l, op.id, k);
    }
  }

  lemma RecordPlaces(t: Table, l: Layout, cap: nat, evs: seq<Event>, ids: seq<nat>, data: Bytes, tag: nat)
    requires cap > 0 && WritesRecord(t, l, cap, evs, ids, data, tag)
    ensures ids != [] && 0 < ids[0] <= |t| && !InChain(l, ids[0]) && Sound(t, l)
  {
  }

  lemma BelowWrite(s: State, l: Layout, op: Op, k: nat, ids: seq<nat>)
    requires Inv(s, l) && 0 < k <= |Events(s, l, op)| && PendingHead(Events(s, l, op), k)
    requires ids != [] && 0 < ids[0] <= |s.table| && !InChain(l, ids[0])
    requires var base := Apply(s.table, Events(s, l, op)[..k - 1]);
             Sound(base, l) && Records(base, l) == Records(s.table, l) && |s.table| <= |base|
    requires Events(s, l, op)[k - 1].id == ids[0] && Events(s, l, op)[k - 1].block.kind == HEAD
    requires k == 1 || Events(s, l, op)[k - 2] == Sync
    ensures Below(s, l, op, k, Apply(s.table, Events(s, l, op)[..k - 1]), l)
  {
    hide Events, Apply, Records;
  }

  lemma RemovalLoud(s: State, l: Layout, id: nat, k: nat) returns (lb: Layout)
    requires Inv(s, l) && s.durable && SmallGrowth(s, l, Remove(id)) && IsRecord(s, id)
    requires 0 < k <= |Events(s, l, Remove(id))| && PendingHead(Events(s, l, Remove(id)), k)
    ensures Below(s, l, Remove(id), k, Apply(s.table, Events(s, l, Remove(id))[..k - 1]), lb)
  {
    AfterFreeing(s, l, id, k);
    if k == 1 {
      lb := l;
      FreePends(s, l, id);
    } else {
      hide Inv, Apply, WritesRecord, SaveDirectoryEvents, SmallSave, Events, Unlink, Without, Unsaved, Below, Records;
      var evs := Events(s, l, Remove(id));
      lb := Without(l, id);
      RemovalTail(s, l, id, k);
      RemovalTail(s, l, id, k - 1);
      RootedDirectory(s, l, id);
      var mid := Unlink(s, l[id], id);
      var ids, data, tag := SaveWrites(mid, lb);
      assert evs[..k - 1] == FreeEvents(id, true) + evs[2..][..k - 3];
      RecordLoud(mid.table, lb, s.cap, evs[2..], ids, data, tag, k - 2);
      RecordPlaces(mid.table, lb, s.cap, evs[2..], ids, data, tag);
      var base := Apply(s.table, evs[..k - 1]);
      RemovalAgrees(s, l, id, base);
      BelowRemoval(s, l, id, k, base);
    }
  }

  lemma FreePends(s: State, l: Layout, id: nat)
    requires Inv(s, l) && IsRecord(s, id) && 1 <= |Events(s, l, Remove(id))|
    requires Events(s, l, Remove(id))[0] == Put(id, FREE_BLOCK)
    ensures Below(s, l, Remove(id), 1, Apply(s.table, Events(s, l, Remove(id))[..0]), l)
  {
    hide Events, FreeExact, TagsExact, PackedAs, DirectoryExact;
    HeadsAreNotChained(s.table, l, id);
    assert IsHead(s.table, id);
  }

  lemma RemovalAgrees(s: State, l: Layout, id: nat, base: Table)
    requires Inv(s, l) && IsRecord(s, id) && Rooted(s.roots, id)
    requires var mid, lb := Unlink(s, l[id], id), Without(l, id);
             Sound(mid.table, lb) && Sound(base, lb) && Records(base, lb) == Records(mid.table, lb)
    ensures Agree(Records(base, Without(l, id)), Records(s.table, l), s.dirId)
    ensures Alike(base, Unlink(s, l[id], id).table, Without(l, id))
  {
    hide FreeExact, TagsExact, PackedAs, Records, Apply, Directory.Encode;
    RootedDirectory(s, l, id);
    UnlinkKeeps(s, l, id);
  }

  lemma BelowRemoval(s: State, l: Layout, id: nat, k: nat, base: Table)
    requires Inv(s, l) && IsRecord(s, id) && Rooted(s.roots, id) && 2 < k <= |Events(s, l, Remove(id))|
    requires var e := Events(s, l, Remove(id))[k - 1];
             e.Put? && e.block.kind == HEAD && 0 < e.id <= |base| && !InChain(Without(l, id), e.id)
             && Sound(base, Without(l, id)) && Agree(Records(base, Without(l, id)), Records(s.table, l), e.id)
    requires Events(s, l, Remove(id))[k - 2] == Sync && base == Apply(s.table, Events(s, l, Remove(id))[..k - 1])
    requires Alike(base, Unlink(s, l[id], id).table, Without(l, id))
    ensures Below(s, l, Remove(id), k, base, Without(l, id))
  {
    hide Events, Apply, Records, Inv, Unlink, Without, Alike, Agree, Sound;
  }
}
