/** Durable mode: what a crash inside an operation leaves, and whole runs of operations, crashes
    and reopenings. */
module CrashRuns {
  import opened Options
  import opened Codec
  import opened BlockTable
  import opened ChainWrite
  import opened StoreSpec
  import opened Vault
  import opened Reopen
  import Directory

  /** The writes and syncs of one operation, in order. */
  ghost function Events(s: State, l: Layout, op: Op): seq<Event>
    requires Inv(s, l)
  {
    match op
    case Insert(data, tag) => if tag == DIRECTORY_TAG then [] else InsertEvents(s, data, tag)
    case Update(id, data) => if IsRecord(s, id) then UpdateEvents(s, id, data) else []
    case Remove(id) => if IsRecord(s, id) then RemoveEvents(s, l, id) else []
    case SetRoot(name, id) => if IsRecord(s, id) then SaveDirectoryEvents(WithRoot(s, name, id)) else []
    case RemoveRoot(name) => if name in s.roots then SaveDirectoryEvents(WithoutRoot(s, name)) else []
  }

  ghost function RemoveEvents(s: State, l: Layout, id: nat): seq<Event>
    requires Inv(s, l) && IsRecord(s, id)
  {
    FreeEvents(id, s.durable) + if Rooted(s.roots, id) then SaveDirectoryEvents(Unlink(s, l[id], id)) else []
  }

  // ---- How many blocks an operation adds to the file ----------------------------------------

  /** k allocations add at most one block past the end. */
  predicate AddsAtMostOne(s: State, k: nat) {
    k <= |s.free| + 1
  }

  ghost predicate SmallSave(s: State)
    requires s.cap > 0
  {
    var k := |Pieces(Directory.Encode(s.roots), s.cap)|;
    AddsAtMostOne(s, if s.dirId == 0 then k else k - 1)
  }

  ghost predicate SmallGrowth(s: State, l: Layout, op: Op)
    requires Inv(s, l)
  {
    match op
    case Insert(data, tag) => tag == DIRECTORY_TAG || AddsAtMostOne(s, |Pieces(data, s.cap)|)
    case Update(id, data) => !IsRecord(s, id) || AddsAtMostOne(s, |Pieces(data, s.cap)| - 1)
    case Remove(id) => !IsRecord(s, id) || !Rooted(s.roots, id) || SmallSave(Unlink(s, l[id], id))
    case SetRoot(name, id) => !IsRecord(s, id) || SmallSave(WithRoot(s, name, id))
    case RemoveRoot(name) => name !in s.roots || SmallSave(WithoutRoot(s, name))
  }

  // ---- One record write -----------------------------------------------------------------

  /** img holds exactly the records that t holds, in the same blocks. */
  ghost predicate Alike(img: Table, t: Table, l: Layout) {
    Sound(img, l) && Sound(t, l) && Records(img, l) == Records(t, l)
  }

  lemma TakenBounds(s: State, k: nat)
    requires forall i :: 0 <= i < |s.free| ==> 0 < s.free[i] <= s.nblocks
    requires AddsAtMostOne(s, k)
    ensures forall i :: 0 <= i < k ==> Taken(s.free, s.nblocks, k)[i] <= s.nblocks + 1
  {
  }

  lemma InsertCrash(s: State, l: Layout, data: Bytes, tag: nat, img: Table)
    requires Core(s, l) && s.durable && AddsAtMostOne(s, |Pieces(data, s.cap)|)
    requires CrashImage(s.table, InsertEvents(s, data, tag), img)
    ensures var ids := InsertIds(s, data);
            Alike(img, s.table, l) || Alike(img, StoreSpec.Insert(s, data, tag).table, l[ids[0] := ids[1..]])
  {
    hide Apply, CrashImage, Pieces, ChainEvents, Taken, Records;
    var ids := InsertIds(s, data);
    InsertPlaced(s, l, data);
    TakenBounds(s, |Pieces(data, s.cap)|);
    InsertKeeps(s, l, data, tag);
    PiecesFlatten(data, s.cap);
    ChainCrash(s.table, l, ids, Pieces(data, s.cap), tag, img);
  }

  lemma UpdateCrash(s: State, l: Layout, id: nat, data: Bytes, img: Table)
    requires Core(s, l) && id in l && s.durable && AddsAtMostOne(s, |Pieces(data, s.cap)| - 1)
    requires CrashImage(s.table, UpdateEvents(s, id, data), img)
    ensures var ids := UpdateIds(s, id, data);
            Alike(img, s.table, l) || Alike(img, StoreSpec.Update(s, l[id], id, data).table, l[id := ids[1..]])
  {
    hide Apply, CrashImage, Pieces, ChainEvents, Records;
    var ids := UpdateIds(s, id, data);
    UpdatePlaced(s, l, id, data);
    TakenBounds(s, |Pieces(data, s.cap)| - 1);
    UpdateBounds(s, l, id, data);
    UpdateKeeps(s, l, id, data);
    PiecesFlatten(data, s.cap);
    ChainCrash(s.table, l, ids, Pieces(data, s.cap), s.head[id].tag, img);
  }

  lemma UpdateBounds(s: State, l: Layout, id: nat, data: Bytes)
    requires Partition(s, l) && s.cap > 0 && id in l && AddsAtMostOne(s, |Pieces(data, s.cap)| - 1)
    ensures forall i :: 0 <= i < |UpdateIds(s, id, data)| ==> UpdateIds(s, id, data)[i] <= |s.table|
  {
    var ids, k := UpdateIds(s, id, data), |Pieces(data, s.cap)| - 1;
    TakenBounds(s, k);
    assert IsHead(s.table, id);
    forall i | 0 <= i < |ids| ensures ids[i] <= |s.table| {
      if i > 0 { assert ids[i] == Taken(s.free, s.nblocks, k)[i - 1]; }
    }
  }

  lemma SaveCrash(s: State, l: Layout, img: Table)
    requires Unsaved(s, l) && s.durable && SmallSave(s)
    requires CrashImage(s.table, SaveDirectoryEvents(s), img)
    ensures Alike(img, s.table, l) || Alike(img, SaveDirectory(s, l).table, SaveDirectoryLayout(s, l))
  {
    hide CrashImage, Pieces, Records, InsertEvents, UpdateEvents, Directory.Encode;
    var out := Directory.Encode(s.roots);
    if s.dirId == 0 {
      InsertCrash(s, l, out, DIRECTORY_TAG, img);
    } else {
      UpdateCrash(s, l, s.dirId, out, img);
    }
  }

  lemma FreeCrash(s: State, l: Layout, id: nat, img: Table)
    requires Core(s, l) && id in l && s.durable
    requires CrashImage(s.table, FreeEvents(id, true), img)
    ensures Alike(img, s.table, l) || Alike(img, Unlink(s, l[id], id).table, Without(l, id))
  {
    hide CrashImage, Records, Apply;
    OnePutCrash(s.table, id, FREE_BLOCK, img);
    PutApplied(s.table, id, FREE_BLOCK, true);
    FreeCommits(s.table, l, id);
  }

  lemma RemoveCrash(s: State, l: Layout, id: nat, img: Table)
    requires Inv(s, l) && IsRecord(s, id) && s.durable && SmallGrowth(s, l, Remove(id))
    requires CrashImage(s.table, RemoveEvents(s, l, id), img)
    ensures || Alike(img, s.table, l)
            || Alike(img, Exec(s, l, Remove(id)).table, LayoutAfter(s, l, Remove(id)))
            || (Rooted(s.roots, id) && Alike(img, Unlink(s, l[id], id).table, Without(l, id)))
  {
    hide CrashImage, Records, Apply, SaveDirectory, SaveDirectoryLayout, SaveDirectoryEvents, Alike, Readable,
      FreeExact, TagsExact, PackedAs, SmallSave, Directory.Encode;
    var mid, m := Unlink(s, l[id], id), Without(l, id);
    if Rooted(s.roots, id) {
      CrashSplit(s.table, FreeEvents(id, true), SaveDirectoryEvents(mid), img);
      if CrashImage(s.table, FreeEvents(id, true), img) {
        FreeCrash(s, l, id, img);
      } else {
        UnlinkUnsaved(s, l, id);
        SaveCrash(mid, m, img);
      }
    } else {
      assert FreeEvents(id, true) + [] == FreeEvents(id, true);
      FreeCrash(s, l, id, img);
    }
  }

  lemma NoEventsNoCrash(t: Table, img: Table)
    requires CrashImage(t, [], img)
    ensures img == t
  {
    var none: seq<Event> := [];
    var k :| 0 <= k <= |none| && Survives(t, none[..k], img);
    assert none[..k] == none;
  }

  lemma AlikeItself(s: State, l: Layout)
    requires Inv(s, l)
    ensures Alike(s.table, s.table, l)
  {
  }

  lemma RootsCrash(s: State, l: Layout, roots: Directory.Roots, img: Table)
    requires Inv(s, l) && s.durable
    requires var mid := s.(roots := roots); SmallSave(mid) && CrashImage(s.table, SaveDirectoryEvents(mid), img)
    ensures var mid := s.(roots := roots);
            Alike(img, s.table, l) || Alike(img, SaveDirectory(mid, l).table, SaveDirectoryLayout(mid, l))
  {
    hide CrashImage, Records, SaveDirectory, SaveDirectoryLayout, SaveDirectoryEvents, SmallSave;
    RootsChange(s, l, roots);
    SaveCrash(s.(roots := roots), l, img);
  }

  /** img holds the records from before or from after the operation, in their blocks, or what is left
      between the two parts of the removal of a rooted record. */
  ghost predicate LeftAlike(s: State, l: Layout, op: Op, img: Table)
    requires Inv(s, l)
  {
    || Alike(img, s.table, l)
    || Alike(img, Exec(s, l, op).table, LayoutAfter(s, l, op))
    || (op.Remove? && IsRecord(s, op.id) && Rooted(s.roots, op.id)
        && Alike(img, Unlink(s, l[op.id], op.id).table, Without(l, op.id)))
  }

  /** A crash inside an operation leaves its record fully old or fully new and every other record
      alone. Only the removal of a rooted record has a third outcome: removed, root not yet dropped. */
  lemma OpCrash(s: State, l: Layout, op: Op, img: Table)
    requires Inv(s, l) && s.durable && SmallGrowth(s, l, op)
    requires CrashImage(s.table, Events(s, l, op), img)
    ensures LeftAlike(s, l, op, img)
  {
    hide CrashImage, Records, SaveDirectory, SaveDirectoryLayout, SaveDirectoryEvents, SmallSave, Unlink, Without,
      StoreSpec.Insert, StoreSpec.Update, RemoveEvents, RemoveRecord, InsertEvents, UpdateEvents,
      Alike, Pieces, Sound, FreeExact, TagsExact, DirectoryExact;
    if Events(s, l, op) == [] {
      NoEventsNoCrash(s.table, img);
      AlikeItself(s, l);
    } else {
      match op
      case Insert(data, tag) => InsertCrash(s, l, data, tag, img);
      case Update(id, data) => UpdateCrash(s, l, id, data, img);
      case Remove(id) => RemoveCrash(s, l, id, img);
      case SetRoot(name, id) => RootsCrash(s, l, s.roots[name := id], img);
      case RemoveRoot(name) => RootsCrash(s, l, s.roots - {name}, img);
    }
  }

  // ---- Exactly when a crash is survived --------------------------------------------------

  /** No crash inside the operation leaves a file that the scan rejects. */
  ghost predicate EveryCrashScans(s: State, l: Layout, op: Op)
    requires Inv(s, l)
  {
    forall img :: CrashImage(s.table, Events(s, l, op), img) ==> exists m :: Sound(img, m)
  }

  lemma LeftSound(s: State, l: Layout, op: Op, img: Table)
    requires Inv(s, l) && LeftAlike(s, l, op, img)
    ensures exists m :: Sound(img, m)
  {
    hide Exec, LayoutAfter, Unlink, Without, Sound, FreeExact, TagsExact, DirectoryExact, PackedAs;
  }

  lemma TakenTop(s: State, k: nat)
    requires !AddsAtMostOne(s, k)
    ensures k >= 2 && Taken(s.free, s.nblocks, k)[k - 1] > s.nblocks + 1
  {
  }

  lemma InsertGrowsTwo(s: State, l: Layout, data: Bytes, tag: nat) returns (img: Table)
    requires Core(s, l) && !AddsAtMostOne(s, |Pieces(data, s.cap)|)
    ensures CrashImage(s.table, InsertEvents(s, data, tag), img) && forall m :: !Sound(img, m)
  {
    hide CrashImage, Pieces, ChainEvents, Sound, HeadsExact, TagsExact, Packed;
    TakenTop(s, |Pieces(data, s.cap)|);
    img := GrowthByTwoLeavesHole(s.table, InsertIds(s, data), Pieces(data, s.cap), tag, s.durable);
  }

  lemma UpdateGrowsTwo(s: State, l: Layout, id: nat, data: Bytes) returns (img: Table)
    requires Core(s, l) && id in l && !AddsAtMostOne(s, |Pieces(data, s.cap)| - 1)
    ensures CrashImage(s.table, UpdateEvents(s, id, data), img) && forall m :: !Sound(img, m)
  {
    hide CrashImage, Pieces, ChainEvents, Sound, TagsExact, Packed;
    var k := |Pieces(data, s.cap)| - 1;
    TakenTop(s, k);
    assert UpdateIds(s, id, data)[k] == Taken(s.free, s.nblocks, k)[k - 1];
    img := GrowthByTwoLeavesHole(s.table, UpdateIds(s, id, data), Pieces(data, s.cap), s.head[id].tag, s.durable);
  }

  lemma SaveGrowsTwo(s: State, l: Layout) returns (img: Table)
    requires Unsaved(s, l) && !SmallSave(s)
    ensures CrashImage(s.table, SaveDirectoryEvents(s), img) && forall m :: !Sound(img, m)
  {
    hide CrashImage, Pieces, Records, InsertEvents, UpdateEvents, Directory.Encode, Sound;
    var out := Directory.Encode(s.roots);
    if s.dirId == 0 {
      img := InsertGrowsTwo(s, l, out, DIRECTORY_TAG);
    } else {
      img := UpdateGrowsTwo(s, l, s.dirId, out);
    }
  }

  lemma RemoveGrowsTwo(s: State, l: Layout, id: nat) returns (img: Table)
    requires Inv(s, l) && IsRecord(s, id) && s.durable && !SmallGrowth(s, l, Remove(id))
    ensures CrashImage(s.table, RemoveEvents(s, l, id), img) && forall m :: !Sound(img, m)
  {
    hide CrashImage, Records, Apply, SaveDirectoryEvents, Sound, FreeExact, TagsExact, PackedAs, SmallSave,
      Directory.Encode;
    UnlinkUnsaved(s, l, id);
    img := SaveGrowsTwo(Unlink(s, l[id], id), Without(l, id));
    CrashSplit(s.table, FreeEvents(id, true), SaveDirectoryEvents(Unlink(s, l[id], id)), img);
  }

  lemma GrowsTwo(s: State, l: Layout, op: Op) returns (img: Table)
    requires Inv(s, l) && s.durable && !SmallGrowth(s, l, op)
    ensures CrashImage(s.table, Events(s, l, op), img) && forall m :: !Sound(img, m)
  {
    hide CrashImage, Records, SaveDirectoryEvents, SmallSave, RemoveEvents, InsertEvents, UpdateEvents, Pieces, Sound,
      FreeExact, TagsExact;
    match op
    case Insert(data, tag) => img := InsertGrowsTwo(s, l, data, tag);
    case Update(id, data) => img := UpdateGrowsTwo(s, l, id, data);
    case Remove(id) => img := RemoveGrowsTwo(s, l, id);
    case SetRoot(name, id) =>
      RootsChange(s, l, s.roots[name := id]);
      img := SaveGrowsTwo(WithRoot(s, name, id), l);
    case RemoveRoot(name) =>
      RootsChange(s, l, s.roots - {name});
      img := SaveGrowsTwo(WithoutRoot(s, name), l);
  }

  /** In durable mode every crash inside an operation leaves a file that the scan accepts, and with
      root names and counts in their widths one that opens, if and only if the operation adds at most
      one block past the end of the file in each record it writes. */
  lemma CrashSafeExactly(s: State, l: Layout, op: Op)
    requires Inv(s, l) && s.durable
    ensures EveryCrashScans(s, l, op) <==> SmallGrowth(s, l, op)
    ensures FitsThrough(s, l, op) ==> (EveryCrashOpens(s, l, op) <==> SmallGrowth(s, l, op))
  {
    hide CrashImage, Events, SmallGrowth, Records, Exec, LayoutAfter, Unlink, Without, Sound, FitsThrough, Inv, Opens;
    if SmallGrowth(s, l, op) {
      forall img | CrashImage(s.table, Events(s, l, op), img) ensures exists m :: Sound(img, m) {
        OpCrash(s, l, op, img);
        LeftSound(s, l, op, img);
      }
      if FitsThrough(s, l, op) {
        forall img | CrashImage(s.table, Events(s, l, op), img)
          ensures exists s', l' :: Opens(img, s.cap, s.durable, s', l')
        {
          CrashThenReopen(s, l, op, img);
        }
      }
    } else {
      var img := GrowsTwo(s, l, op);
      OpensSound(img, s.cap, s.durable);
    }
  }

  // ---- Crash and reopen ------------------------------------------------------------------

  /** Opening file t gives state s with layout l. */
  ghost predicate Opens(t: Table, cap: nat, durable: bool, s: State, l: Layout) {
    && Sound(t, l) && Indexed(Scanned(t, l, cap, durable), l)
    && Loaded(Scanned(t, l, cap, durable), l) == Some(s)
  }

  lemma OpensSound(t: Table, cap: nat, durable: bool)
    ensures forall s, l :: Opens(t, cap, durable, s, l) ==> Sound(t, l)
  {
  }

  /** No crash inside the operation leaves a file that fails to open. */
  ghost predicate EveryCrashOpens(s: State, l: Layout, op: Op)
    requires Inv(s, l)
  {
    forall img :: CrashImage(s.table, Events(s, l, op), img) ==>
      exists s', l' :: Opens(img, s.cap, s.durable, s', l')
  }

  /** Before and after the operation the roots keep to the widths of the directory's fields. */
  ghost predicate FitsThrough(s: State, l: Layout, op: Op)
    requires Inv(s, l)
  {
    Directory.Fits(s.roots) && Directory.Fits(Exec(s, l, op).roots)
  }

  lemma OpensAs(t: Table, l: Layout, cap: nat, durable: bool, dirId: nat, v: Vault, s': State, l': Layout)
    requires Sound(t, l) && Carries(Records(t, l), l, cap, dirId, v) && Directory.Fits(v.roots)
    requires Opens(t, cap, durable, s', l')
    ensures Inv(s', l') && View(s', l') == v && s'.roots == v.roots && s'.durable == durable && s'.cap == cap
  {
    hide Carries, Scanned, Loaded, Records, Core, Sound;
    LayoutUnique(t, l, l');
    OpenCarried(t, l, cap, durable, dirId, v);
    ScannedMode(t, l, cap, durable);
  }

  lemma ScannedMode(t: Table, l: Layout, cap: nat, durable: bool)
    requires Sound(t, l)
    ensures Scanned(t, l, cap, durable).cap == cap && Scanned(t, l, cap, durable).durable == durable
  {
  }

  /** An image like a store's own file opens to the vault that store stands for. */
  lemma AlikeOpens(img: Table, s: State, l: Layout, dirId: nat, v: Vault, s': State, l': Layout)
    requires Alike(img, s.table, l) && Carries(Records(s.table, l), l, s.cap, dirId, v) && Directory.Fits(v.roots)
    requires Opens(img, s.cap, s.durable, s', l')
    ensures Inv(s', l') && View(s', l') == v && s'.roots == v.roots && s'.durable == s.durable && s'.cap == s.cap
  {
    hide Opens, Carries, Records, Sound;
    OpensAs(img, l, s.cap, s.durable, dirId, v, s', l');
  }

  lemma AlikeCanOpen(img: Table, t: Table, l: Layout, cap: nat, durable: bool, dirId: nat, v: Vault)
    requires Alike(img, t, l) && Carries(Records(t, l), l, cap, dirId, v) && Directory.Fits(v.roots)
    ensures exists s', l' :: Opens(img, cap, durable, s', l')
  {
    hide Carries, Records, Sound, Scanned, Loaded, Indexed;
    OpenCarried(img, l, cap, durable, dirId, v);
    ScannedIndexed(img, l, cap, durable);
    OpensHere(img, l, cap, durable, Scanned(img, l, cap, durable).(dirId := dirId, roots := v.roots));
  }

  /** The vault between the two parts of the removal of a rooted record. */
  ghost function HalfRemoved(v: Vault, id: nat): Vault {
    v.(records := v.records - {id})
  }

  lemma UnlinkCarries(s: State, l: Layout, id: nat)
    requires Inv(s, l) && IsRecord(s, id)
    ensures Sound(Unlink(s, l[id], id).table, Without(l, id))
    ensures Carries(Records(Unlink(s, l[id], id).table, Without(l, id)), Without(l, id), s.cap, s.dirId,
                    HalfRemoved(View(s, l), id))
  {
    hide Directory.Encode, FreeExact, TagsExact, Apply, Records;
    UnlinkKeeps(s, l, id);
    InvCarries(s, l);
    TakeElsewhere(Records(s.table, l), id, s.dirId);
  }

  lemma OldOpens(s: State, l: Layout, img: Table, s': State, l': Layout)
    requires Inv(s, l) && Directory.Fits(s.roots)
    requires Alike(img, s.table, l) && Opens(img, s.cap, s.durable, s', l')
    ensures Inv(s', l') && View(s', l') == View(s, l)
    ensures s'.roots == s.roots && s'.durable == s.durable && s'.cap == s.cap
  {
    hide Alike, Opens, Carries, Records, DirectoryExact;
    InvCarries(s, l);
    AlikeOpens(img, s, l, s.dirId, View(s, l), s', l');
  }

  lemma HalfOpens(s: State, l: Layout, id: nat, img: Table, s': State, l': Layout)
    requires Inv(s, l) && IsRecord(s, id) && Directory.Fits(s.roots)
    requires Alike(img, Unlink(s, l[id], id).table, Without(l, id)) && Opens(img, s.cap, s.durable, s', l')
    ensures Inv(s', l') && View(s', l') == HalfRemoved(View(s, l), id)
    ensures s'.roots == s.roots && s'.durable == s.durable && s'.cap == s.cap
  {
    hide Alike, Opens, Carries, Records, DirectoryExact, Apply;
    UnlinkCarries(s, l, id);
    AlikeOpens(img, Unlink(s, l[id], id), Without(l, id), s.dirId, HalfRemoved(View(s, l), id), s', l');
  }

  /** Such a file opens. */
  lemma LeftOpens(s: State, l: Layout, op: Op, img: Table)
    requires Inv(s, l) && FitsThrough(s, l, op) && LeftAlike(s, l, op, img)
    ensures exists s', l' :: Opens(img, s.cap, s.durable, s', l')
  {
    hide Alike, Opens, CrashImage, Events, SmallGrowth, Exec, LayoutAfter, Records, Unlink, Without,
      DirectoryExact, HalfRemoved, FreeExact, TagsExact, View, Carries;
    ViewRoots(s, l);
    if Alike(img, s.table, l) {
      InvCarries(s, l);
      AlikeCanOpen(img, s.table, l, s.cap, s.durable, s.dirId, View(s, l));
    } else if Alike(img, Exec(s, l, op).table, LayoutAfter(s, l, op)) {
      ExecInv(s, l, op);
      ExecMode(s, l, op);
      var after, m := Exec(s, l, op), LayoutAfter(s, l, op);
      InvCarries(after, m);
      ViewRoots(after, m);
      AlikeCanOpen(img, after.table, m, s.cap, s.durable, after.dirId, View(after, m));
    } else {
      UnlinkCarries(s, l, op.id);
      HalfRemovedRoots(View(s, l), op.id);
      AlikeCanOpen(img, Unlink(s, l[op.id], op.id).table, Without(l, op.id), s.cap, s.durable, s.dirId,
                   HalfRemoved(View(s, l), op.id));
    }
  }

  /** Any crash inside an operation, then reopening: the file opens, and the vault is as before or as
      after the operation, or, for a rooted record, without the record but still with its root. */
  lemma CrashThenReopen(s: State, l: Layout, op: Op, img: Table)
    requires Inv(s, l) && s.durable && SmallGrowth(s, l, op) && FitsThrough(s, l, op)
    requires CrashImage(s.table, Events(s, l, op), img)
    ensures exists s', l' :: Opens(img, s.cap, s.durable, s', l')
    ensures forall s', l' :: Opens(img, s.cap, s.durable, s', l') ==> ReopenedAs(s, l, op, s', l')
  {
    hide Opens, CrashImage, Events, SmallGrowth, FitsThrough, ReopenedAs, Inv, LeftAlike;
    OpCrash(s, l, op, img);
    LeftThenReopen(s, l, op, img);
  }

  lemma LeftThenReopen(s: State, l: Layout, op: Op, img: Table)
    requires Inv(s, l) && FitsThrough(s, l, op) && LeftAlike(s, l, op, img)
    ensures exists s', l' :: Opens(img, s.cap, s.durable, s', l')
    ensures forall s', l' :: Opens(img, s.cap, s.durable, s', l') ==> ReopenedAs(s, l, op, s', l')
  {
    hide Opens, FitsThrough, ReopenedAs, Inv, LeftAlike;
    LeftOpens(s, l, op, img);
    forall s', l' | Opens(img, s.cap, s.durable, s', l') ensures ReopenedAs(s, l, op, s', l') {
      LeftReopensAs(s, l, op, img, s', l');
    }
  }

  /** The reopened store is exact, and its vault is the old, the new or the half-removed one. */
  ghost predicate ReopenedAs(s: State, l: Layout, op: Op, s': State, l': Layout)
    requires Inv(s, l)
  {
    && Inv(s', l') && Directory.Fits(s'.roots) && s'.durable == s.durable && s'.cap == s.cap
    && (OldOrNew(s, l, op, View(s', l'))
        || (HalfRemoves(s, l, op) && View(s', l') == HalfRemoved(View(s, l), op.id)))
  }

  ghost predicate OldOrNew(s: State, l: Layout, op: Op, v: Vault)
    requires Inv(s, l)
  {
    v == View(s, l) || Step(View(s, l), op, NewId(s, op), v)
  }

  /** The guard of the one operation that is not atomic: removing a record that a root names. */
  ghost predicate HalfRemoves(s: State, l: Layout, op: Op)
    requires Inv(s, l)
  {
    op.Remove? && op.id in View(s, l).records && Rooted(View(s, l).roots, op.id)
  }

  lemma LeftReopensAs(s: State, l: Layout, op: Op, img: Table, s': State, l': Layout)
    requires Inv(s, l) && FitsThrough(s, l, op) && LeftAlike(s, l, op, img)
    requires Opens(img, s.cap, s.durable, s', l')
    ensures ReopenedAs(s, l, op, s', l')
  {
    hide Alike, Opens, CrashImage, Events, SmallGrowth, Exec, LayoutAfter, Step, Records,
      Unlink, Without, DirectoryExact, HalfRemoved, FreeExact, TagsExact, View;
    if Alike(img, s.table, l) {
      OldOpens(s, l, img, s', l');
    } else if Alike(img, Exec(s, l, op).table, LayoutAfter(s, l, op)) {
      ExecInv(s, l, op);
      ExecRefines(s, l, op);
      ExecMode(s, l, op);
      OldOpens(Exec(s, l, op), LayoutAfter(s, l, op), img, s', l');
    } else {
      ViewKeys(s, l, op.id);
      ViewRoots(s, l);
      HalfOpens(s, l, op.id, img, s', l');
    }
  }

  lemma ViewRoots(s: State, l: Layout)
    requires Inv(s, l)
    ensures View(s, l).roots == s.roots
  {
  }

  // ---- Exactly which operations are atomic ---------------------------------------------------

  /** Every crash inside the operation opens, to the old vault or to the new one. */
  ghost predicate CrashAtomic(s: State, l: Layout, op: Op)
    requires Inv(s, l)
  {
    forall img :: CrashImage(s.table, Events(s, l, op), img) ==>
      && (exists s', l' :: Opens(img, s.cap, s.durable, s', l'))
      && (forall s', l' :: Opens(img, s.cap, s.durable, s', l') ==> Inv(s', l') && OldOrNew(s, l, op, View(s', l')))
  }

  lemma CompletedImage(t: Table, evs: seq<Event>)
    ensures CrashImage(t, evs, Apply(t, evs))
  {
    CompleteSurvives(t, evs);
    assert evs[..|evs|] == evs;
  }

  /** A crash between the two parts of the removal of a rooted record. */
  lemma HalfRemovedImage(s: State, l: Layout, id: nat)
    requires Inv(s, l) && IsRecord(s, id) && s.durable && Rooted(s.roots, id)
    ensures CrashImage(s.table, Events(s, l, Remove(id)), Unlink(s, l[id], id).table)
  {
    hide CrashImage, SaveDirectoryEvents, FreeExact, TagsExact, PackedAs, Apply, Directory.Encode;
    var mid := Unlink(s, l[id], id);
    UnlinkUnsaved(s, l, id);
    CompletedImage(s.table, FreeEvents(id, true));
    CrashSplit(s.table, FreeEvents(id, true), SaveDirectoryEvents(mid), mid.table);
  }

  lemma HalfRemovedDiffers(s: State, l: Layout, id: nat)
    requires Inv(s, l) && HalfRemoves(s, l, Remove(id))
    ensures !OldOrNew(s, l, Remove(id), HalfRemoved(View(s, l), id))
  {
    hide FreeExact, TagsExact, DirectoryExact, PackedAs, Records;
    var v := View(s, l);
    assert id in v.records && id !in HalfRemoved(v, id).records;
    var n :| n in v.roots && v.roots[n] == id;
    assert n in HalfRemoved(v, id).roots && n !in DropRoots(v.roots, id);
  }

  /** That crash does happen, it opens, and it leaves the root without its record. */
  lemma HalfRemovedOpens(s: State, l: Layout, id: nat) returns (img: Table, s': State, m: Layout)
    requires Inv(s, l) && s.durable && Directory.Fits(s.roots) && HalfRemoves(s, l, Remove(id))
    ensures CrashImage(s.table, Events(s, l, Remove(id)), img)
    ensures Opens(img, s.cap, s.durable, s', m) && Inv(s', m) && View(s', m) == HalfRemoved(View(s, l), id)
    ensures m == Without(l, id) && s'.nblocks == TrimTo(m, s.nblocks) && s'.free == FreeBelow(m, s'.nblocks)
  {
    hide CrashImage, Events, Carries, Records, Sound, Opens, Loaded, Step, HalfRemoved, FreeBelow, TrimTo,
      DirectoryExact, FreeExact, TagsExact, PackedAs, DropRoots;
    ViewKeys(s, l, id);
    ViewRoots(s, l);
    HalfRemovedImage(s, l, id);
    UnlinkCarries(s, l, id);
    m := Without(l, id);
    img := Unlink(s, l[id], id).table;
    var v := HalfRemoved(View(s, l), id);
    HalfRemovedRoots(View(s, l), id);
    OpenCarried(img, m, s.cap, s.durable, s.dirId, v);
    ScannedIndexed(img, m, s.cap, s.durable);
    s' := Scanned(img, m, s.cap, s.durable).(dirId := s.dirId, roots := v.roots);
    OpensHere(img, m, s.cap, s.durable, s');
    UnlinkLength(s, l, id);
  }

  lemma HalfRemovedRoots(v: Vault, id: nat)
    ensures HalfRemoved(v, id).roots == v.roots
  {
  }

  lemma OpensHere(t: Table, l: Layout, cap: nat, durable: bool, s: State)
    requires Sound(t, l) && Indexed(Scanned(t, l, cap, durable), l)
    requires Loaded(Scanned(t, l, cap, durable), l) == Some(s)
    ensures Opens(t, cap, durable, s, l)
  {
  }

  lemma UnlinkLength(s: State, l: Layout, id: nat)
    requires Inv(s, l) && IsRecord(s, id)
    ensures |Unlink(s, l[id], id).table| == |s.table| == s.nblocks + 1
  {
    assert IsHead(s.table, id);
    PutApplied(s.table, id, FREE_BLOCK, s.durable);
  }

  /** In durable mode, with small growth, an operation is atomic under every crash if and only if it is
      not the removal of a record that a root names. */
  lemma CrashAtomicExactly(s: State, l: Layout, op: Op)
    requires Inv(s, l) && s.durable && SmallGrowth(s, l, op) && FitsThrough(s, l, op)
    ensures CrashAtomic(s, l, op) <==> !HalfRemoves(s, l, op)
  {
    hide CrashImage, Events, SmallGrowth, Opens, Exec, OldOrNew, View, FreeExact, TagsExact, DirectoryExact, PackedAs;
    if HalfRemoves(s, l, op) {
      var img, s', m := HalfRemovedOpens(s, l, op.id);
      HalfRemovedDiffers(s, l, op.id);
    } else {
      forall img | CrashImage(s.table, Events(s, l, op), img)
        ensures exists s', l' :: Opens(img, s.cap, s.durable, s', l')
        ensures forall s', l' :: Opens(img, s.cap, s.durable, s', l') ==>
                  Inv(s', l') && OldOrNew(s, l, op, View(s', l'))
      {
        CrashThenReopen(s, l, op, img);
      }
    }
  }

  lemma ExecMode(s: State, l: Layout, op: Op)
    requires Inv(s, l)
    ensures Exec(s, l, op).cap == s.cap && Exec(s, l, op).durable == s.durable
  {
    hide Inv, Apply, Pieces, Taken, Directory.Encode, LayoutAfter, DropRoots, InsertEvents, UpdateEvents, FreeEvents;
  }

  // ---- After an operation -------------------------------------------------------------------

  lemma ChainSynced(ids: seq<nat>, pieces: seq<Bytes>, tag: nat)
    requires 0 < |ids| == |pieces|
    ensures var evs := ChainEvents(ids, pieces, tag, true); evs != [] && evs[|evs| - 1] == Sync
  {
  }

  lemma SaveSynced(s: State)
    requires s.cap > 0 && s.durable && (s.dirId != 0 ==> s.dirId in s.head)
    ensures var evs := SaveDirectoryEvents(s); evs != [] && evs[|evs| - 1] == Sync
  {
    hide ChainEvents, Pieces, Directory.Encode, Taken;
    var out := Directory.Encode(s.roots);
    if s.dirId == 0 {
      ChainSynced(InsertIds(s, out), Pieces(out, s.cap), DIRECTORY_TAG);
    } else {
      ChainSynced(UpdateIds(s, s.dirId, out), Pieces(out, s.cap), s.head[s.dirId].tag);
    }
  }

  /** A durable operation leaves nothing unsynced. */
  lemma EndsSynced(s: State, l: Layout, op: Op)
    requires Inv(s, l) && s.durable
    ensures var evs := Events(s, l, op); evs == [] || evs[|evs| - 1] == Sync
  {
    hide ChainEvents, Pieces, Directory.Encode, Taken, SaveDirectoryEvents, FreeExact, TagsExact, PackedAs, Apply;
    match op
    case Insert(data, tag) => ChainSynced(InsertIds(s, data), Pieces(data, s.cap), tag);
    case Update(id, data) =>
      if IsRecord(s, id) { ChainSynced(UpdateIds(s, id, data), Pieces(data, s.cap), s.head[id].tag); }
    case Remove(id) =>
      if IsRecord(s, id) && Rooted(s.roots, id) {
        UnlinkUnsaved(s, l, id);
        SaveSynced(Unlink(s, l[id], id));
      }
    case SetRoot(name, id) => SaveSynced(WithRoot(s, name, id));
    case RemoveRoot(name) => SaveSynced(WithoutRoot(s, name));
  }

  /** The writes of an operation make the table that it leaves. */
  lemma EventsMake(s: State, l: Layout, op: Op)
    requires Inv(s, l)
    ensures Apply(s.table, Events(s, l, op)) == Exec(s, l, op).table
  {
    hide ChainEvents, Pieces, Directory.Encode, Taken, FreeExact, TagsExact, PackedAs;
    if op.Remove? && IsRecord(s, op.id) {
      hide Apply;
      RemovalMakes(s, l, op.id);
    }
  }

  lemma SaveMakes(s: State, l: Layout)
    requires s.cap > 0 && (s.dirId != 0 ==> s.dirId in s.head)
    ensures SaveDirectory(s, l).table == Apply(s.table, SaveDirectoryEvents(s))
  {
    hide ChainEvents, Pieces, Directory.Encode, Taken, Apply;
  }

  lemma RemovalMakes(s: State, l: Layout, id: nat)
    requires Inv(s, l) && IsRecord(s, id)
    ensures Apply(s.table, RemoveEvents(s, l, id)) == RemoveRecord(s, l, id).table
  {
    hide ChainEvents, Pieces, Directory.Encode, Taken, FreeExact, TagsExact, PackedAs, Apply,
      SaveDirectory, SaveDirectoryEvents;
    if Rooted(s.roots, id) {
      UnlinkUnsaved(s, l, id);
      SaveMakes(Unlink(s, l[id], id), Without(l, id));
      ApplyConcat(s.table, FreeEvents(id, s.durable), SaveDirectoryEvents(Unlink(s, l[id], id)));
    } else {
      assert FreeEvents(id, s.durable) + [] == FreeEvents(id, s.durable);
    }
  }

  /** What a completed durable operation wrote survives every power failure. */
  lemma CompletedSurvives(s: State, l: Layout, op: Op, img: Table)
    requires Inv(s, l) && s.durable && Survives(s.table, Events(s, l, op), img)
    ensures img == Exec(s, l, op).table
  {
    hide Events, Exec, Core, DirectoryExact, Apply;
    EndsSynced(s, l, op);
    EventsMake(s, l, op);
    SyncedSurvives(s.table, Events(s, l, op), img);
  }

  // ---- Whole runs ----------------------------------------------------------------------

  datatype Happening = Completed(op: Op) | Crashed(op: Op) | Reopened

  /** One thing that happens to a durable store: an operation completes, or a crash inside it is
      followed by a reopening, or the store is closed and reopened. */
  ghost predicate Happens(s: State, l: Layout, e: Happening, s': State, l': Layout)
    requires Inv(s, l)
  {
    match e
    case Completed(op) => s' == Exec(s, l, op) && l' == LayoutAfter(s, l, op)
    case Crashed(op) =>
      SmallGrowth(s, l, op)
      && exists img :: CrashImage(s.table, Events(s, l, op), img) && Opens(img, s.cap, s.durable, s', l')
    case Reopened => Opens(s.table, s.cap, s.durable, s', l')
  }

  /** The same for the plain map. */
  ghost predicate Allowed(v: Vault, e: Happening, v': Vault) {
    match e
    case Completed(op) => exists id :: Step(v, op, id, v')
    case Crashed(op) =>
      || v' == v
      || (exists id :: Step(v, op, id, v'))
      || (op.Remove? && (exists n :: n in v.roots && v.roots[n] == op.id) && v' == HalfRemoved(v, op.id))
    case Reopened => v' == v
  }

  /** Every root name, count and id keeps to the width of its field. */
  ghost predicate RootsFit(s: State, l: Layout, e: Happening)
    requires Inv(s, l)
  {
    Directory.Fits(s.roots) && (e.Reopened? || Directory.Fits(Exec(s, l, e.op).roots))
  }

  lemma HappeningAllowed(s: State, l: Layout, e: Happening, s': State, l': Layout)
    requires Inv(s, l) && s.durable && RootsFit(s, l, e) && Happens(s, l, e, s', l')
    ensures Inv(s', l') && s'.durable && Directory.Fits(s'.roots)
    ensures Allowed(View(s, l), e, View(s', l'))
  {
    hide Alike, LeftAlike, Opens, CrashImage, Events, SmallGrowth, Exec, LayoutAfter, Step, Records,
      DirectoryExact, HalfRemoved, FreeExact, TagsExact;
    match e
    case Completed(op) =>
      ExecInv(s, l, op);
      ExecRefines(s, l, op);
      ExecMode(s, l, op);
    case Crashed(op) =>
      var img :| CrashImage(s.table, Events(s, l, op), img) && Opens(img, s.cap, s.durable, s', l');
      OpCrash(s, l, op, img);
      LeftReopensAs(s, l, op, img, s', l');
    case Reopened =>
      AlikeItself(s, l);
      OldOpens(s, l, s.table, s', l');
  }

  /** Every kind of event that the guards allow has an outcome, from every exact store. */
  lemma HappeningPossible(s: State, l: Layout, e: Happening)
    requires Inv(s, l) && s.durable && RootsFit(s, l, e)
    requires e.Crashed? ==> SmallGrowth(s, l, e.op)
    ensures exists s', l' :: Happens(s, l, e, s', l')
  {
    hide CrashImage, Opens, Events, SmallGrowth, Exec, LayoutAfter, FreeExact, TagsExact, HeadsExact, DirectoryExact,
      PackedAs, Records, ReopenedAs;
    match e
    case Completed(op) =>
      assert Happens(s, l, e, Exec(s, l, op), LayoutAfter(s, l, op));
    case Crashed(op) =>
      CompletedImage(s.table, Events(s, l, op));
      var img := Apply(s.table, Events(s, l, op));
      CrashThenReopen(s, l, op, img);
      var s', l' :| Opens(img, s.cap, s.durable, s', l');
      assert Happens(s, l, e, s', l');
    case Reopened =>
      CanReopen(s, l);
      var s', l' :| Opens(s.table, s.cap, s.durable, s', l');
      assert Happens(s, l, e, s', l');
  }

  lemma CanReopen(s: State, l: Layout)
    requires Inv(s, l) && Directory.Fits(s.roots)
    ensures exists s', l' :: Opens(s.table, s.cap, s.durable, s', l')
  {
    hide Opens, View, Carries, Records, FreeExact, TagsExact, DirectoryExact, PackedAs;
    AlikeItself(s, l);
    InvCarries(s, l);
    ViewRoots(s, l);
    AlikeCanOpen(s.table, s.table, l, s.cap, s.durable, s.dirId, View(s, l));
  }

  /** A run of the store: its states from first to last. */
  ghost predicate History(ss: seq<(State, Layout)>, es: seq<Happening>) {
    && |ss| == |es| + 1
    && forall i :: 0 <= i < |es| ==> Succeeds(ss[i], es[i], ss[i + 1])
  }

  ghost predicate Succeeds(before: (State, Layout), e: Happening, after: (State, Layout)) {
    Inv(before.0, before.1) ==>
      RootsFit(before.0, before.1, e) && Happens(before.0, before.1, e, after.0, after.1)
  }

  /** Over every run of operations, crashes and reopenings the store stays exact, and each
      happening does to the plain map only what it is allowed to. */
  lemma {:induction false} HistoryIsSafe(ss: seq<(State, Layout)>, es: seq<Happening>, k: nat)
    requires History(ss, es) && Inv(ss[0].0, ss[0].1) && ss[0].0.durable
    requires k <= |es|
    ensures Inv(ss[k].0, ss[k].1) && ss[k].0.durable
    ensures k > 0 ==>
      Inv(ss[k - 1].0, ss[k - 1].1)
      && Allowed(View(ss[k - 1].0, ss[k - 1].1), es[k - 1], View(ss[k].0, ss[k].1))
  {
    hide Happens, Allowed, Core, DirectoryExact;
    if k > 0 {
      HistoryIsSafe(ss, es, k - 1);
      assert Succeeds(ss[k - 1], es[k - 1], ss[k - 1 + 1]);
      HappeningAllowed(ss[k - 1].0, ss[k - 1].1, es[k - 1], ss[k].0, ss[k].1);
    }
  }

  ghost predicate Spares(e: Happening, id: nat) {
    e.Reopened? || !Touches(e.op, id)
  }

  /** A record that no operation updates or removes survives every crash with its bytes intact. */
  lemma {:induction false} RecordSurvives(ss: seq<(State, Layout)>, es: seq<Happening>, id: nat, k: nat)
    requires History(ss, es) && Inv(ss[0].0, ss[0].1) && ss[0].0.durable
    requires k <= |es| && forall i :: 0 <= i < k ==> Spares(es[i], id)
    requires id in View(ss[0].0, ss[0].1).records
    ensures Inv(ss[k].0, ss[k].1)
    ensures id in View(ss[k].0, ss[k].1).records
    ensures View(ss[k].0, ss[k].1).records[id] == View(ss[0].0, ss[0].1).records[id]
  {
    hide Succeeds, HeadsExact, FreeExact, TagsExact, PackedAs, DirectoryExact, Allowed, View, Spares;
    HistoryIsSafe(ss, es, k);
    if k > 0 {
      RecordSurvives(ss, es, id, k - 1);
      var before, after := ss[k - 1], ss[k];
      AllowedSpares(View(before.0, before.1), es[k - 1], View(after.0, after.1), id);
    }
  }

  lemma AllowedSpares(v: Vault, e: Happening, v': Vault, id: nat)
    requires Allowed(v, e, v') && Spares(e, id) && id in v.records
    ensures id in v'.records && v'.records[id] == v.records[id]
  {
  }
}
