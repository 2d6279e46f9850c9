/** What happens when an operation is cut off but its writes stay in the system's cache, as when the
    process is killed or a write throws: the store is reopened on them and written again, and only
    then the power fails. */
module KilledRuns {
  import opened Codec
  import opened BlockTable
  import opened ChainWrite
  import opened StoreSpec
  import opened Vault
  import opened Reopen
  import opened CrashRuns
  import opened LostHeads
  import opened PendingWrites
  import Directory

  // ---- A killed operation, a reopening, another operation ----------------------------------------

  /** The first k writes and syncs of op reached the cache, and opening the file as the cache shows it gave
      s1. */
  ghost predicate Killed(s: State, l: Layout, op: Op, k: nat, s1: State, l1: Layout) {
    && Inv(s, l) && s.durable && SmallGrowth(s, l, op) && FitsThrough(s, l, op) && k <= |Events(s, l, op)|
    && Opens(Apply(s.table, Events(s, l, op)[..k]), s.cap, s.durable, s1, l1)
  }

  lemma PrefixImage(t: Table, evs: seq<Event>, k: nat)
    requires k <= |evs|
    ensures CrashImage(t, evs, Apply(t, evs[..k]))
  {
    CompleteSurvives(t, evs[..k]);
  }

  /** As long as the cache survives, a killed operation is a crash like any other. */
  lemma KilledIsCrash(s: State, l: Layout, op: Op, k: nat, s1: State, l1: Layout)
    requires Killed(s, l, op, k, s1, l1)
    ensures CrashImage(s.table, Events(s, l, op), Apply(s.table, Events(s, l, op)[..k])) && ReopenedAs(s, l, op, s1, l1)
    ensures Inv(s1, l1) && s1.durable
  {
    hide CrashImage, Events, Opens, SmallGrowth, FitsThrough, Inv;
    PrefixImage(s.table, Events(s, l, op), k);
    CrashThenReopen(s, l, op, Apply(s.table, Events(s, l, op)[..k]));
  }

  /** What the reopened store writes before its first sync; sync says that it is synced beforehand. */
  ghost function Unsynced(s: State, l: Layout, next: Op, sync: bool): seq<Event>
    requires Inv(s, l)
  {
    if sync then [] else FirstSegment(Events(s, l, next))
  }

  /** A power failure during the next operation. Up to the first sync, any of the killed operation's pending
      writes and any of the new ones may be lost, while the cut that the reopening made is kept; from then
      on it is a crash of the reopened store. */
  ghost predicate LateImage(s: State, l: Layout, op: Op, k: nat, s1: State, l1: Layout, next: Op, sync: bool,
                            img: Table)
    requires Inv(s, l) && Inv(s1, l1) && k <= |Events(s, l, op)|
  {
    || CrashImage(s1.table, Events(s1, l1, next), img)
    || exists kept, j: nat :: EarlyImage(s, l, op, k, s1, Unsynced(s1, l1, next, sync), kept, j, img)
  }

  ghost predicate EarlyImage(s: State, l: Layout, op: Op, k: nat, s1: State, seg: seq<Event>, kept: Table, j: nat,
                             img: Table)
    requires Inv(s, l) && k <= |Events(s, l, op)|
  {
    && j <= |seg| && Survives(s.table, Events(s, l, op)[..k], kept)
    && Survives(Cut(kept, |s1.table|), seg[..j], img)
  }

  ghost function RunVersions(s: State, l: Layout, s1: State, l1: Layout, next: Op): Versions
    requires Inv(s, l) && Inv(s1, l1)
  {
    VersionsAfter(Records(s.table, l), s1, l1, next)
  }

  ghost function LossOf(s: State, l: Layout, op: Op, k: nat, s1: State, l1: Layout, lb: Layout): Loss
    requires Inv(s, l) && 0 < k <= |Events(s, l, op)| && Events(s, l, op)[k - 1].Put?
  {
    var evs := Events(s, l, op);
    Loss(Apply(s.table, evs[..k - 1]), lb, evs[k - 1].id, evs[k - 1].block, l1, |s1.table|)
  }

  /** No head is pending; or nothing is written past it before the sync, and where it may bring back the
      record's old head, that head's chain reads as a version of the record whichever new writes are lost
      and has not lost a block to a new head or to the cut. */
  ghost predicate LosesNothing(s: State, l: Layout, op: Op, k: nat, s1: State, l1: Layout, next: Op, sync: bool)
    requires Inv(s, l) && Inv(s1, l1) && k <= |Events(s, l, op)|
  {
    PendingHead(Events(s, l, op), k) ==>
      exists lb :: Below(s, l, op, k, Apply(s.table, Events(s, l, op)[..k - 1]), lb)
                   && NoHarm(LossOf(s, l, op, k, s1, l1, lb), Unsynced(s1, l1, next, sync),
                     RunVersions(s, l, s1, l1, next))
  }

  ghost predicate NoHarm(q: Loss, seg: seq<Event>, v: Versions) {
    Pends(q) && NothingPast(q, seg) && OldReads(q, seg, v)
  }

  // ---- The reopened table ----------------------------------------------------------------------------

  lemma Reopened(t: Table, cap: nat, durable: bool, s1: State, l1: Layout)
    requires Opens(t, cap, durable, s1, l1)
    ensures Sound(t, l1) && 1 <= |s1.table| <= |t| && s1.table == t[..|s1.table|]
    ensures forall b: nat :: Used(l1, b) ==> b < |s1.table|
    ensures |s1.table| == 1 || Used(l1, |s1.table| - 1)
    ensures Sound(s1.table, l1) && Records(s1.table, l1) == Records(t, l1)
  {
    hide Loaded, TrimTo, Indexed, Used, Records;
    ScannedTable(t, l1);
    TrimBounds(l1, |t| - 1);
    LoadedTable(t, cap, durable, s1, l1);
    UsedInTable(t, l1);
  }

  lemma LoadedTable(t: Table, cap: nat, durable: bool, s1: State, l1: Layout)
    requires Opens(t, cap, durable, s1, l1)
    ensures s1.table == Scanned(t, l1, cap, durable).table
  {
    hide Scanned, Indexed, Directory.Decode;
  }

  lemma UsedInTable(t: Table, l: Layout)
    requires Sound(t, l)
    ensures forall b: nat :: Used(l, b) ==> 0 < b < |t|
  {
    forall b: nat | Used(l, b) ensures 0 < b < |t| {
      if b in l {
        assert IsHead(t, b);
      } else {
        var h, i :| h in l && 0 <= i < |l[h]| && l[h][i] == b;
        assert Chained(t, l, h) && IsContinuation(t, l[h][i]);
      }
    }
  }

  /** Cutting a table above the last block in use. */
  lemma CutSame(t: Table, l: Layout, n: nat)
    requires Sound(t, l) && n >= 1 && (n == 1 || Used(l, n - 1)) && forall b: nat :: Used(l, b) ==> b < n
    ensures Sound(Cut(t, n), l) && Records(Cut(t, n), l) == Records(t, l) && |Cut(t, n)| == n
  {
    hide Used;
    UsedInTable(t, l);
    if |t| > n { TruncateSound(t, l, n - 1); }
  }

  lemma LossPends(s: State, l: Layout, op: Op, k: nat, s1: State, l1: Layout, next: Op, lb: Layout)
    requires Killed(s, l, op, k, s1, l1) && Inv(s1, l1) && k > 0 && PendingHead(Events(s, l, op), k)
    requires Below(s, l, op, k, Apply(s.table, Events(s, l, op)[..k - 1]), lb)
    ensures var q := LossOf(s, l, op, k, s1, l1, lb);
            Pends(q) && Versioned(q, RunVersions(s, l, s1, l1, next))
              && Seen(q) == Apply(s.table, Events(s, l, op)[..k])
  {
    hide Events, Opens, SmallGrowth, FitsThrough, Indexed, Packed, DirectoryExact, Records, Agree, Apply, Used,
      LeftHalf;
    var evs := Events(s, l, op);
    AppliedLast(s.table, evs, k);
    Reopened(Apply(s.table, evs[..k]), s.cap, s.durable, s1, l1);
    NotChained(Apply(s.table, evs[..k]), l1, evs[k - 1].id);
  }

  lemma AppliedLast(t: Table, evs: seq<Event>, k: nat)
    requires 0 < k <= |evs| && evs[k - 1].Put?
    ensures Apply(t, evs[..k]) == Write(Apply(t, evs[..k - 1]), evs[k - 1].id, evs[k - 1].block)
  {
    assert evs[..k][..k - 1] == evs[..k - 1];
  }

  lemma NotChained(t: Table, l: Layout, h: nat)
    requires Sound(t, l) && h < |t| && t[h].Full? && t[h].block.kind != CONTINUATION
    ensures !InChain(l, h)
  {
    forall g, i | g in l && 0 <= i < |l[g]| ensures l[g][i] != h {
      assert Chained(t, l, g) && IsContinuation(t, l[g][i]);
    }
  }

  /** With everything before it synced, the pending write is there or not. */
  lemma PendingImages(t: Table, evs: seq<Event>, k: nat, kept: Table)
    requires 0 < k <= |evs| && evs[k - 1].Put? && (k == 1 || evs[k - 2] == Sync)
    ensures Survives(t, evs[..k], kept) <==> kept == Apply(t, evs[..k - 1]) || kept == Apply(t, evs[..k])
  {
    var before := evs[..k - 1];
    assert evs[..k][..k - 1] == before;
    AppliedLast(t, evs, k);
    CompleteSurvives(t, before);
    forall other | Survives(t, before, other) ensures other == Apply(t, before) {
      SyncedSurvives(t, before, other);
    }
  }

  // ---- Safe -----------------------------------------------------------------------------------------

  lemma LeftVersions(before: map<nat, Record>, s: State, l: Layout, next: Op, img: Table)
    requires Inv(s, l) && LeftAlike(s, l, next, img)
    ensures EachOldOrNew(img, VersionsAfter(before, s, l, next))
  {
    hide FreeExact, TagsExact, HeadsExact, PackedAs, DirectoryExact, Records, Exec, LayoutAfter, Apply;
    var v := VersionsAfter(before, s, l, next);
    if Alike(img, s.table, l) {
      VersionsStay(img, l, v);
    } else if Alike(img, Exec(s, l, next).table, LayoutAfter(s, l, next)) {
      VersionsStay(img, LayoutAfter(s, l, next), v);
    } else {
      HalfVersions(before, s, l, next.id, img);
    }
  }

  lemma HalfVersions(before: map<nat, Record>, s: State, l: Layout, id: nat, img: Table)
    requires Inv(s, l) && IsRecord(s, id) && Alike(img, Unlink(s, l[id], id).table, Without(l, id))
    ensures EachOldOrNew(img, VersionsAfter(before, s, l, Remove(id)))
  {
    hide FreeExact, TagsExact, PackedAs, DirectoryExact, Records, Exec, LayoutAfter, Apply, Unlink;
    var v := VersionsAfter(before, s, l, Remove(id));
    UnlinkKeeps(s, l, id);
    RemovedGone(s, l, id);
    var r := Records(img, Without(l, id));
    assert r == v.after - {id} && id !in v.next;
    forall g: nat ensures OneOf(r, v, g) {
      assert g != id ==> Agree(r, v.after, g);
      assert g == id ==> Agree(r, v.next, g);
    }
    VersionsStay(img, Without(l, id), v);
  }

  lemma SegmentOf(s: State, l: Layout, s1: State, l1: Layout, next: Op, sync: bool)
    requires Inv(s, l) && Inv(s1, l1) && s1.durable && SmallGrowth(s1, l1, next)
    ensures var seg := Unsynced(s1, l1, next, sync);
            Segment(seg, l1, |s1.table|, RunVersions(s, l, s1, l1, next)) && FreesRecords(seg, l1)
  {
    hide Segment, FreesRecords, FirstSegment, Events;
    NextSegment(Records(s.table, l), s1, l1, next);
    EmptySegment(l1, |s1.table|, RunVersions(s, l, s1, l1, next));
  }

  lemma AfterVersions(t: Table, l1: Layout, v: Versions)
    requires Sound(t, l1) && Records(t, l1) == v.after
    ensures forall g: nat :: OneOf(Records(t, l1), v, g)
  {
  }

  /** Nothing pending, or nothing of it lost: what is cut is unused, and the records are as reopened. */
  lemma QuietSafe(s: State, l: Layout, op: Op, k: nat, s1: State, l1: Layout, next: Op, sync: bool, kept: Table, j: nat,
                  img: Table)
    requires Killed(s, l, op, k, s1, l1) && Inv(s1, l1) && s1.durable && SmallGrowth(s1, l1, next)
    requires SameRecords(kept, Apply(s.table, Events(s, l, op)[..k]))
    requires EarlyImage(s, l, op, k, s1, Unsynced(s1, l1, next, sync), kept, j, img)
    ensures EachOldOrNew(img, RunVersions(s, l, s1, l1, next))
    ensures Sound(Cut(kept, |s1.table|), l1) && Records(Cut(kept, |s1.table|), l1) == Records(s1.table, l1)
  {
    hide Events, Opens, SmallGrowth, FitsThrough, FreeExact, TagsExact, HeadsExact, PackedAs, DirectoryExact, Records,
      Apply, Used, Survives, Segment, EachOldOrNew, OneOf, Unsynced;
    var seg, v, n := Unsynced(s1, l1, next, sync), RunVersions(s, l, s1, l1, next), |s1.table|;
    Reopened(Apply(s.table, Events(s, l, op)[..k]), s.cap, s.durable, s1, l1);
    CutSame(kept, l1, n);
    SegmentOf(s, l, s1, l1, next, sync);
    AfterVersions(Cut(kept, n), l1, v);
    SegmentSafe(Cut(kept, n), l1, seg, v, j, img);
  }

  lemma EarlySafe(s: State, l: Layout, op: Op, k: nat, s1: State, l1: Layout, next: Op, sync: bool, kept: Table, j: nat,
                  img: Table)
    requires Killed(s, l, op, k, s1, l1) && Inv(s1, l1) && s1.durable && SmallGrowth(s1, l1, next)
    requires LosesNothing(s, l, op, k, s1, l1, next, sync)
    requires EarlyImage(s, l, op, k, s1, Unsynced(s1, l1, next, sync), kept, j, img)
    ensures EachOldOrNew(img, RunVersions(s, l, s1, l1, next))
  {
    hide Events, Opens, SmallGrowth, FitsThrough, Indexed, Packed, DirectoryExact, SameRecords, Apply, Survives,
      EachOldOrNew, Unsynced, RunVersions, Pends, NothingPast, OldReads, Versioned, Segment, FreesRecords;
    var evs := Events(s, l, op);
    if !PendingHead(evs, k) {
      KilledQuiet(s, l, op, k, kept);
      QuietSafe(s, l, op, k, s1, l1, next, sync, kept, j, img);
    } else {
      var seg, v := Unsynced(s1, l1, next, sync), RunVersions(s, l, s1, l1, next);
      var lb :| Below(s, l, op, k, Apply(s.table, evs[..k - 1]), lb) && NoHarm(LossOf(s, l, op, k, s1, l1, lb), seg, v);
      PendingImages(s.table, evs, k, kept);
      if kept == Apply(s.table, evs[..k]) {
        SameAsSelf(kept);
        QuietSafe(s, l, op, k, s1, l1, next, sync, kept, j, img);
      } else {
        LossPends(s, l, op, k, s1, l1, next, lb);
        SegmentOf(s, l, s1, l1, next, sync);
        LateSafe(LossOf(s, l, op, k, s1, l1, lb), seg, v, j, img);
      }
    }
  }

  // ---- Not safe -------------------------------------------------------------------------------------

  lemma EarlyUnsafe(s: State, l: Layout, op: Op, k: nat, s1: State, l1: Layout, next: Op, sync: bool)
    returns (kept: Table, j: nat, img: Table)
    requires Killed(s, l, op, k, s1, l1) && Inv(s1, l1) && s1.durable && SmallGrowth(s1, l1, next)
    requires !LosesNothing(s, l, op, k, s1, l1, next, sync)
    ensures EarlyImage(s, l, op, k, s1, Unsynced(s1, l1, next, sync), kept, j, img)
    ensures !EachOldOrNew(img, RunVersions(s, l, s1, l1, next))
  {
    hide Events, Opens, SmallGrowth, FitsThrough, Indexed, Packed, DirectoryExact, SameRecords, Apply, Survives,
      EachOldOrNew, Unsynced, RunVersions, Pends, NothingPast, OldReads, Versioned, Segment, FreesRecords;
    var evs, seg, v := Events(s, l, op), Unsynced(s1, l1, next, sync), RunVersions(s, l, s1, l1, next);
    var lb := KilledLoud(s, l, op, k);
    LossPends(s, l, op, k, s1, l1, next, lb);
    SegmentOf(s, l, s1, l1, next, sync);
    kept, j := Apply(s.table, evs[..k - 1]), |seg|;
    PendingImages(s.table, evs, k, kept);
    img := LateUnsafe(LossOf(s, l, op, k, s1, l1, lb), seg, v);
    assert seg[..j] == seg;
  }

  /** Whatever operation is killed at whatever point and whatever comes after the reopening: every power
      failure during the next operation leaves a file whose records are each as one of its versions if and
      only if the killed run loses nothing. */
  lemma KilledRunSafeExactly(s: State, l: Layout, op: Op, k: nat, s1: State, l1: Layout, next: Op, sync: bool)
    requires Killed(s, l, op, k, s1, l1) && Inv(s1, l1) && SmallGrowth(s1, l1, next)
    ensures (forall img :: LateImage(s, l, op, k, s1, l1, next, sync, img) ==>
               EachOldOrNew(img, RunVersions(s, l, s1, l1, next)))
            <==> LosesNothing(s, l, op, k, s1, l1, next, sync)
  {
    KilledIsCrash(s, l, op, k, s1, l1);
    hide Killed, Inv, SmallGrowth, LateImage, EachOldOrNew, LosesNothing, RunVersions, Events;
    if LosesNothing(s, l, op, k, s1, l1, next, sync) {
      forall img | LateImage(s, l, op, k, s1, l1, next, sync, img)
        ensures EachOldOrNew(img, RunVersions(s, l, s1, l1, next))
      {
        LateRunSafe(s, l, op, k, s1, l1, next, sync, img);
      }
    } else {
      var kept, j, img := EarlyUnsafe(s, l, op, k, s1, l1, next, sync);
      EarlyIsLate(s, l, op, k, s1, l1, next, sync, kept, j, img);
    }
  }

  lemma EarlyIsLate(s: State, l: Layout, op: Op, k: nat, s1: State, l1: Layout, next: Op, sync: bool, kept: Table,
                    j: nat, img: Table)
    requires Inv(s, l) && Inv(s1, l1) && k <= |Events(s, l, op)|
    requires EarlyImage(s, l, op, k, s1, Unsynced(s1, l1, next, sync), kept, j, img)
    ensures LateImage(s, l, op, k, s1, l1, next, sync, img)
  {
    hide Inv, Events, CrashImage, EarlyImage, Unsynced;
  }

  lemma LateRunSafe(s: State, l: Layout, op: Op, k: nat, s1: State, l1: Layout, next: Op, sync: bool, img: Table)
    requires Killed(s, l, op, k, s1, l1) && Inv(s1, l1) && s1.durable && SmallGrowth(s1, l1, next)
    requires LosesNothing(s, l, op, k, s1, l1, next, sync) && LateImage(s, l, op, k, s1, l1, next, sync, img)
    ensures EachOldOrNew(img, RunVersions(s, l, s1, l1, next))
  {
    hide Inv, Events, SmallGrowth, FitsThrough, Opens, CrashImage, EarlyImage, EachOldOrNew, LosesNothing, Unsynced,
      RunVersions;
    if CrashImage(s1.table, Events(s1, l1, next), img) {
      CrashVersions(s, l, s1, l1, next, img);
    } else {
      var kept, j: nat :| EarlyImage(s, l, op, k, s1, Unsynced(s1, l1, next, sync), kept, j, img);
      EarlySafe(s, l, op, k, s1, l1, next, sync, kept, j, img);
    }
  }

  lemma CrashVersions(s: State, l: Layout, s1: State, l1: Layout, next: Op, img: Table)
    requires Inv(s, l) && Inv(s1, l1) && s1.durable && SmallGrowth(s1, l1, next)
    requires CrashImage(s1.table, Events(s1, l1, next), img)
    ensures EachOldOrNew(img, RunVersions(s, l, s1, l1, next))
  {
    hide CrashImage, SmallGrowth, Events, LeftAlike, EachOldOrNew, VersionsAfter, FreeExact, TagsExact, HeadsExact,
      PackedAs, DirectoryExact, Records;
    OpCrash(s1, l1, next, img);
    LeftVersions(Records(s.table, l), s1, l1, next, img);
  }

  // ---- Enough for that ----------------------------------------------------------------------------

  /** It is enough that none of the new writes, up to the sync, is to the old chain of the pending head or
      past the end that the head marks, and that the cut leaves that chain whole. */
  lemma SparedRunLosesNothing(s: State, l: Layout, op: Op, k: nat, s1: State, l1: Layout, next: Op, sync: bool,
                              lb: Layout)
    requires Killed(s, l, op, k, s1, l1) && Inv(s1, l1) && s1.durable && SmallGrowth(s1, l1, next)
    requires k > 0 && PendingHead(Events(s, l, op), k) && Sound(Apply(s.table, Events(s, l, op)[..k - 1]), lb)
    requires var q, seg := LossOf(s, l, op, k, s1, l1, lb), Unsynced(s1, l1, next, sync);
             NothingPast(q, seg) && SparesOldChain(q, seg)
    ensures LosesNothing(s, l, op, k, s1, l1, next, sync)
  {
    hide Events, Opens, SmallGrowth, FitsThrough, FreeExact, TagsExact, HeadsExact, PackedAs, DirectoryExact, Apply,
      Unsynced, RunVersions, Pends, NothingPast, OldReads, SparesOldChain, Versioned, Segment, FreesRecords, Sound;
    var known := KilledLoud(s, l, op, k);
    LayoutUnique(Apply(s.table, Events(s, l, op)[..k - 1]), known, lb);
    LossPends(s, l, op, k, s1, l1, next, lb);
    SegmentOf(s, l, s1, l1, next, sync);
    var seg, v := Unsynced(s1, l1, next, sync), RunVersions(s, l, s1, l1, next);
    SegmentPuts(seg, l1, |s1.table|, v);
    SparedReads(LossOf(s, l, op, k, s1, l1, lb), seg, v);
  }

  // ---- Synced before it is written again ----------------------------------------------------------

  /** What the next opening finds: a vault of the killed operation, or one of the next. */
  ghost predicate OneOfBoth(s: State, l: Layout, op: Op, s1: State, l1: Layout, next: Op, s2: State, l2: Layout)
    requires Inv(s, l) && Inv(s1, l1)
  {
    ReopenedAs(s, l, op, s2, l2) || ReopenedAs(s1, l1, next, s2, l2)
  }

  lemma SyncedOld(s: State, l: Layout, op: Op, k: nat, s1: State, l1: Layout, next: Op, lb: Layout)
    requires Killed(s, l, op, k, s1, l1) && Inv(s1, l1) && s1.durable && SmallGrowth(s1, l1, next)
    requires k > 0 && PendingHead(Events(s, l, op), k)
    requires Below(s, l, op, k, Apply(s.table, Events(s, l, op)[..k - 1]), lb)
    requires NoHarm(LossOf(s, l, op, k, s1, l1, lb), [], RunVersions(s, l, s1, l1, next))
    ensures var old0 := Old(LossOf(s, l, op, k, s1, l1, lb));
            LeftAlike(s, l, op, old0) || LeftAlike(s1, l1, next, old0)
  {
    hide Events, Opens, SmallGrowth, FitsThrough, FreeExact, TagsExact, HeadsExact, PackedAs, DirectoryExact, Apply,
      Records, RunVersions, Pends, OldReads, Versioned, Sound, Exec, LayoutAfter, Unlink;
    var q, v := LossOf(s, l, op, k, s1, l1, lb), RunVersions(s, l, s1, l1, next);
    LossPends(s, l, op, k, s1, l1, next, lb);
    if q.h >= q.n {
      CutAway(q);
      Reopened(Apply(s.table, Events(s, l, op)[..k]), s.cap, s.durable, s1, l1);
      AlikeItself(s1, l1);
    } else {
      if q.h !in q.lb {
        AbsentSound(q, v);
      } else {
        EmptySegment(q.l1, q.n, v);
        OldChainWhole(q, [], v);
      }
      OldRecords(q);
    }
  }

  /** If the reopened store is synced before it is written, and even an earlier power failure loses nothing,
      the file always opens again, and to the vault before or after the killed operation or the next one,
      or to one with a rooted record half removed. */
  lemma SyncedRunReopens(s: State, l: Layout, op: Op, k: nat, s1: State, l1: Layout, next: Op, img: Table)
    requires Killed(s, l, op, k, s1, l1) && Inv(s1, l1) && SmallGrowth(s1, l1, next) && FitsThrough(s1, l1, next)
    requires LosesNothing(s, l, op, k, s1, l1, next, true) && LateImage(s, l, op, k, s1, l1, next, true, img)
    ensures exists s2, l2 :: Opens(img, s.cap, s.durable, s2, l2)
    ensures forall s2, l2 :: Opens(img, s.cap, s.durable, s2, l2) ==> OneOfBoth(s, l, op, s1, l1, next, s2, l2)
  {
    KilledIsCrash(s, l, op, k, s1, l1);
    SyncedRunLeft(s, l, op, k, s1, l1, next, img);
    ReopenedMode(s, l, op, s1, l1);
    hide Inv, Events, SmallGrowth, FitsThrough, Opens, LeftAlike, LateImage, LosesNothing, ReopenedAs, OneOfBoth;
    LeftOpensAsBoth(s, l, op, s1, l1, next, img);
  }

  lemma LeftOpensAsBoth(s: State, l: Layout, op: Op, s1: State, l1: Layout, next: Op, img: Table)
    requires Inv(s, l) && FitsThrough(s, l, op) && Inv(s1, l1) && FitsThrough(s1, l1, next)
    requires s1.cap == s.cap && s1.durable == s.durable && (LeftAlike(s, l, op, img) || LeftAlike(s1, l1, next, img))
    ensures exists s2, l2 :: Opens(img, s.cap, s.durable, s2, l2)
    ensures forall s2, l2 :: Opens(img, s.cap, s.durable, s2, l2) ==> OneOfBoth(s, l, op, s1, l1, next, s2, l2)
  {
    hide Inv, FitsThrough, Opens, LeftAlike, ReopenedAs;
    if LeftAlike(s, l, op, img) { LeftThenReopen(s, l, op, img); } else { LeftThenReopen(s1, l1, next, img); }
  }

  lemma ReopenedMode(s: State, l: Layout, op: Op, s1: State, l1: Layout)
    requires Inv(s, l) && ReopenedAs(s, l, op, s1, l1)
    ensures s1.cap == s.cap && s1.durable == s.durable
  {
    hide Inv, View, Step;
  }

  lemma SyncedRunLeft(s: State, l: Layout, op: Op, k: nat, s1: State, l1: Layout, next: Op, img: Table)
    requires Killed(s, l, op, k, s1, l1) && Inv(s1, l1) && s1.durable && SmallGrowth(s1, l1, next)
    requires LosesNothing(s, l, op, k, s1, l1, next, true) && LateImage(s, l, op, k, s1, l1, next, true, img)
    ensures LeftAlike(s, l, op, img) || LeftAlike(s1, l1, next, img)
  {
    hide Events, SmallGrowth, FitsThrough, Opens, LeftAlike, FreeExact, TagsExact, HeadsExact, PackedAs, DirectoryExact,
      Records, CrashImage, Survives, Apply, Sound, SameRecords, RunVersions, NoHarm;
    var evs := Events(s, l, op);
    if CrashImage(s1.table, Events(s1, l1, next), img) {
      OpCrash(s1, l1, next, img);
    } else {
      var kept, j: nat :| EarlyImage(s, l, op, k, s1, [], kept, j, img);
      NothingWritten(s, l, op, k, s1, kept, j, img);
      if PendingHead(evs, k) {
        var lb :| Below(s, l, op, k, Apply(s.table, evs[..k - 1]), lb)
          && NoHarm(LossOf(s, l, op, k, s1, l1, lb), [], RunVersions(s, l, s1, l1, next));
        PendingImages(s.table, evs, k, kept);
        if kept == Apply(s.table, evs[..k]) {
          SameAsSelf(kept);
          QuietLeft(s, l, op, k, s1, l1, next, kept, j, img);
        } else {
          SyncedOld(s, l, op, k, s1, l1, next, lb);
        }
      } else {
        KilledQuiet(s, l, op, k, kept);
        QuietLeft(s, l, op, k, s1, l1, next, kept, j, img);
      }
    }
  }

  lemma NothingWritten(s: State, l: Layout, op: Op, k: nat, s1: State, kept: Table, j: nat, img: Table)
    requires Inv(s, l) && k <= |Events(s, l, op)| && EarlyImage(s, l, op, k, s1, [], kept, j, img)
    ensures img == Cut(kept, |s1.table|) && Survives(s.table, Events(s, l, op)[..k], kept)
  {
    hide Inv, Events;
    var none: seq<Event> := [];
    assert none[..j] == none;
  }

  lemma QuietLeft(s: State, l: Layout, op: Op, k: nat, s1: State, l1: Layout, next: Op, kept: Table, j: nat, img: Table)
    requires Killed(s, l, op, k, s1, l1) && Inv(s1, l1) && s1.durable && SmallGrowth(s1, l1, next)
    requires SameRecords(kept, Apply(s.table, Events(s, l, op)[..k])) && EarlyImage(s, l, op, k, s1, [], kept, j, img)
    requires img == Cut(kept, |s1.table|)
    ensures LeftAlike(s1, l1, next, img)
  {
    hide Events, SmallGrowth, FitsThrough, Opens, FreeExact, TagsExact, HeadsExact, PackedAs, DirectoryExact, Records,
      Survives, Apply, SameRecords, EarlyImage, EachOldOrNew, Exec, LayoutAfter;
    QuietSafe(s, l, op, k, s1, l1, next, true, kept, j, img);
  }

  /** Where the scan cuts nothing off, syncing first is enough for every operation killed at any point. */
  lemma UncutRunLosesNothing(s: State, l: Layout, op: Op, k: nat, s1: State, l1: Layout, next: Op)
    requires Killed(s, l, op, k, s1, l1) && Inv(s1, l1) && s1.durable && SmallGrowth(s1, l1, next)
    requires s1.table == Apply(s.table, Events(s, l, op)[..k])
    ensures LosesNothing(s, l, op, k, s1, l1, next, true)
  {
    hide Events, Opens, SmallGrowth, FitsThrough, Inv, Apply, RunVersions, Sound, LosesNothing, Alike, LeftHalf, Agree,
      InChain;
    var evs := Events(s, l, op);
    if !PendingHead(evs, k) { NothingPends(s, l, op, k, s1, l1, next); }
    if PendingHead(evs, k) {
      var lb := KilledLoud(s, l, op, k);
      var base := Apply(s.table, evs[..k - 1]);
      AppliedLast(s.table, evs, k);
      if evs[k - 1].id in lb { ChainInTable(base, lb, evs[k - 1].id); }
      SparedRunLosesNothing(s, l, op, k, s1, l1, next, true, lb);
    }
  }

  lemma NothingPends(s: State, l: Layout, op: Op, k: nat, s1: State, l1: Layout, next: Op)
    requires Inv(s, l) && Inv(s1, l1) && k <= |Events(s, l, op)| && !PendingHead(Events(s, l, op), k)
    ensures LosesNothing(s, l, op, k, s1, l1, next, true)
  {
    hide Events, Inv, PendingHead;
  }

  lemma ChainInTable(t: Table, l: Layout, h: nat)
    requires Sound(t, l) && h in l
    ensures forall i :: 0 <= i < |l[h]| ==> 0 < l[h][i] < |t|
  {
    assert Chained(t, l, h);
    forall i | 0 <= i < |l[h]| ensures 0 < l[h][i] < |t| { assert IsContinuation(t, l[h][i]); }
  }

  // ---- Killed runs that cost the file -----------------------------------------------------------------

  lemma OneBlockEvents(ids: seq<nat>, pieces: seq<Bytes>, tag: nat)
    requires |ids| == |pieces| == 1
    ensures ChainEvents(ids, pieces, tag, true) == [Put(ids[0], ChainBlock(ids, pieces, tag, 0)), Sync]
  {
  }

  /** An update of record id to data that fit one block. */
  ghost predicate WritesOne(s: State, l: Layout, id: nat, data: Bytes) {
    Inv(s, l) && s.durable && Directory.Fits(s.roots) && IsRecord(s, id) && |Pieces(data, s.cap)| == 1
  }

  /** In a store without free blocks, it shrinks a record whose chain does not end the file. */
  ghost predicate Shrinks(s: State, l: Layout, id: nat, data: Bytes) {
    WritesOne(s, l, id, data) && s.free == [] && l[id] != [] && s.nblocks !in l[id]
  }

  lemma ShrinkEvents(s: State, l: Layout, id: nat, data: Bytes)
    requires WritesOne(s, l, id, data)
    ensures Events(s, l, Update(id, data)) == [Put(id, Block(HEAD, s.head[id].tag, 0, data)), Sync]
    ensures UpdateIds(s, id, data) == [id] && Pieces(data, s.cap) == [data]
  {
    hide FreeExact, TagsExact, HeadsExact, PackedAs, DirectoryExact, Directory.Fits, Sound;
    OneBlockEvents(UpdateIds(s, id, data), Pieces(data, s.cap), s.head[id].tag);
  }

  lemma ShrinkExec(s: State, l: Layout, id: nat, data: Bytes)
    requires WritesOne(s, l, id, data)
    ensures var op, after := Update(id, data), Exec(s, l, Update(id, data));
            && LayoutAfter(s, l, op) == l[id := []] && Inv(after, l[id := []])
            && after.table == Apply(s.table, Events(s, l, op)[..1])
            && after.nblocks == s.nblocks && after.roots == s.roots && after.cap == s.cap && after.durable
            && |after.table| == s.nblocks + 1
            && SmallGrowth(s, l, op) && FitsThrough(s, l, op)
  {
    hide Core, DirectoryExact, Pieces, Directory.Fits, Write;
    var op := Update(id, data);
    ShrinkEvents(s, l, id, data);
    ExecInv(s, l, op);
    var evs := Events(s, l, op);
    assert [id][1..] == [];
    assert LayoutAfter(s, l, op) == l[id := []];
    SyncedTable(s.table, evs[..1]);
    assert evs[..1] + [Sync] == evs;
    TableLength(Exec(s, l, op), l[id := []]);
  }

  lemma SyncedTable(t: Table, evs: seq<Event>)
    ensures Apply(t, evs + [Sync]) == Apply(t, evs)
  {
    assert (evs + [Sync])[..|evs|] == evs;
  }

  lemma TableLength(s: State, l: Layout)
    requires Inv(s, l)
    ensures |s.table| == s.nblocks + 1
  {
  }

  lemma ShrunkFree(s: State, l: Layout, id: nat)
    requires Partition(s, l) && id in l && s.free == [] && l[id] != [] && s.nblocks !in l[id] && s.nblocks > 0
    ensures TrimTo(l[id := []], s.nblocks) == s.nblocks
    ensures var free := FreeBelow(l[id := []], s.nblocks); free != [] && free[|free| - 1] in l[id]
  {
    var n, l1, first := s.nblocks, l[id := []], l[id][0];
    assert [id][1..] == [] && l1 == l[[id][0] := [id][1..]];
    assert Chained(s.table, l, id) && IsContinuation(s.table, first);
    HeadsAreNotChained(s.table, l, id);
    OnlyHead(l, id);
    UsedAfterCommit(s.table, l, [id], n);
    UsedAfterCommit(s.table, l, [id], first);
    assert InChain(l, first);
    FreeBelowExact(l1, n);
    var free := FreeBelow(l1, n);
    assert first in free;
    UsedAfterCommit(s.table, l, [id], free[|free| - 1]);
  }

  lemma OnlyHead(l: Layout, id: nat)
    requires id in l && id > 0 && !InChain(l, id)
    ensures MayCarry(l, [id])
  {
  }

  /** Killed before its sync, the update shows as done. The reopened store hands out a block of the old
      chain. */
  lemma ShrunkReopens(s: State, l: Layout, id: nat, data: Bytes) returns (s1: State, l1: Layout, b: nat)
    requires Shrinks(s, l, id, data)
    ensures Killed(s, l, Update(id, data), 1, s1, l1) && Inv(s1, l1) && s1.durable && s1.cap == s.cap
    ensures b in l[id] && s1.free != [] && s1.free[|s1.free| - 1] == b && |s1.table| == |s.table|
    ensures s1.table == Apply(s.table, Events(s, l, Update(id, data))[..1])
  {
    hide Inv, Exec, Events, SmallGrowth, FitsThrough, TrimTo, FreeBelow, Opens, Shrinks, Killed, Partition, Apply,
      Pieces;
    var op := Update(id, data);
    ShrunkPartition(s, l, id, data);
    ShrinkEvents(s, l, id, data);
    ShrinkExec(s, l, id, data);
    ShrunkFree(s, l, id);
    l1 := l[id := []];
    s1 := WholeReopens(Exec(s, l, op), l1);
    b := s1.free[|s1.free| - 1];
    KilledHere(s, l, op, 1, s1, l1);
  }

  lemma KilledHere(s: State, l: Layout, op: Op, k: nat, s1: State, l1: Layout)
    requires Inv(s, l) && s.durable && SmallGrowth(s, l, op) && FitsThrough(s, l, op) && k <= |Events(s, l, op)|
    requires s1.table == Apply(s.table, Events(s, l, op)[..k]) && Opens(s1.table, s.cap, s.durable, s1, l1)
    ensures Killed(s, l, op, k, s1, l1)
  {
  }

  lemma ShrunkPartition(s: State, l: Layout, id: nat, data: Bytes)
    requires Shrinks(s, l, id, data)
    ensures Inv(s, l) && Partition(s, l) && id in l && s.nblocks > 0 && Directory.Fits(s.roots) && s.durable
    ensures s.free == [] && l[id] != [] && s.nblocks !in l[id] && s.cap > 0 && WritesOne(s, l, id, data)
  {
    UsedInRange(s, l, id);
  }

  /** Opening the file of a store whose last block is in use cuts nothing off. */
  lemma WholeReopens(s: State, l: Layout) returns (s1: State)
    requires Inv(s, l) && Directory.Fits(s.roots) && s.durable
    requires TrimTo(l, s.nblocks) == s.nblocks
    ensures Opens(s.table, s.cap, true, s1, l) && Inv(s1, l) && s1.table == s.table && s1.durable && s1.cap == s.cap
    ensures s1.free == FreeBelow(l, s.nblocks) && s1.nblocks == s.nblocks
  {
    hide Carries, Loaded, TrimTo, FreeBelow, Records, FreeExact, TagsExact, DirectoryExact, PackedAs;
    var v := View(s, l);
    ViewRoots(s, l);
    InvCarries(s, l);
    OpenCarried(s.table, l, s.cap, true, s.dirId, v);
    ScannedIndexed(s.table, l, s.cap, true);
    s1 := Scanned(s.table, l, s.cap, true).(dirId := s.dirId, roots := v.roots);
    OpensHere(s.table, l, s.cap, true, s1);
  }

  /** Whenever a store has no free block and a record with a chain that does not end the file: shrinking
      the record, being killed before the sync, reopening, inserting a record of one block and losing the
      shrinking write to a power failure leaves a file that the scan rejects, with every record in it. */
  lemma UnsyncedReopenLosesFile(s: State, l: Layout, id: nat, data: Bytes, other: Bytes, tag: nat)
    returns (s1: State, l1: Layout, img: Table)
    requires Shrinks(s, l, id, data) && |Pieces(other, s.cap)| == 1 && tag != DIRECTORY_TAG
    ensures Killed(s, l, Update(id, data), 1, s1, l1) && Inv(s1, l1) && SmallGrowth(s1, l1, Insert(other, tag))
    ensures LateImage(s, l, Update(id, data), 1, s1, l1, Insert(other, tag), false, img) && forall m :: !Sound(img, m)
    ensures s1.table == Apply(s.table, Events(s, l, Update(id, data))[..1])
  {
    hide Events, Killed, SmallGrowth, Pieces, Inv, Sound, Shrinks, EarlyImage, LateImage;
    var b;
    ShrunkPartition(s, l, id, data);
    s1, l1, b := ShrunkReopens(s, l, id, data);
    ShrinkEvents(s, l, id, data);
    OneBlockInsert(s1, l1, b, other, tag);
    ShrinkChain(s, l, id, data, b);
    var op, next := Update(id, data), Insert(other, tag);
    var e, f := Events(s, l, op), Events(s1, l1, next);
    img := Write(s.table, b, f[0].block);
    assert f == [f[0]] + [Sync] + [];
    SegmentEnds([f[0]], []);
    LostFirstWrite(s, l, op, s1, f[0], img);
    EarlyIsLate(s, l, op, 1, s1, l1, next, false, s.table, 1, img);
    ChainTaken(s.table, l, id, b, f[0].block);
  }

  lemma OneBlockInsert(s: State, l: Layout, b: nat, data: Bytes, tag: nat)
    requires Inv(s, l) && s.cap > 0 && s.durable && tag != DIRECTORY_TAG && |Pieces(data, s.cap)| == 1
    requires s.free != [] && s.free[|s.free| - 1] == b
    ensures Events(s, l, Insert(data, tag)) == [Put(b, Block(HEAD, tag, 0, Pieces(data, s.cap)[0])), Sync]
    ensures SmallGrowth(s, l, Insert(data, tag))
  {
    hide Indexed, Packed, DirectoryExact;
    OneBlockEvents(InsertIds(s, data), Pieces(data, s.cap), tag);
  }

  lemma LostFirstWrite(s: State, l: Layout, op: Op, s1: State, f: Event, img: Table)
    requires Inv(s, l) && 1 <= |Events(s, l, op)| && Events(s, l, op)[0].Put? && |s1.table| == |s.table|
    requires f.Put? && img == Write(s.table, f.id, f.block)
    ensures EarlyImage(s, l, op, 1, s1, [f], s.table, 1, img)
  {
    hide Inv, Events, Survives;
    var evs := Events(s, l, op);
    assert evs[..1] == [evs[0]] && [f][..1] == [f];
    OnePutKept(s.table, evs[0]);
    OnePutKept(s.table, f);
  }

  lemma ShrinkChain(s: State, l: Layout, id: nat, data: Bytes, b: nat)
    requires Shrinks(s, l, id, data) && b in l[id]
    ensures 0 < b < |s.table| && Sound(s.table, l) && id in l
  {
    assert Chained(s.table, l, id);
    var i :| 0 <= i < |l[id]| && l[id][i] == b;
    assert IsContinuation(s.table, l[id][i]);
  }

  /** Whenever a record's chain ends the file: shrinking the record to one block, being killed before the
      sync and reopening cuts the chain off, and a power failure before that block is synced then leaves a
      file that the scan rejects, whether or not the reopened store was to be synced first. */
  lemma CutLosesFile(s: State, l: Layout, id: nat, data: Bytes, s1: State, l1: Layout, next: Op, sync: bool)
    returns (img: Table)
    requires WritesOne(s, l, id, data) && s.nblocks in l[id] && Killed(s, l, Update(id, data), 1, s1, l1) && Inv(s1, l1)
    ensures LateImage(s, l, Update(id, data), 1, s1, l1, next, sync, img) && forall m :: !Sound(img, m)
  {
    hide Events, Inv, Sound, WritesOne, Opens, SmallGrowth, FitsThrough, Survives, Used, LateImage, EarlyImage;
    var op := Update(id, data);
    WrittenRecord(s, l, id, data);
    ShrinkEvents(s, l, id, data);
    ShrinkExec(s, l, id, data);
    var evs := Events(s, l, op);
    var t := Apply(s.table, evs[..1]);
    TableLength(s, l);
    SoundOf(Exec(s, l, op), l[id := []]);
    Reopened(t, s.cap, s.durable, s1, l1);
    LayoutUnique(t, l1, l[id := []]);
    EndUnused(s, l, id);
    img := s.table[..|s1.table|];
    LostShrink(s, l, op, s1, Unsynced(s1, l1, next, sync), img);
    EarlyIsLate(s, l, op, 1, s1, l1, next, sync, s.table, 0, img);
    HeadInTable(s1.table, l1, id);
    CutNotSound(s.table, l, id, |s1.table|, s.nblocks);
  }

  lemma WrittenRecord(s: State, l: Layout, id: nat, data: Bytes)
    requires WritesOne(s, l, id, data) && s.nblocks in l[id]
    ensures Inv(s, l) && Sound(s.table, l) && id in l && Partition(s, l) && s.nblocks > 0 && s.durable
  {
    UsedInRange(s, l, id);
  }

  lemma SoundOf(s: State, l: Layout)
    requires Inv(s, l)
    ensures Sound(s.table, l)
  {
  }

  lemma HeadInTable(t: Table, l: Layout, h: nat)
    requires Sound(t, l) && h in l
    ensures 0 < h < |t|
  {
    assert IsHead(t, h);
  }

  lemma EndUnused(s: State, l: Layout, id: nat)
    requires Partition(s, l) && id in l && s.nblocks in l[id]
    ensures !Used(l[id := []], s.nblocks)
  {
    HeadInTable(s.table, l, id);
    HeadsAreNotChained(s.table, l, id);
    OnlyHead(l, id);
    assert [id][1..] == [] && l[id := []] == l[[id][0] := [id][1..]];
    UsedAfterCommit(s.table, l, [id], s.nblocks);
    assert InChain(l, s.nblocks);
  }

  lemma LostShrink(s: State, l: Layout, op: Op, s1: State, seg: seq<Event>, img: Table)
    requires Inv(s, l) && 1 <= |Events(s, l, op)| && Events(s, l, op)[0].Put?
    requires |s1.table| < |s.table| && img == s.table[..|s1.table|]
    ensures EarlyImage(s, l, op, 1, s1, seg, s.table, 0, img)
  {
    hide Inv, Events;
    var evs := Events(s, l, op);
    assert evs[..1] == [evs[0]] && seg[..0] == [];
    OnePutKept(s.table, evs[0]);
  }

  /** A file cut below a block of a record's chain has no sound layout. */
  lemma CutNotSound(t: Table, l: Layout, h: nat, n: nat, b: nat)
    requires Sound(t, l) && h in l && h < n <= b && n <= |t| && b in l[h]
    ensures forall m :: !Sound(t[..n], m)
  {
    var img := t[..n];
    assert Chained(t, l, h) && IsHead(img, h);
    forall m ensures !Sound(img, m) {
      if Sound(img, m) {
        assert Chained(img, m, h);
        forall i | 0 <= i < |m[h]| ensures IsContinuation(img, m[h][i]) && LinkedAt(t, m[h], i) {
          assert LinkedAt(img, m[h], i);
        }
        ChainUnique(t, t[h].block.next, m[h], l[h]);
      }
    }
  }

  // ---- Such stores exist ---------------------------------------------------------------------

  const EMPTY := State(71, true, [Unreadable], 0, [], map[], map[], map[], 0)

  lemma EmptyInv()
    ensures Inv(EMPTY, map[])
  {
  }

  lemma InsertInto(s: State, l: Layout, data: Bytes, ids: seq<nat>) returns (s': State, l': Layout)
    requires Inv(s, l) && s.durable && s.free == [] && s.dirId == 0 && s.roots == map[] && InsertIds(s, data) == ids
    ensures Inv(s', l') && s'.durable && s'.free == [] && s'.dirId == 0 && s'.roots == map[] && s'.cap == s.cap
    ensures s'.nblocks == s.nblocks + |ids| && l' == l[ids[0] := ids[1..]] && ids[0] in s'.head
    ensures forall h :: h in s.head ==> h in s'.head
  {
    ExecInv(s, l, Insert(data, 1));
    hide Inv, Apply, Pieces, Taken, InsertEvents;
    s', l' := Exec(s, l, Insert(data, 1)), LayoutAfter(s, l, Insert(data, 1));
  }

  /** A record of two blocks and then one of one block, put into an empty file. */
  lemma ShrinkingStore() returns (s: State, l: Layout)
    ensures Shrinks(s, l, 1, [])
  {
    hide Inv, Pieces, Taken;
    var long: Bytes := seq(72, _ => 0);
    EmptyInv();
    FirstIds(long);
    var one, m := InsertInto(EMPTY, map[], long, [1, 2]);
    assert [1, 2][1..] == [2] && [3][1..] == [];
    NextId(one);
    s, l := InsertInto(one, m, [], [3]);
  }

  /** The record of two blocks alone. */
  lemma EndingStore() returns (s: State, l: Layout)
    ensures WritesOne(s, l, 1, []) && s.nblocks in l[1]
  {
    hide Inv, Pieces, Taken;
    var long: Bytes := seq(72, _ => 0);
    EmptyInv();
    FirstIds(long);
    s, l := InsertInto(EMPTY, map[], long, [1, 2]);
    assert [1, 2][1..] == [2];
    NextId(s);
  }

  lemma FirstIds(long: Bytes)
    requires |long| == 72
    ensures InsertIds(EMPTY, long) == [1, 2]
  {
    assert |long[71..]| == 1;
    assert |Pieces(long[71..], 71)| == 1;
  }

  lemma NextId(s: State)
    requires s.free == [] && s.nblocks == 2 && s.cap == 71
    ensures InsertIds(s, []) == [3] && |Pieces([], s.cap)| == 1
  {
  }

  lemma OldOrNewSound(img: Table, v: Versions)
    requires EachOldOrNew(img, v)
    ensures exists m :: Sound(img, m)
  {
  }

  /** For such a store the sync decides. */
  lemma ShrunkLosesNothing(s: State, l: Layout, id: nat, data: Bytes, other: Bytes, tag: nat)
    returns (s1: State, l1: Layout)
    requires Shrinks(s, l, id, data) && |Pieces(other, s.cap)| == 1 && tag != DIRECTORY_TAG
    ensures Inv(s, l) && Killed(s, l, Update(id, data), 1, s1, l1) && Inv(s1, l1)
            && SmallGrowth(s1, l1, Insert(other, tag))
    ensures forall sync :: LosesNothing(s, l, Update(id, data), 1, s1, l1, Insert(other, tag), sync) <==> sync
  {
    hide Events, Inv, Opens, SmallGrowth, FitsThrough, Pieces, Sound, Shrinks, LateImage, EachOldOrNew, LosesNothing,
      Apply;
    var op, next := Update(id, data), Insert(other, tag);
    var img;
    ShrunkPartition(s, l, id, data);
    s1, l1, img := UnsyncedReopenLosesFile(s, l, id, data, other, tag);
    KilledIsCrash(s, l, op, 1, s1, l1);
    UncutRunLosesNothing(s, l, op, 1, s1, l1, next);
    if LosesNothing(s, l, op, 1, s1, l1, next, false) {
      KilledRunSafeExactly(s, l, op, 1, s1, l1, next, false);
      OldOrNewSound(img, RunVersions(s, l, s1, l1, next));
    }
    forall sync ensures LosesNothing(s, l, op, 1, s1, l1, next, sync) <==> sync { }
  }

  /** Some run is safe exactly if the reopened store is synced before it is written. */
  lemma SyncMatters() returns (s: State, l: Layout, s1: State, l1: Layout)
    ensures Inv(s, l) && Killed(s, l, Update(1, []), 1, s1, l1) && Inv(s1, l1) && SmallGrowth(s1, l1, Insert([], 1))
    ensures forall sync :: LosesNothing(s, l, Update(1, []), 1, s1, l1, Insert([], 1), sync) <==> sync
  {
    hide Inv, Killed, SmallGrowth, LosesNothing, Shrinks;
    s, l := ShrinkingStore();
    OneBlock(s, l, 1, []);
    s1, l1 := ShrunkLosesNothing(s, l, 1, [], [], 1);
  }

  lemma OneBlock(s: State, l: Layout, id: nat, data: Bytes)
    requires Shrinks(s, l, id, data)
    ensures s.cap > 0 && |Pieces(data, s.cap)| == 1
  {
  }

  /** Some run is not, synced or not. */
  lemma SyncNotEnough(next: Op) returns (s: State, l: Layout, s1: State, l1: Layout)
    ensures Inv(s, l) && Killed(s, l, Update(1, []), 1, s1, l1) && Inv(s1, l1)
    ensures SmallGrowth(s1, l1, next) ==> forall sync :: !LosesNothing(s, l, Update(1, []), 1, s1, l1, next, sync)
  {
    hide Events, Inv, Opens, SmallGrowth, FitsThrough, Pieces, Sound, LateImage, EachOldOrNew, LosesNothing, Apply,
      WritesOne, CrashImage, ReopenedAs;
    s, l := EndingStore();
    var op := Update(1, []);
    WrittenRecord(s, l, 1, []);
    ShrinkEvents(s, l, 1, []);
    ShrinkExec(s, l, 1, []);
    PrefixImage(s.table, Events(s, l, op), 1);
    var t := Apply(s.table, Events(s, l, op)[..1]);
    CrashThenReopen(s, l, op, t);
    s1, l1 :| Opens(t, s.cap, s.durable, s1, l1);
    KilledIsCrash(s, l, op, 1, s1, l1);
    if SmallGrowth(s1, l1, next) {
      forall sync ensures !LosesNothing(s, l, op, 1, s1, l1, next, sync) {
        var img := CutLosesFile(s, l, 1, [], s1, l1, next, sync);
        if LosesNothing(s, l, op, 1, s1, l1, next, sync) {
          KilledRunSafeExactly(s, l, op, 1, s1, l1, next, sync);
          OldOrNewSound(img, RunVersions(s, l, s1, l1, next));
        }
      }
    }
  }
}
