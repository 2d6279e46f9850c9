/** One head write that is lost only after the file was reopened with it, perhaps cut, and written again:
    exactly when every record is still one of its own versions. */
module LostHeads {
  import opened Codec
  import opened BlockTable
  import opened ChainWrite
  import opened TornChains
  import opened Reopen

  function Cut(t: Table, n: nat): Table { if |t| <= n then t else t[..n] }

  // ---- Records that are old or new, each on its own ---------------------------------------------

  /** The records before the pending write, with it, and after the next operation. */
  datatype Versions = Versions(before: map<nat, Record>, after: map<nat, Record>, next: map<nat, Record>)

  ghost predicate Agree(a: map<nat, Record>, b: map<nat, Record>, g: nat) {
    (g in a <==> g in b) && (g in a ==> a[g] == b[g])
  }

  ghost predicate OneOf(r: map<nat, Record>, v: Versions, g: nat) {
    Agree(r, v.before, g) || Agree(r, v.after, g) || Agree(r, v.next, g)
  }

  ghost predicate Holds(img: Table, v: Versions, m: Layout) {
    Sound(img, m) && forall g: nat :: OneOf(Records(img, m), v, g)
  }

  /** The scan accepts the file, and every record in it is as in one of the versions. */
  ghost predicate EachOldOrNew(img: Table, v: Versions) {
    exists m :: Holds(img, v, m)
  }

  // ---- The writes up to the next sync -------------------------------------------------------------

  ghost predicate ContinuationSegment(seg: seq<Event>, l: Layout, len: nat) {
    && Puts(seg) && (forall i, j :: 0 <= i < j < |seg| ==> seg[i].id != seg[j].id)
    && forall i :: 0 <= i < |seg| ==>
         0 < seg[i].id <= len && !Used(l, seg[i].id) && seg[i].block.kind == CONTINUATION
  }

  /** The head of a record of one block. */
  ghost predicate HeadSegment(seg: seq<Event>, l: Layout, len: nat, v: Versions) {
    && |seg| == 1 && seg[0].Put? && seg[0].block.kind == HEAD && seg[0].block.next == 0
    && 0 < seg[0].id <= len && !InChain(l, seg[0].id)
    && seg[0].id in v.next && v.next[seg[0].id] == Record(seg[0].block.tag, seg[0].block.data)
  }

  ghost predicate FreeSegment(seg: seq<Event>, l: Layout, len: nat, v: Versions) {
    && |seg| == 1 && seg[0].Put? && seg[0].block == FREE_BLOCK && 0 < seg[0].id <= len
    && (seg[0].id in l || !Used(l, seg[0].id)) && seg[0].id !in v.next
  }

  /** seg is what an operation writes, up to its first sync, to a table of len blocks with layout l. */
  ghost predicate Segment(seg: seq<Event>, l: Layout, len: nat, v: Versions) {
    ContinuationSegment(seg, l, len) || HeadSegment(seg, l, len, v) || FreeSegment(seg, l, len, v)
  }

  /** What an operation frees is a record. */
  ghost predicate FreesRecords(seg: seq<Event>, l: Layout) {
    forall i :: 0 <= i < |seg| && seg[i].Put? && seg[i].block == FREE_BLOCK ==> seg[i].id in l
  }

  lemma {:induction false} SegmentPuts(seg: seq<Event>, l: Layout, len: nat, v: Versions)
    requires Segment(seg, l, len, v)
    ensures Puts(seg) && forall i :: 0 <= i < |seg| ==> 0 < seg[i].id <= len
  {
  }

  lemma PrefixOfSegment(seg: seq<Event>, l: Layout, len: nat, v: Versions, j: nat)
    requires Segment(seg, l, len, v) && j <= |seg|
    ensures Segment(seg[..j], l, len, v)
  {
    if |seg| == 1 {
      assert j == 1 ==> seg[..j] == seg;
      assert j == 0 ==> seg[..j] == [];
    }
  }

  lemma VersionsStay(t: Table, l: Layout, v: Versions)
    requires Sound(t, l) && forall g: nat :: OneOf(Records(t, l), v, g)
    ensures EachOldOrNew(t, v)
  {
    assert Holds(t, v, l);
  }

  lemma ContinuationsSafe(k: Table, l: Layout, seg: seq<Event>, v: Versions, img: Table)
    requires Sound(k, l) && forall g: nat :: OneOf(Records(k, l), v, g)
    requires ContinuationSegment(seg, l, |k|) && Survives(k, seg, img)
    ensures EachOldOrNew(img, v)
  {
    SegmentWrites(seg, l, |k|);
    SurvivesTorn(k, seg, img);
    TornUnused(k, WritesOf(seg), l, img);
    hide Used;
    VersionsStay(img, l, v);
  }

  lemma SegmentWrites(seg: seq<Event>, l: Layout, len: nat)
    requires ContinuationSegment(seg, l, len)
    ensures forall b :: b in WritesOf(seg) ==>
              0 < b <= len && !Used(l, b) && WritesOf(seg)[b].kind == CONTINUATION
              && exists i :: 0 <= i < |seg| && seg[i].id == b
  {
    WritesMembers(seg);
    var w := WritesOf(seg);
    forall b | b in w
      ensures 0 < b <= len && !Used(l, b) && w[b].kind == CONTINUATION && exists i :: 0 <= i < |seg| && seg[i].id == b
    {
      var i :| 0 <= i < |seg| && seg[i] == Put(b, w[b]);
      assert seg[i].id == b;
    }
  }

  lemma OnePut(t: Table, e: Event, img: Table)
    requires e.Put? && Survives(t, [e], img)
    ensures img == t || img == Write(t, e.id, e.block)
  {
    assert [e][..0] == [];
  }

  lemma OnePutKept(t: Table, e: Event)
    requires e.Put?
    ensures Survives(t, [e], t) && Survives(t, [e], Write(t, e.id, e.block))
  {
    assert [e][..0] == [];
    assert Survives(t, [], t);
  }

  lemma HeadSafe(k: Table, l: Layout, seg: seq<Event>, v: Versions, img: Table)
    requires Sound(k, l) && forall g: nat :: OneOf(Records(k, l), v, g)
    requires HeadSegment(seg, l, |k|, v) && Survives(k, seg, img)
    ensures EachOldOrNew(img, v)
  {
    var b, y := seg[0].id, seg[0].block;
    assert seg == [seg[0]];
    OnePut(k, seg[0], img);
    if img == k {
      VersionsStay(k, l, v);
    } else {
      OneBlockCommits(k, l, b, y);
      hide Sound, Survives, InChain, Write;
      var r := Records(img, l[b := []]);
      forall g: nat ensures OneOf(r, v, g) {
        assert OneOf(Records(k, l), v, g);
      }
      VersionsStay(img, l[b := []], v);
    }
  }

  lemma OneBlockCommits(k: Table, l: Layout, b: nat, y: Block)
    requires Sound(k, l) && 0 < b <= |k| && !InChain(l, b) && y.kind == HEAD && y.next == 0
    ensures Sound(Write(k, b, y), l[b := []])
    ensures Records(Write(k, b, y), l[b := []]) == Records(k, l)[b := Record(y.tag, y.data)]
  {
    var ids, pieces, u := [b], [y.data], Write(k, b, y);
    assert ChainBlock(ids, pieces, y.tag, 0) == y && ids[1..] == [];
    assert Flatten(pieces) == y.data + Flatten(pieces[1..]) == y.data;
    assert Wrote(k, u, ids, pieces, y.tag, 0) by {
      forall c: nat | c < |u| && Off(ids, 0, c) ensures u[c] == if c < |k| then k[c] else Unreadable {
        assert ids[0] != c;
      }
      assert |u| == |k| || (0 <= 0 < |ids| && |u| == ids[0] + 1);
    }
    ChainCommits(k, u, l, ids, pieces, y.tag);
  }

  lemma FreeSafe(k: Table, l: Layout, seg: seq<Event>, v: Versions, img: Table)
    requires Sound(k, l) && forall g: nat :: OneOf(Records(k, l), v, g)
    requires FreeSegment(seg, l, |k|, v) && Survives(k, seg, img)
    ensures EachOldOrNew(img, v)
  {
    var b := seg[0].id;
    assert seg == [seg[0]];
    OnePut(k, seg[0], img);
    if img == k {
      VersionsStay(k, l, v);
    } else if b in l {
      FreeCommits(k, l, b);
      hide Sound, Survives, Write;
      var r := Records(img, Without(l, b));
      forall g: nat ensures OneOf(r, v, g) {
        assert OneOf(Records(k, l), v, g);
      }
      VersionsStay(img, Without(l, b), v);
    } else {
      UnusedBlocksChange(k, img, l);
      VersionsStay(img, l, v);
    }
  }

  /** Over a table whose records are each old or new, the segment leaves such tables. */
  lemma SegmentSafe(k: Table, l: Layout, seg: seq<Event>, v: Versions, j: nat, img: Table)
    requires Sound(k, l) && forall g: nat :: OneOf(Records(k, l), v, g)
    requires Segment(seg, l, |k|, v) && j <= |seg| && Survives(k, seg[..j], img)
    ensures EachOldOrNew(img, v)
  {
    PrefixOfSegment(seg, l, |k|, v, j);
    hide ContinuationSegment, HeadSegment, FreeSegment, EachOldOrNew, Survives;
    if ContinuationSegment(seg[..j], l, |k|) { ContinuationsSafe(k, l, seg[..j], v, img); }
    else if HeadSegment(seg[..j], l, |k|, v) { HeadSafe(k, l, seg[..j], v, img); }
    else { FreeSafe(k, l, seg[..j], v, img); }
  }

  // ---- The pending head ---------------------------------------------------------------------------

  /** base is synced, with layout lb; x is pending at block h. A reopening read the table with x, found
      layout l1 and cut the file to n blocks. */
  datatype Loss = Loss(base: Table, lb: Layout, h: nat, x: Block, l1: Layout, n: nat)

  ghost function Seen(q: Loss): Table { Write(q.base, q.h, q.x) }

  ghost predicate Pends(q: Loss) {
    && Sound(q.base, q.lb) && 0 < q.h <= |q.base| && !InChain(q.lb, q.h)
    && q.x.kind != CONTINUATION && (q.x.kind == HEAD || q.h in q.lb)
    && Sound(Seen(q), q.l1) && !InChain(q.l1, q.h)
    && 1 <= q.n <= |Seen(q)| && forall b: nat :: Used(q.l1, b) ==> b < q.n
  }

  /** The versions of all records. */
  ghost predicate Versioned(q: Loss, v: Versions)
    requires Sound(q.base, q.lb) && Sound(Seen(q), q.l1)
  {
    v.after == Records(Seen(q), q.l1) && Agree(Records(q.base, q.lb), v.before, q.h)
  }

  ghost function Others(q: Loss): Layout { Without(q.lb, q.h) }

  lemma OtherSame(q: Loss, g: nat)
    requires Pends(q) && g != q.h
    ensures g in q.lb <==> g in q.l1
    ensures g in q.lb ==> q.lb[g] == q.l1[g] && Chained(q.base, q.lb, g) && Chained(Seen(q), q.l1, g)
    ensures Agree(Records(q.base, q.lb), Records(Seen(q), q.l1), g)
  {
    var t, u := q.base, Seen(q);
    assert IsHead(t, g) <==> IsHead(u, g);
    if g in q.lb {
      assert Chained(t, q.lb, g) && Chained(u, q.l1, g);
      var cs := q.lb[g];
      forall i | 0 <= i < |cs| ensures u[cs[i]] == t[cs[i]] && LinkedAt(u, cs, i) {
        assert LinkedAt(t, cs, i) && InChain(q.lb, cs[i]);
      }
      ChainUnique(u, t[g].block.next, q.l1[g], cs);
      ChainBytesFrame(t, u, cs);
    }
  }

  lemma OtherUsed(q: Loss, b: nat)
    requires Pends(q) && Used(Others(q), b)
    ensures Used(q.l1, b) && b < q.n && b != q.h && Used(q.lb, b)
  {
    if b in Others(q) {
      OtherSame(q, b);
    } else {
      var g, i :| g in Others(q) && 0 <= i < |Others(q)[g]| && Others(q)[g][i] == b;
      OtherSame(q, g);
      assert q.l1[g][i] == b && q.lb[g][i] == b;
      assert InChain(q.l1, b) && InChain(q.lb, b);
    }
    assert Used(q.l1, b);
  }

  /** The synced table after the cut. */
  ghost function Old(q: Loss): Table { Cut(q.base, q.n) }

  ghost predicate Surfaces(q: Loss) { q.h in q.lb && q.h < q.n }

  lemma OldLength(q: Loss)
    requires Pends(q)
    ensures |Old(q)| == if q.h == |q.base| then q.n - 1 else q.n
    ensures q.h == |q.base| ==> q.h == q.n - 1 && q.h !in q.lb && q.h in q.l1
    ensures Readable(Old(q)) && |Old(q)| <= |q.base| && forall b: nat :: b < |Old(q)| ==> Old(q)[b] == q.base[b]
  {
    if q.h in q.lb { assert IsHead(q.base, q.h); }
    if q.x.kind == HEAD { assert IsHead(Seen(q), q.h) && Used(q.l1, q.h); }
  }

  // ---- Safe: the old chain reads well, or there is none ---------------------------------------------

  /** Nothing the next operation writes before its sync lies past the pending block. */
  ghost predicate NothingPast(q: Loss, seg: seq<Event>) {
    q.h == |q.base| ==> forall i :: 0 <= i < |seg| ==> seg[i].Put? && seg[i].id < q.n
  }

  /** The continuations among the writes, but not one to the block of the pending head. */
  ghost function TailWrites(q: Loss, seg: seq<Event>): Writes {
    var w := WritesOf(seg);
    map b | b in w && w[b].kind == CONTINUATION && b != q.h :: w[b]
  }

  ghost function AcceptedAt(q: Loss, v: Versions): iset<Bytes>
    requires IsHead(q.base, q.h)
  {
    iset x | var rec := Record(q.base[q.h].block.tag, x);
             || (q.h in v.before && v.before[q.h] == rec)
             || (q.h in v.after && v.after[q.h] == rec)
             || (q.h in v.next && v.next[q.h] == rec)
  }

  /** If the old head can come back, its chain reads as one of the record's versions whichever of the new
      writes are lost, and no new head has taken a block of it. */
  ghost predicate OldReads(q: Loss, seg: seq<Event>, v: Versions)
    requires Pends(q)
  {
    Surfaces(q) ==>
      && IsHead(q.base, q.h)
      && Reads(Old(q), TailWrites(q, seg), Others(q), q.base[q.h].block.next, q.base[q.h].block.data, [],
        AcceptedAt(q, v))
      && forall i :: 0 <= i < |seg| && seg[i].Put? && seg[i].block.kind == HEAD ==> seg[i].id !in q.lb[q.h]
  }

  lemma OldBase(q: Loss, seg: seq<Event>, v: Versions)
    requires Pends(q) && Surfaces(q) && Segment(seg, q.l1, q.n, v)
    ensures Base(Old(q), TailWrites(q, seg), Others(q), q.h) && Old(q)[q.h] == q.base[q.h]
  {
    OldLength(q);
    assert IsHead(q.base, q.h);
    WithoutExclusive(q.lb, q.h);
    forall g: nat ensures g in Others(q) <==> IsHead(Old(q), g) && g != q.h {
      if g in Others(q) { OtherUsed(q, g); }
      assert g < q.n ==> (IsHead(Old(q), g) <==> IsHead(q.base, g));
    }
    forall g | g in Others(q) ensures Chained(Old(q), Others(q), g) { OtherInOld(q, g); }
    forall b | b in TailWrites(q, seg)
      ensures b > 0 && b !in Others(q) && b != q.h && !InChain(Others(q), b)
              && TailWrites(q, seg)[b].kind == CONTINUATION
    {
      TailWriteUnused(q, seg, v, b);
    }
  }

  lemma OtherInOld(q: Loss, g: nat)
    requires Pends(q) && g in Others(q)
    ensures Chained(Old(q), Others(q), g) && Chained(q.base, q.lb, g) && Present(Old(q), q.lb[g])
    ensures RecordAt(Old(q), g, q.lb[g]) == RecordAt(q.base, g, q.lb[g]) && Others(q)[g] == q.lb[g]
  {
    OldLength(q);
    OtherSame(q, g);
    var cs := q.lb[g];
    assert Used(Others(q), g);
    OtherUsed(q, g);
    forall i | 0 <= i < |cs| ensures cs[i] < |Old(q)| && LinkedAt(Old(q), cs, i) {
      assert LinkedAt(q.base, cs, i) && Others(q)[g][i] == cs[i];
      assert InChain(Others(q), cs[i]);
      OtherUsed(q, cs[i]);
    }
    ChainBytesFrame(q.base, Old(q), cs);
  }

  lemma TailWriteUnused(q: Loss, seg: seq<Event>, v: Versions, b: nat)
    requires Pends(q) && Segment(seg, q.l1, q.n, v) && b in TailWrites(q, seg)
    ensures b > 0 && b <= q.n && b != q.h && !Used(Others(q), b) && !Used(q.l1, b)
            && TailWrites(q, seg)[b].kind == CONTINUATION
    ensures ContinuationSegment(seg, q.l1, q.n) && b in WritesOf(seg) && TailWrites(q, seg)[b] == WritesOf(seg)[b]
  {
    SegmentPuts(seg, q.l1, q.n, v);
    WritesMembers(seg);
    var i :| 0 <= i < |seg| && seg[i] == Put(b, WritesOf(seg)[b]);
    if Used(Others(q), b) { OtherUsed(q, b); }
  }

  lemma {:induction false} SurvivesLonger(t: Table, evs: seq<Event>, j: nat, img: Table)
    requires Puts(evs) && j <= |evs| && Survives(t, evs[..j], img)
    ensures Survives(t, evs, img)
    decreases |evs| - j
  {
    if j == |evs| {
      assert evs[..j] == evs;
    } else {
      var longer := evs[..j + 1];
      assert longer[..j] == evs[..j] && longer[j] == evs[j];
      SurvivesLonger(t, evs, j + 1, img);
    }
  }

  /** The cut left nothing of the pending head: what comes back is the table that was reopened. */
  lemma CutAway(q: Loss)
    requires Pends(q) && q.h >= q.n
    ensures Old(q) == Seen(q)[..q.n]
  {
    OldLength(q);
  }

  lemma ReopenedVersions(q: Loss, v: Versions)
    requires Pends(q) && Versioned(q, v)
    ensures Sound(Seen(q)[..q.n], q.l1) && forall g: nat :: OneOf(Records(Seen(q)[..q.n], q.l1), v, g)
  {
    TruncateSound(Seen(q), q.l1, q.n - 1);
  }

  lemma PrefixRecords(t: Table, n: nat, l: Layout)
    requires n <= |t| && Sound(t, l) && Sound(t[..n], l)
    ensures Records(t[..n], l) == Records(t, l)
  {
    var u := t[..n];
    forall h | h in l ensures Records(u, l)[h] == Records(t, l)[h] {
      assert Chained(t, l, h) && Chained(u, l, h);
      ChainBytesFrame(t, u, l[h]);
    }
  }

  /** If the old chain is whole after the cut, what comes back holds the records of the synced table. */
  lemma OldRecords(q: Loss)
    requires Pends(q) && Sound(Old(q), q.lb)
    ensures Records(Old(q), q.lb) == Records(q.base, q.lb)
  {
    OldLength(q);
    hide Sound, Records, Used;
    assert Old(q) == q.base[..|Old(q)|];
    PrefixRecords(q.base, |Old(q)|, q.lb);
  }

  lemma OldVersions(q: Loss, v: Versions)
    requires Pends(q) && Versioned(q, v)
    ensures forall g: nat :: OneOf(Records(q.base, q.lb), v, g)
  {
    forall g: nat ensures OneOf(Records(q.base, q.lb), v, g) {
      if g != q.h { OtherSame(q, g); }
    }
  }

  /** Before the pending write block h held no head. */
  lemma AbsentSound(q: Loss, v: Versions)
    requires Pends(q) && Versioned(q, v) && q.h !in q.lb && q.h < q.n
    ensures Sound(Old(q), q.lb) && forall g: nat :: OneOf(Records(Old(q), q.lb), v, g)
  {
    OldLength(q);
    OldVersions(q, v);
    assert Others(q) == q.lb;
    forall b: nat | |Old(q)| - 1 < b < |q.base| ensures !Used(q.lb, b) {
      if Used(q.lb, b) { OtherUsed(q, b); }
    }
    hide OneOf, Records, Used, Pends;
    TruncateSound(q.base, q.lb, |Old(q)| - 1);
    assert q.base[..|Old(q)|] == Old(q);
  }

  lemma AbsentSegment(q: Loss, seg: seq<Event>, v: Versions)
    requires Pends(q) && q.h !in q.lb && q.h < q.n && Segment(seg, q.l1, q.n, v) && NothingPast(q, seg)
    ensures Segment(seg, q.lb, |Old(q)|, v)
  {
    OldLength(q);
    assert Others(q) == q.lb;
    SegmentPuts(seg, q.l1, q.n, v);
    forall i | 0 <= i < |seg| ensures Used(q.lb, seg[i].id) ==> Used(q.l1, seg[i].id) {
      if Used(q.lb, seg[i].id) { OtherUsed(q, seg[i].id); }
    }
    forall i | 0 <= i < |seg| ensures InChain(q.lb, seg[i].id) ==> InChain(q.l1, seg[i].id) {
      if InChain(q.lb, seg[i].id) { OtherChained(q, seg[i].id); }
    }
    forall g | g in q.l1 ensures g in q.lb || g == q.h {
      if g != q.h { OtherSame(q, g); }
    }
  }

  lemma OtherChained(q: Loss, b: nat)
    requires Pends(q) && InChain(Others(q), b)
    ensures InChain(q.l1, b)
  {
    var g, i :| g in Others(q) && 0 <= i < |Others(q)[g]| && Others(q)[g][i] == b;
    OtherSame(q, g);
    assert q.l1[g][i] == b;
  }

  // ---- One head written into another record's chain ------------------------------------------

  /** img has kept block h of t, but block b of its chain has become a head. */
  ghost predicate Overwritten(t: Table, l: Layout, h: nat, b: nat, img: Table) {
    && Sound(t, l) && h in l && b in l[h] && |t| <= |img|
    && (forall c :: 0 <= c < |t| && c != b ==> img[c] == t[c])
    && IsHead(img, b)
  }

  lemma {:induction false} ChainFollowed(t: Table, l: Layout, h: nat, b: nat, img: Table, cs: seq<nat>, i: nat, k: nat)
    requires Overwritten(t, l, h, b, img) && i < |l[h]| && l[h][i] == b && k <= i
    requires IsChain(img, t[h].block.next, cs)
    ensures k < |cs| && cs[k] == l[h][k]
  {
    assert Chained(t, l, h) && IsContinuation(t, l[h][k]);
    if k > 0 {
      ChainFollowed(t, l, h, b, img, cs, i, k - 1);
      assert LinkedAt(t, l[h], k - 1) && LinkedAt(img, cs, k - 1);
      assert l[h][k - 1] != b;
    }
  }

  lemma ChainBroken(t: Table, l: Layout, h: nat, b: nat, img: Table, cs: seq<nat>)
    requires Overwritten(t, l, h, b, img)
    ensures !IsChain(img, t[h].block.next, cs)
  {
    var i :| 0 <= i < |l[h]| && l[h][i] == b;
    if IsChain(img, t[h].block.next, cs) {
      ChainFollowed(t, l, h, b, img, cs, i, i);
    }
  }

  /** No reopening accepts such a file. */
  lemma OverwrittenNotSound(t: Table, l: Layout, h: nat, b: nat, img: Table)
    requires Overwritten(t, l, h, b, img)
    ensures forall m :: !Sound(img, m)
  {
    var i :| 0 <= i < |l[h]| && l[h][i] == b;
    assert Chained(t, l, h) && IsContinuation(t, l[h][i]);
    assert IsHead(img, h);
    forall m ensures !Sound(img, m) {
      if h in m {
        ChainBroken(t, l, h, b, img, m[h]);
        assert !Chained(img, m, h);
      }
    }
  }

  // ---- Safe ---------------------------------------------------------------------------------------

  /** The old head has come back, and every other record is as after the pending write. */
  lemma MendedVersions(q: Loss, seg: seq<Event>, v: Versions, img: Table, m: Layout)
    requires Pends(q) && Versioned(q, v) && Surfaces(q) && IsHead(q.base, q.h) && IsHead(Old(q), q.h)
    requires Old(q)[q.h] == q.base[q.h] && Mended(Old(q), Others(q), q.h, img, m, AcceptedAt(q, v))
    ensures Holds(img, v, m)
  {
    var r := Records(img, m);
    forall g: nat ensures OneOf(r, v, g) {
      if g != q.h {
        OtherSame(q, g);
        if g in Others(q) { OtherInOld(q, g); }
      }
    }
  }

  /** A continuation has taken the block of the old head, which is then gone for good. */
  lemma GoneVersions(q: Loss, seg: seq<Event>, v: Versions, img: Table)
    requires Pends(q) && Versioned(q, v) && Surfaces(q) && Segment(seg, q.l1, q.n, v)
    requires q.h in WritesOf(seg) && WritesOf(seg)[q.h].kind == CONTINUATION && q.h !in q.l1
    requires Torn(Old(q)[q.h := Full(WritesOf(seg)[q.h])], TailWrites(q, seg), img)
    ensures Holds(img, v, Others(q))
  {
    var o, u := Others(q), Old(q)[q.h := Full(WritesOf(seg)[q.h])];
    OldBase(q, seg, v);
    GoneSound(q, u);
    forall b | b in TailWrites(q, seg) ensures b > 0 && !Used(o, b) && TailWrites(q, seg)[b].kind == CONTINUATION {
      TailWriteUnused(q, seg, v, b);
    }
    TornUnused(u, TailWrites(q, seg), o, img);
    var r := Records(img, o);
    forall g: nat ensures OneOf(r, v, g) {
      if g != q.h {
        OtherSame(q, g);
      }
    }
  }

  lemma GoneSound(q: Loss, u: Table)
    requires Pends(q) && Surfaces(q)
    requires |u| == |Old(q)| && q.h < |u| && u[q.h].Full? && u[q.h].block.kind == CONTINUATION
    requires forall b: nat :: b < |u| && b != q.h ==> u[b] == Old(q)[b]
    ensures Sound(u, Others(q))
    ensures forall g :: g in Others(q) ==> g in q.lb && Records(u, Others(q))[g] == Records(q.base, q.lb)[g]
  {
    var o := Others(q);
    OldLength(q);
    WithoutExclusive(q.lb, q.h);
    forall g: nat ensures g in o <==> IsHead(u, g) {
      if g in o { OtherUsed(q, g); }
      assert g < |u| && g != q.h ==> (IsHead(u, g) <==> IsHead(q.base, g));
    }
    forall g | g in o
      ensures Chained(u, o, g) && Present(u, o[g]) && RecordAt(u, g, o[g]) == RecordAt(q.base, g, q.lb[g])
    {
      OtherInOld(q, g);
      var cs := o[g];
      forall i | 0 <= i < |cs| ensures u[cs[i]] == Old(q)[cs[i]] && LinkedAt(u, cs, i) {
        assert LinkedAt(Old(q), cs, i) && InChain(o, cs[i]);
        OtherUsed(q, cs[i]);
      }
      ChainBytesFrame(Old(q), u, cs);
    }
  }

  lemma TornTails(q: Loss, seg: seq<Event>, v: Versions, img: Table)
    requires Pends(q) && Surfaces(q) && ContinuationSegment(seg, q.l1, q.n) && Segment(seg, q.l1, q.n, v)
    requires Survives(Old(q), seg, img)
    ensures || Torn(Old(q), TailWrites(q, seg), img)
            || (q.h in WritesOf(seg) && WritesOf(seg)[q.h].kind == CONTINUATION && q.h !in q.l1
                && q.h < |Old(q)| && Torn(Old(q)[q.h := Full(WritesOf(seg)[q.h])], TailWrites(q, seg), img))
  {
    OldLength(q);
    SegmentWrites(seg, q.l1, q.n);
    SurvivesTorn(Old(q), seg, img);
    hide Survives, ContinuationSegment, Segment, Pends;
    var w, u := WritesOf(seg), Old(q);
    TornWithout(u, w, img, q.h);
    AllTails(q, seg);
    hide TailWrites, Torn;
    assert q.h in w ==> q.h !in q.l1 by { assert q.h in w ==> !Used(q.l1, q.h); }
  }

  lemma AllTails(q: Loss, seg: seq<Event>)
    requires forall b :: b in WritesOf(seg) ==> WritesOf(seg)[b].kind == CONTINUATION
    ensures TailWrites(q, seg) == WritesOf(seg) - {q.h}
  {
  }

  lemma TornWithout(u: Table, w: Writes, img: Table, h: nat)
    requires Torn(u, w, img) && h < |u|
    ensures Torn(u, w - {h}, img) || (h in w && Torn(u[h := Full(w[h])], w - {h}, img))
  {
    if img[h] != u[h] {
      assert h in w && img[h] == Full(w[h]);
    }
  }

  /** With a segment of continuations. */
  lemma TailsSafe(q: Loss, seg: seq<Event>, v: Versions, img: Table)
    requires Pends(q) && Versioned(q, v) && Surfaces(q) && ContinuationSegment(seg, q.l1, q.n)
             && Segment(seg, q.l1, q.n, v)
    requires OldReads(q, seg, v) && Survives(Old(q), seg, img)
    ensures EachOldOrNew(img, v)
  {
    TornTails(q, seg, v, img);
    OldBase(q, seg, v);
    hide Survives, Segment, Base, Torn, AcceptedAt, TailWrites;
    if Torn(Old(q), TailWrites(q, seg), img) {
      BaseHead(Old(q), TailWrites(q, seg), Others(q), q.h);
      var m := TornMends(Old(q), TailWrites(q, seg), Others(q), q.h, img, AcceptedAt(q, v));
      MendedVersions(q, seg, v, img, m);
    } else {
      GoneVersions(q, seg, v, img);
    }
  }

  lemma BaseHead(u: Table, w: Writes, o: Layout, h: nat)
    requires Base(u, w, o, h)
    ensures IsHead(u, h)
  {
  }

  /** The old chain was not cut. */
  lemma OldChainWhole(q: Loss, seg: seq<Event>, v: Versions)
    requires Pends(q) && Versioned(q, v) && Surfaces(q) && Segment(seg, q.l1, q.n, v) && OldReads(q, seg, v)
    ensures Sound(Old(q), q.lb) && forall g: nat :: OneOf(Records(Old(q), q.lb), v, g)
  {
    OldLength(q);
    OldBase(q, seg, v);
    BaseHead(Old(q), TailWrites(q, seg), Others(q), q.h);
    hide Reads, AcceptedAt, Base, TailWrites;
    TornSelf(Old(q), TailWrites(q, seg));
    var m := TornMends(Old(q), TailWrites(q, seg), Others(q), q.h, Old(q), AcceptedAt(q, v));
    MendedVersions(q, seg, v, Old(q), m);
    SameLayout(q, m);
  }

  lemma TornSelf(u: Table, w: Writes)
    ensures Torn(u, w, u)
  {
  }

  lemma SameLayout(q: Loss, m: Layout)
    requires Pends(q) && Sound(Old(q), m) && m.Keys == Others(q).Keys + {q.h} && q.h in q.lb
    ensures m == q.lb
  {
    OldLength(q);
    forall g | g in m ensures g in q.lb && m[g] == q.lb[g] {
      assert Chained(Old(q), m, g) && Chained(q.base, q.lb, g);
      forall i | 0 <= i < |m[g]| ensures LinkedAt(q.base, m[g], i) {
        assert LinkedAt(Old(q), m[g], i);
      }
      ChainUnique(q.base, q.base[g].block.next, m[g], q.lb[g]);
    }
  }

  /** The cut leaves the old chain whole, and none of the new writes is to a block of it. */
  ghost predicate SparesOldChain(q: Loss, seg: seq<Event>) {
    Surfaces(q) ==> forall i :: 0 <= i < |q.lb[q.h]| ==> q.lb[q.h][i] < q.n && q.lb[q.h][i] !in WritesOf(seg)
  }

  lemma SparedReads(q: Loss, seg: seq<Event>, v: Versions)
    requires Pends(q) && Versioned(q, v) && Puts(seg) && SparesOldChain(q, seg)
    ensures OldReads(q, seg, v)
  {
    if Surfaces(q) {
      OldLength(q);
      WritesMembers(seg);
      var cs, head := q.lb[q.h], q.base[q.h].block;
      assert Chained(q.base, q.lb, q.h) && IsHead(q.base, q.h);
      SparedTail(q, seg);
      ChainBytesFrame(q.base, Old(q), cs);
      assert Records(q.base, q.lb)[q.h] == Record(head.tag, head.data + ChainBytes(q.base, cs));
      UntouchedReads(Old(q), TailWrites(q, seg), Others(q), head.next, head.data, [], AcceptedAt(q, v), cs);
    }
  }

  lemma SparedTail(q: Loss, seg: seq<Event>)
    requires Pends(q) && SparesOldChain(q, seg) && Surfaces(q)
    ensures IsHead(q.base, q.h) && Tail(Old(q), Others(q), q.base[q.h].block.next, q.lb[q.h], [])
  {
    OldLength(q);
    var cs := q.lb[q.h];
    assert Chained(q.base, q.lb, q.h);
    forall i | 0 <= i < |cs| ensures LinkedAt(Old(q), cs, i) {
      assert LinkedAt(q.base, cs, i);
    }
  }

  lemma SingleSegment(q: Loss, seg: seq<Event>, v: Versions)
    requires Pends(q) && Surfaces(q) && Segment(seg, q.l1, q.n, v) && !ContinuationSegment(seg, q.l1, q.n)
    requires OldReads(q, seg, v) && FreesRecords(seg, q.l1)
    ensures Segment(seg, q.lb, |Old(q)|, v)
  {
    OldLength(q);
    var b := seg[0].id;
    if b != q.h { OtherSame(q, b); }
    if InChain(q.lb, b) && b !in q.lb[q.h] {
      var g, i :| g in q.lb && 0 <= i < |q.lb[g]| && q.lb[g][i] == b;
      assert Others(q)[g][i] == b;
      OtherChained(q, b);
    }
  }

  /** Every image of the lost head and the new writes holds each record old or new. */
  lemma LateSafe(q: Loss, seg: seq<Event>, v: Versions, j: nat, img: Table)
    requires Pends(q) && Versioned(q, v) && Segment(seg, q.l1, q.n, v)
    requires NothingPast(q, seg) && OldReads(q, seg, v) && FreesRecords(seg, q.l1)
    requires j <= |seg| && Survives(Old(q), seg[..j], img)
    ensures EachOldOrNew(img, v)
  {
    hide Survives, Segment, OldReads, NothingPast, EachOldOrNew, OneOf, Versioned, ContinuationSegment;
    OldLength(q);
    if q.h >= q.n {
      CutAway(q);
      ReopenedVersions(q, v);
      SegmentSafe(Old(q), q.l1, seg, v, j, img);
    } else if q.h !in q.lb {
      AbsentSound(q, v);
      AbsentSegment(q, seg, v);
      SegmentSafe(Old(q), q.lb, seg, v, j, img);
    } else if ContinuationSegment(seg, q.l1, q.n) {
      SegmentPuts(seg, q.l1, q.n, v);
      SurvivesLonger(Old(q), seg, j, img);
      TailsSafe(q, seg, v, img);
    } else {
      OldChainWhole(q, seg, v);
      SingleSegment(q, seg, v);
      SegmentSafe(Old(q), q.lb, seg, v, j, img);
    }
  }

  // ---- Not safe -------------------------------------------------------------------------------------

  lemma {:induction false} KeptOne(t: Table, evs: seq<Event>, i: nat)
    requires Puts(evs) && i < |evs| && forall j, k :: 0 <= j < k < |evs| ==> evs[j].id != evs[k].id
    ensures Kept(t, evs, {evs[i].id}) == Write(t, evs[i].id, evs[i].block)
  {
    var n := |evs| - 1;
    if i < n {
      KeptOne(t, evs[..n], i);
    } else {
      KeptNone(t, evs[..n], {evs[i].id});
    }
  }

  lemma {:induction false} KeptNone(t: Table, evs: seq<Event>, keep: set<nat>)
    requires Puts(evs) && forall j :: 0 <= j < |evs| ==> evs[j].id !in keep
    ensures Kept(t, evs, keep) == t
  {
    if evs != [] { KeptNone(t, evs[..|evs| - 1], keep); }
  }

  lemma SegmentDistinct(seg: seq<Event>, l: Layout, len: nat, v: Versions)
    requires Segment(seg, l, len, v)
    ensures forall j, k :: 0 <= j < k < |seg| ==> seg[j].Put? && seg[k].Put? && seg[j].id != seg[k].id
  {
  }

  /** A write past the pending block survives alone and leaves a hole. */
  lemma HoleUnsafe(q: Loss, seg: seq<Event>, v: Versions) returns (img: Table)
    requires Pends(q) && Segment(seg, q.l1, q.n, v) && !NothingPast(q, seg)
    ensures Survives(Old(q), seg, img) && !EachOldOrNew(img, v)
  {
    OldLength(q);
    SegmentPuts(seg, q.l1, q.n, v);
    SegmentDistinct(seg, q.l1, q.n, v);
    var i :| 0 <= i < |seg| && seg[i].id >= q.n;
    img := Kept(Old(q), seg, {seg[i].id});
    KeptSurvives(Old(q), seg, {seg[i].id});
    KeptOne(Old(q), seg, i);
    assert img[q.n - 1] == Unreadable && q.n - 1 > 0;
    forall m ensures !Holds(img, v, m) {
      assert !Readable(img);
    }
  }

  /** The old head comes back to a chain that reads as none of its versions. */
  lemma ChainUnsafe(q: Loss, seg: seq<Event>, v: Versions) returns (img: Table)
    requires Pends(q) && Surfaces(q) && Segment(seg, q.l1, q.n, v) && IsHead(q.base, q.h)
    requires !Reads(Old(q), TailWrites(q, seg), Others(q), q.base[q.h].block.next, q.base[q.h].block.data, [],
                    AcceptedAt(q, v))
    ensures Survives(Old(q), seg, img) && !EachOldOrNew(img, v)
  {
    var u, w, accept := Old(q), TailWrites(q, seg), AcceptedAt(q, v);
    OldBase(q, seg, v);
    BaseHead(u, w, Others(q), q.h);
    var p := TornFails(u, w, Others(q), q.h, accept);
    SegmentPuts(seg, q.l1, q.n, v);
    img := Kept(u, seg, p);
    KeptSurvives(u, seg, p);
    KeptAt(u, seg, p);
    PickedTails(q, seg, p, img);
    hide Kept, Survives, AcceptedAt, Base, Segment, Picked, Pends;
    forall m ensures !Holds(img, v, m) {
      if Sound(img, m) { UnacceptedFails(q, v, img, m); }
    }
  }

  lemma PickedTails(q: Loss, seg: seq<Event>, p: set<nat>, img: Table)
    requires p <= TailWrites(q, seg).Keys && |img| == |Old(q)|
    requires forall b: nat :: b < |img| ==>
               img[b] == if b in p && b in WritesOf(seg) then Full(WritesOf(seg)[b]) else Old(q)[b]
    ensures Picked(Old(q), TailWrites(q, seg), p, [], img)
  {
    forall b | b in p ensures b in WritesOf(seg) && TailWrites(q, seg)[b] == WritesOf(seg)[b] { }
  }

  lemma UnacceptedFails(q: Loss, v: Versions, img: Table, m: Layout)
    requires IsHead(q.base, q.h) && Sound(img, m) && q.h in m && Records(img, m)[q.h].tag == q.base[q.h].block.tag
    requires Records(img, m)[q.h].bytes !in AcceptedAt(q, v)
    ensures !OneOf(Records(img, m), v, q.h) && !Holds(img, v, m)
  {
  }

  /** The old head comes back, and one block of its chain has become another head. */
  lemma HeadUnsafe(q: Loss, seg: seq<Event>, v: Versions, i: nat) returns (img: Table)
    requires Pends(q) && Versioned(q, v) && Surfaces(q) && Segment(seg, q.l1, q.n, v)
    requires i < |seg| && seg[i].Put? && seg[i].block.kind == HEAD && seg[i].id in q.lb[q.h]
    requires IsHead(q.base, q.h)
    requires Reads(Old(q), TailWrites(q, seg), Others(q), q.base[q.h].block.next, q.base[q.h].block.data, [],
                   AcceptedAt(q, v))
    ensures Survives(Old(q), seg, img) && !EachOldOrNew(img, v)
  {
    var b := seg[i].id;
    assert seg == [seg[0]] && i == 0;
    img := Write(Old(q), b, seg[0].block);
    OnePutKept(Old(q), seg[0]);
    OldLength(q);
    OldBase(q, seg, v);
    BaseHead(Old(q), TailWrites(q, seg), Others(q), q.h);
    hide Reads, AcceptedAt, Base, TailWrites, Versioned, Segment, Survives;
    TornSelf(Old(q), TailWrites(q, seg));
    var m := TornMends(Old(q), TailWrites(q, seg), Others(q), q.h, Old(q), AcceptedAt(q, v));
    SameLayout(q, m);
    ChainTaken(Old(q), q.lb, q.h, b, seg[0].block);
  }

  lemma ChainTaken(t: Table, l: Layout, h: nat, b: nat, y: Block)
    requires Sound(t, l) && h in l && b in l[h] && y.kind == HEAD
    ensures forall m :: !Sound(Write(t, b, y), m)
  {
    var j :| 0 <= j < |l[h]| && l[h][j] == b;
    assert Chained(t, l, h) && IsContinuation(t, l[h][j]);
    OverwrittenNotSound(t, l, h, b, Write(t, b, y));
  }

  /** Exactly when every image of the lost head and the new writes holds each record old or new. */
  lemma LateSafeExactly(q: Loss, seg: seq<Event>, v: Versions)
    requires Pends(q) && Versioned(q, v) && Segment(seg, q.l1, q.n, v) && FreesRecords(seg, q.l1)
    ensures (forall j: nat, img :: j <= |seg| && Survives(Old(q), seg[..j], img) ==> EachOldOrNew(img, v))
            <==> NothingPast(q, seg) && OldReads(q, seg, v)
  {
    hide Survives, Segment, EachOldOrNew, Versioned, NothingPast, Reads, AcceptedAt, Pends;
    if NothingPast(q, seg) && OldReads(q, seg, v) {
      forall j: nat, img | j <= |seg| && Survives(Old(q), seg[..j], img) ensures EachOldOrNew(img, v) {
        LateSafe(q, seg, v, j, img);
      }
    } else {
      var img := LateUnsafe(q, seg, v);
      assert seg[..|seg|] == seg;
    }
  }

  lemma LateUnsafe(q: Loss, seg: seq<Event>, v: Versions) returns (img: Table)
    requires Pends(q) && Versioned(q, v) && Segment(seg, q.l1, q.n, v)
    requires !(NothingPast(q, seg) && OldReads(q, seg, v))
    ensures Survives(Old(q), seg, img) && !EachOldOrNew(img, v)
  {
    hide Survives, Segment, EachOldOrNew, Versioned, NothingPast, Reads, AcceptedAt;
    if !NothingPast(q, seg) {
      img := HoleUnsafe(q, seg, v);
    } else {
      assert IsHead(q.base, q.h);
      if !Reads(Old(q), TailWrites(q, seg), Others(q), q.base[q.h].block.next, q.base[q.h].block.data, [],
        AcceptedAt(q, v)) {
        img := ChainUnsafe(q, seg, v);
      } else {
        var i :| 0 <= i < |seg| && seg[i].Put? && seg[i].block.kind == HEAD && seg[i].id in q.lb[q.h];
        img := HeadUnsafe(q, seg, v, i);
      }
    }
  }
}
