/** Writing one record as a chain of blocks, continuations first and head last, and freeing one:
    what the file holds afterwards, and what it may hold after a crash on the way. */
module ChainWrite {
  import opened Codec
  import opened BlockTable

  function ChainBlock(ids: seq<nat>, pieces: seq<Bytes>, tag: nat, i: nat): Block
    requires i < |ids| == |pieces|
  {
    Block(if i == 0 then HEAD else CONTINUATION, if i == 0 then tag else 0, Link(ids, i + 1), pieces[i])
  }

  /** The continuations, last one first. */
  function ContinuationEvents(ids: seq<nat>, pieces: seq<Bytes>): (evs: seq<Event>)
    requires 0 < |ids| == |pieces|
    ensures |evs| == |ids| - 1
  {
    seq(|ids| - 1, j requires 0 <= j < |ids| - 1 =>
      Put(ids[|ids| - 1 - j], ChainBlock(ids, pieces, 0, |ids| - 1 - j)))
  }

  function SyncIf(c: bool): seq<Event> {
    if c then [Sync] else []
  }

  function BodyEvents(ids: seq<nat>, pieces: seq<Bytes>, durable: bool): seq<Event>
    requires 0 < |ids| == |pieces|
  {
    ContinuationEvents(ids, pieces) + SyncIf(durable && |ids| > 1)
  }

  function HeadEvents(ids: seq<nat>, pieces: seq<Bytes>, tag: nat, durable: bool): seq<Event>
    requires 0 < |ids| == |pieces|
  {
    [Put(ids[0], ChainBlock(ids, pieces, tag, 0))] + SyncIf(durable)
  }

  function ChainEvents(ids: seq<nat>, pieces: seq<Bytes>, tag: nat, durable: bool): seq<Event>
    requires 0 < |ids| == |pieces|
  {
    BodyEvents(ids, pieces, durable) + HeadEvents(ids, pieces, tag, durable)
  }

  ghost predicate Distinct(ids: seq<nat>) {
    forall i, j :: 0 <= i < j < |ids| ==> ids[i] != ids[j]
  }

  // ---- After the writes -------------------------------------------------------------

  ghost predicate Untouched(evs: seq<Event>, b: nat) {
    forall i :: 0 <= i < |evs| ==> evs[i].Put? ==> evs[i].id != b
  }

  lemma {:induction false} PutsApply(t: Table, evs: seq<Event>)
    requires forall i :: 0 <= i < |evs| ==> evs[i].Put?
    requires forall i, j :: 0 <= i < j < |evs| ==> evs[i].id != evs[j].id
    ensures var u := Apply(t, evs);
            && |t| <= |u|
            && (forall i :: 0 <= i < |evs| ==> evs[i].id < |u| && u[evs[i].id] == Full(evs[i].block))
            && (forall b :: 0 <= b < |u| && Untouched(evs, b) ==> u[b] == if b < |t| then t[b] else Unreadable)
            && (|u| == |t| || exists i :: 0 <= i < |evs| && |u| == evs[i].id + 1)
  {
    if evs != [] {
      var n := |evs| - 1;
      var before := evs[..n];
      PutsApply(t, before);
      var u, v := Apply(t, before), Apply(t, evs);
      forall i | 0 <= i < n ensures evs[i].id < |v| && v[evs[i].id] == Full(evs[i].block) {
        assert before[i] == evs[i];
      }
      forall b | 0 <= b < |v| && Untouched(evs, b) ensures v[b] == if b < |t| then t[b] else Unreadable {
        assert evs[n].id != b;
        assert Untouched(before, b);
      }
      if |v| != |t| && |v| == |u| {
        var i :| 0 <= i < |before| && |u| == before[i].id + 1;
        assert |v| == evs[i].id + 1;
      }
    }
  }

  ghost predicate Off(ids: seq<nat>, k: nat, b: nat) {
    forall i :: k <= i < |ids| ==> ids[i] != b
  }

  /** u is t with blocks k and up of the chain written and nothing else changed. */
  ghost predicate Wrote(t: Table, u: Table, ids: seq<nat>, pieces: seq<Bytes>, tag: nat, k: nat)
    requires |ids| == |pieces|
  {
    && |t| <= |u|
    && (forall i :: k <= i < |ids| ==> ids[i] < |u| && u[ids[i]] == Full(ChainBlock(ids, pieces, tag, i)))
    && (forall b :: 0 <= b < |u| && Off(ids, k, b) ==> u[b] == if b < |t| then t[b] else Unreadable)
    && (|u| == |t| || exists i :: k <= i < |ids| && |u| == ids[i] + 1)
  }

  lemma ContinuationEventAt(ids: seq<nat>, pieces: seq<Bytes>, i: nat)
    requires 0 < i < |ids| == |pieces|
    ensures ContinuationEvents(ids, pieces)[|ids| - 1 - i] == Put(ids[i], ChainBlock(ids, pieces, 0, i))
  {
  }

  lemma ContinuationsApplied(t: Table, ids: seq<nat>, pieces: seq<Bytes>)
    requires 0 < |ids| == |pieces| && Distinct(ids)
    ensures Wrote(t, Apply(t, ContinuationEvents(ids, pieces)), ids, pieces, 0, 1)
  {
    var evs, n := ContinuationEvents(ids, pieces), |ids|;
    PutsApply(t, evs);
    var u := Apply(t, evs);
    forall i | 1 <= i < n ensures ids[i] < |u| && u[ids[i]] == Full(ChainBlock(ids, pieces, 0, i)) {
      ContinuationEventAt(ids, pieces, i);
    }
    forall b | 0 <= b < |u| && Off(ids, 1, b) ensures Untouched(evs, b) {
      OffUntouched(ids, pieces, b);
    }
    if |u| != |t| {
      var j :| 0 <= j < |evs| && |u| == evs[j].id + 1;
      ContinuationEventAt(ids, pieces, n - 1 - j);
    }
  }

  lemma OffUntouched(ids: seq<nat>, pieces: seq<Bytes>, b: nat)
    requires 0 < |ids| == |pieces| && Off(ids, 1, b)
    ensures Untouched(ContinuationEvents(ids, pieces), b)
  {
    var evs := ContinuationEvents(ids, pieces);
    forall j | 0 <= j < |evs| ensures evs[j].Put? && evs[j].id != b {
      ContinuationEventAt(ids, pieces, |ids| - 1 - j);
    }
  }

  lemma BodyApplied(t: Table, ids: seq<nat>, pieces: seq<Bytes>, durable: bool)
    requires 0 < |ids| == |pieces| && Distinct(ids)
    ensures Wrote(t, Apply(t, BodyEvents(ids, pieces, durable)), ids, pieces, 0, 1)
  {
    var evs, sync := ContinuationEvents(ids, pieces), SyncIf(durable && |ids| > 1);
    ContinuationsApplied(t, ids, pieces);
    ApplyConcat(t, evs, sync);
    SyncApplied(Apply(t, evs), durable && |ids| > 1);
  }

  lemma SyncApplied(t: Table, c: bool)
    ensures Apply(t, SyncIf(c)) == t
  {
    assert [Sync][..0] == [];
  }

  lemma PutApplied(t: Table, id: nat, b: Block, durable: bool)
    ensures Apply(t, [Put(id, b)] + SyncIf(durable)) == Write(t, id, b)
  {
    ApplyConcat(t, [Put(id, b)], SyncIf(durable));
    SyncApplied(Apply(t, [Put(id, b)]), durable);
    assert [Put(id, b)][..0] == [];
  }

  lemma ChainApplied(t: Table, ids: seq<nat>, pieces: seq<Bytes>, tag: nat, durable: bool)
    requires 0 < |ids| == |pieces|
    ensures var mid := Apply(t, BodyEvents(ids, pieces, durable));
            Apply(t, ChainEvents(ids, pieces, tag, durable)) == Write(mid, ids[0], ChainBlock(ids, pieces, tag, 0))
  {
    var mid := Apply(t, BodyEvents(ids, pieces, durable));
    ApplyConcat(t, BodyEvents(ids, pieces, durable), HeadEvents(ids, pieces, tag, durable));
    PutApplied(mid, ids[0], ChainBlock(ids, pieces, tag, 0), durable);
  }

  lemma ChainWrote(t: Table, ids: seq<nat>, pieces: seq<Bytes>, tag: nat, durable: bool)
    requires 0 < |ids| == |pieces| && Distinct(ids)
    ensures Wrote(t, Apply(t, ChainEvents(ids, pieces, tag, durable)), ids, pieces, tag, 0)
  {
    BodyApplied(t, ids, pieces, durable);
    ChainApplied(t, ids, pieces, tag, durable);
    var mid, u := Apply(t, BodyEvents(ids, pieces, durable)), Apply(t, ChainEvents(ids, pieces, tag, durable));
    forall i | 0 <= i < |ids| ensures ids[i] < |u| && u[ids[i]] == Full(ChainBlock(ids, pieces, tag, i)) {
      if i > 0 { assert ids[0] != ids[i]; }
    }
    forall b | 0 <= b < |u| && Off(ids, 0, b) ensures u[b] == if b < |t| then t[b] else Unreadable {
      assert ids[0] != b;
      assert Off(ids, 1, b);
    }
  }

  // ---- The head commits the chain ---------------------------------------------------

  /** ids may carry a new chain: the head is in no chain, the rest are not in use at all. */
  ghost predicate MayCarry(l: Layout, ids: seq<nat>) {
    && ids != [] && Distinct(ids)
    && (forall i :: 0 <= i < |ids| ==> ids[i] > 0 && !InChain(l, ids[i]))
    && (forall i :: 0 < i < |ids| ==> ids[i] !in l)
  }

  /** u is readable and is t with exactly this chain written. */
  ghost predicate Committed(t: Table, u: Table, l: Layout, ids: seq<nat>, pieces: seq<Bytes>, tag: nat) {
    && |ids| == |pieces| && Sound(t, l) && MayCarry(l, ids)
    && Wrote(t, u, ids, pieces, tag, 0) && Readable(u)
  }

  lemma {:induction false} ChainBytesWritten(u: Table, ids: seq<nat>, pieces: seq<Bytes>, tag: nat, k: nat)
    requires 0 < k <= |ids| == |pieces|
    requires forall i :: 0 <= i < |ids| ==> ids[i] < |u| && u[ids[i]] == Full(ChainBlock(ids, pieces, tag, i))
    ensures Present(u, ids[k..]) && ChainBytes(u, ids[k..]) == Flatten(pieces[k..])
    decreases |ids| - k
  {
    if k < |ids| {
      ChainBytesWritten(u, ids, pieces, tag, k + 1);
      assert ids[k..][1..] == ids[k + 1..] && pieces[k..][1..] == pieces[k + 1..];
    }
  }

  lemma OffUsed(l: Layout, ids: seq<nat>, b: nat)
    requires MayCarry(l, ids)
    requires InChain(l, b) || (b in l && b != ids[0])
    ensures Off(ids, 0, b)
  {
  }

  lemma OthersUntouched(t: Table, u: Table, l: Layout, ids: seq<nat>, pieces: seq<Bytes>, tag: nat, g: nat)
    requires Committed(t, u, l, ids, pieces, tag)
    requires g in l && g != ids[0]
    ensures IsHead(u, g) && IsChain(u, u[g].block.next, l[g])
    ensures Present(u, l[g]) && RecordAt(u, g, l[g]) == RecordAt(t, g, l[g])
    ensures u[g] == t[g]
  {
    var cs := l[g];
    assert Chained(t, l, g);
    OffUsed(l, ids, g);
    forall i | 0 <= i < |cs| ensures u[cs[i]] == t[cs[i]] && LinkedAt(u, cs, i) {
      assert LinkedAt(t, cs, i);
      assert InChain(l, cs[i]);
      OffUsed(l, ids, cs[i]);
    }
    ChainBytesFrame(t, u, cs);
  }

  lemma NewRecord(u: Table, ids: seq<nat>, pieces: seq<Bytes>, tag: nat)
    requires 0 < |ids| == |pieces| && forall i :: 0 <= i < |ids| ==> ids[i] > 0
    requires forall i :: 0 <= i < |ids| ==> ids[i] < |u| && u[ids[i]] == Full(ChainBlock(ids, pieces, tag, i))
    ensures IsHead(u, ids[0]) && IsChain(u, u[ids[0]].block.next, ids[1..])
    ensures Present(u, ids[1..]) && RecordAt(u, ids[0], ids[1..]) == Record(tag, Flatten(pieces))
  {
    var cs := ids[1..];
    forall i | 0 <= i < |cs| ensures LinkedAt(u, cs, i) {
      assert cs[i] == ids[i + 1];
    }
    ChainBytesWritten(u, ids, pieces, tag, 1);
  }

  lemma CommitExclusive(l: Layout, ids: seq<nat>)
    requires Exclusive(l) && MayCarry(l, ids)
    ensures Exclusive(l[ids[0] := ids[1..]])
  {
    var m := l[ids[0] := ids[1..]];
    forall g, i, h, j | g in m && h in m && 0 <= i < |m[g]| && 0 <= j < |m[h]| && m[g][i] == m[h][j]
      ensures g == h && i == j
    {
      if g == ids[0] && h != ids[0] {
        assert InChain(l, ids[i + 1]);
      } else if g != ids[0] && h == ids[0] {
        assert InChain(l, ids[j + 1]);
      }
    }
  }

  lemma CommitHeads(t: Table, u: Table, l: Layout, ids: seq<nat>, pieces: seq<Bytes>, tag: nat, g: nat)
    requires Committed(t, u, l, ids, pieces, tag)
    ensures g in l || g == ids[0] <==> IsHead(u, g)
  {
    NewRecord(u, ids, pieces, tag);
    if g in l && g != ids[0] {
      OthersUntouched(t, u, l, ids, pieces, tag, g);
    }
    if IsHead(u, g) && g != ids[0] {
      if Off(ids, 0, g) {
        assert IsHead(t, g);
      }
    }
  }

  lemma CommitSound(t: Table, u: Table, l: Layout, ids: seq<nat>, pieces: seq<Bytes>, tag: nat)
    requires Committed(t, u, l, ids, pieces, tag)
    ensures Sound(u, l[ids[0] := ids[1..]])
  {
    var m := l[ids[0] := ids[1..]];
    forall g: nat ensures g in m <==> IsHead(u, g) {
      CommitHeads(t, u, l, ids, pieces, tag, g);
    }
    forall g | g in m ensures Chained(u, m, g) {
      if g == ids[0] {
        NewRecord(u, ids, pieces, tag);
      } else {
        OthersUntouched(t, u, l, ids, pieces, tag, g);
      }
    }
    CommitExclusive(l, ids);
  }

  /** Writing the chain replaces one record as a whole and no other. */
  lemma ChainCommits(t: Table, u: Table, l: Layout, ids: seq<nat>, pieces: seq<Bytes>, tag: nat)
    requires Committed(t, u, l, ids, pieces, tag)
    ensures var m := l[ids[0] := ids[1..]];
            && Sound(u, m)
            && Records(u, m) == Records(t, l)[ids[0] := Record(tag, Flatten(pieces))]
  {
    var h, m := ids[0], l[ids[0] := ids[1..]];
    CommitSound(t, u, l, ids, pieces, tag);
    NewRecord(u, ids, pieces, tag);
    var before, after := Records(t, l), Records(u, m);
    forall g | g in l && g != h ensures after[g] == before[g] {
      OthersUntouched(t, u, l, ids, pieces, tag, g);
    }
    MapPut(before, after, h);
  }

  lemma MapPut<V>(before: map<nat, V>, after: map<nat, V>, h: nat)
    requires h in after && forall g :: g in after <==> g in before || g == h
    requires forall g :: g in before && g != h ==> after[g] == before[g]
    ensures after == before[h := after[h]]
  {
  }

  const FREE_BLOCK := Block(FREE, 0, 0, [])

  ghost function Without(l: Layout, id: nat): Layout {
    map h | h in l && h != id :: l[h]
  }

  lemma OthersKept(t: Table, l: Layout, id: nat, g: nat)
    requires Sound(t, l) && id in l && g in l && g != id
    ensures var u := Write(t, id, FREE_BLOCK);
            && IsHead(u, g) && IsChain(u, u[g].block.next, l[g])
            && Present(u, l[g]) && RecordAt(u, g, l[g]) == RecordAt(t, g, l[g])
  {
    var u, cs := Write(t, id, FREE_BLOCK), l[g];
    assert Chained(t, l, id) && Chained(t, l, g);
    forall i | 0 <= i < |cs| ensures u[cs[i]] == t[cs[i]] && LinkedAt(u, cs, i) {
      assert LinkedAt(t, cs, i);
    }
    ChainBytesFrame(t, u, cs);
  }

  /** One block write removes a record; its continuations fall out of use with it. */
  lemma FreeCommits(t: Table, l: Layout, id: nat)
    requires Sound(t, l) && id in l
    ensures var u := Write(t, id, FREE_BLOCK);
            && Sound(u, Without(l, id))
            && Records(u, Without(l, id)) == Records(t, l) - {id}
  {
    var u, m := Write(t, id, FREE_BLOCK), Without(l, id);
    forall g | g in m ensures Chained(u, m, g) {
      OthersKept(t, l, id, g);
    }
    FreeHeads(t, l, id);
    WithoutExclusive(l, id);
    var before, after := Records(t, l), Records(u, m);
    forall g | g in m ensures after[g] == before[g] {
      OthersKept(t, l, id, g);
    }
    MapWithout(before, after, id);
  }

  lemma MapWithout<V>(before: map<nat, V>, after: map<nat, V>, id: nat)
    requires forall g :: g in after <==> g in before && g != id
    requires forall g :: g in after ==> after[g] == before[g]
    ensures after == before - {id}
  {
  }

  lemma WithoutExclusive(l: Layout, id: nat)
    requires Exclusive(l)
    ensures Exclusive(Without(l, id))
  {
  }

  lemma FreeHeads(t: Table, l: Layout, id: nat)
    requires Sound(t, l) && id in l
    ensures var u := Write(t, id, FREE_BLOCK);
            Readable(u) && forall g :: g in Without(l, id) <==> IsHead(u, g)
  {
    var u := Write(t, id, FREE_BLOCK);
    assert IsHead(t, id);
    forall g: nat ensures g in Without(l, id) <==> IsHead(u, g) {
      if g < |t| && g != id { assert IsHead(u, g) <==> IsHead(t, g); }
    }
  }

  // ---- Which blocks are in use afterwards ----------------------------------------------

  lemma HeadsAreNotChained(t: Table, l: Layout, h: nat)
    requires Sound(t, l) && h in l
    ensures !InChain(l, h)
  {
    forall g, i | g in l && 0 <= i < |l[g]| ensures l[g][i] != h {
      assert Chained(t, l, g) && Chained(t, l, h);
    }
  }

  ghost function Chain(l: Layout, id: nat): seq<nat> {
    if id in l then l[id] else []
  }

  lemma UsedAfterCommit(t: Table, l: Layout, ids: seq<nat>, b: nat)
    requires Sound(t, l) && MayCarry(l, ids)
    ensures Used(l[ids[0] := ids[1..]], b) <==> b in ids || (Used(l, b) && b !in Chain(l, ids[0]))
  {
    var m, h := l[ids[0] := ids[1..]], ids[0];
    if b in ids[1..] {
      var i :| 0 <= i < |ids[1..]| && ids[1..][i] == b;
      assert m[h][i] == b;
      assert InChain(m, b);
    }
    if InChain(m, b) {
      var g, i :| g in m && 0 <= i < |m[g]| && m[g][i] == b;
      if g != h {
        assert l[g][i] == b;
        assert InChain(l, b);
      }
    }
    if InChain(l, b) && b !in Chain(l, h) {
      var g, i :| g in l && 0 <= i < |l[g]| && l[g][i] == b;
      assert m[g][i] == b;
      assert InChain(m, b);
    }
    if b in l {
      HeadsAreNotChained(t, l, b);
    }
    assert ids == [h] + ids[1..];
  }

  lemma UsedAfterFree(t: Table, l: Layout, id: nat, b: nat)
    requires Sound(t, l) && id in l
    ensures Used(Without(l, id), b) <==> Used(l, b) && b != id && b !in l[id]
  {
    var m := Without(l, id);
    HeadsAreNotChained(t, l, id);
    if InChain(m, b) {
      var g, i :| g in m && 0 <= i < |m[g]| && m[g][i] == b;
      assert l[g][i] == b;
      assert InChain(l, b);
    }
    if InChain(l, b) && b !in l[id] {
      var g, i :| g in l && 0 <= i < |l[g]| && l[g][i] == b;
      assert g in m && m[g][i] == b;
      assert InChain(m, b);
    }
    if b in l && b in l[id] {
      HeadsAreNotChained(t, l, b);
    }
  }

  // ---- Crashes ---------------------------------------------------------------------

  /** In durable mode, a crash while a chain is written leaves the record either fully old or
      fully new and every other record alone, provided at most one block lies past the end. */
  lemma ChainCrash(t: Table, l: Layout, ids: seq<nat>, pieces: seq<Bytes>, tag: nat, img: Table)
    requires Sound(t, l) && MayCarry(l, ids) && |ids| == |pieces|
    requires forall i :: 0 <= i < |ids| ==> ids[i] <= |t|
    requires CrashImage(t, ChainEvents(ids, pieces, tag, true), img)
    ensures || (Sound(img, l) && Records(img, l) == Records(t, l))
            || (Sound(img, l[ids[0] := ids[1..]])
                && Records(img, l[ids[0] := ids[1..]]) == Records(t, l)[ids[0] := Record(tag, Flatten(pieces))])
  {
    var body, tail := BodyEvents(ids, pieces, true), HeadEvents(ids, pieces, tag, true);
    var mid, u := Apply(t, body), Apply(t, ChainEvents(ids, pieces, tag, true));
    CrashSplit(t, body, tail, img);
    ChainApplied(t, ids, pieces, tag, true);
    if CrashImage(mid, tail, img) {
      OnePutCrash(mid, ids[0], ChainBlock(ids, pieces, tag, 0), img);
    }
    if img == u {
      NoHole(t, ids, pieces, tag);
      ChainCommits(t, u, l, ids, pieces, tag);
    } else {
      CompleteSurvives(t, body);
      assert body[..|body|] == body;
      BodyCrash(t, l, ids, pieces, img);
    }
  }

  lemma NoHole(t: Table, ids: seq<nat>, pieces: seq<Bytes>, tag: nat)
    requires 0 < |ids| == |pieces| && Distinct(ids) && Readable(t)
    requires forall i :: 0 <= i < |ids| ==> ids[i] <= |t|
    ensures Wrote(t, Apply(t, ChainEvents(ids, pieces, tag, true)), ids, pieces, tag, 0)
    ensures Readable(Apply(t, ChainEvents(ids, pieces, tag, true)))
  {
    ChainWrote(t, ids, pieces, tag, true);
    var u := Apply(t, ChainEvents(ids, pieces, tag, true));
    forall b | 0 < b < |u| ensures u[b].Full? {
      if !Off(ids, 0, b) {
        var i :| 0 <= i < |ids| && ids[i] == b;
        assert u[ids[i]] == Full(ChainBlock(ids, pieces, tag, i));
      }
    }
  }

  ghost function Spare(ids: seq<nat>): set<nat> {
    set i | 0 < i < |ids| :: ids[i]
  }

  lemma SpareUnused(l: Layout, ids: seq<nat>)
    requires MayCarry(l, ids)
    ensures forall b :: b in Spare(ids) ==> 0 < b && !Used(l, b)
  {
  }

  lemma ContinuationsSpare(t: Table, ids: seq<nat>, pieces: seq<Bytes>, k: nat)
    requires 0 < |ids| == |pieces| && k < |ids|
    requires forall i :: 0 <= i < |ids| ==> ids[i] <= |t|
    ensures SpareWrites(t, ContinuationEvents(ids, pieces)[..k], Spare(ids))
  {
    var evs := ContinuationEvents(ids, pieces)[..k];
    forall j | 0 <= j < |evs|
      ensures evs[j].Put? && evs[j].id in Spare(ids) && evs[j].id <= |t| && evs[j].block.kind == CONTINUATION
    {
      ContinuationEventAt(ids, pieces, |ids| - 1 - j);
    }
  }

  lemma BodyCrash(t: Table, l: Layout, ids: seq<nat>, pieces: seq<Bytes>, img: Table)
    requires Sound(t, l) && MayCarry(l, ids) && |ids| == |pieces|
    requires forall i :: 0 <= i < |ids| ==> ids[i] <= |t|
    requires CrashImage(t, BodyEvents(ids, pieces, true), img)
    ensures Sound(img, l) && Records(img, l) == Records(t, l)
  {
    var evs, body := ContinuationEvents(ids, pieces), BodyEvents(ids, pieces, true);
    SpareUnused(l, ids);
    var k :| 0 <= k <= |body| && Survives(t, body[..k], img);
    if k <= |evs| {
      assert body[..k] == evs[..k];
      ContinuationsSpare(t, ids, pieces, k);
      SpareWritesHarmless(t, evs[..k], Spare(ids), img);
    } else {
      assert body[..k] == body && body[..|body| - 1] == evs == evs[..|evs|];
      CompleteSurvives(t, evs);
      ContinuationsSpare(t, ids, pieces, |evs|);
      SpareWritesHarmless(t, evs, Spare(ids), Apply(t, evs));
    }
    HarmlessKeepsRecords(t, img, Spare(ids), l);
  }

  lemma OnePutCrash(t: Table, id: nat, b: Block, img: Table)
    requires CrashImage(t, [Put(id, b)] + SyncIf(true), img)
    ensures img == t || img == Write(t, id, b)
  {
    var put, evs := [Put(id, b)], [Put(id, b)] + SyncIf(true);
    assert put[..0] == [];
    assert Survives(t, [], t);
    var k :| 0 <= k <= |evs| && Survives(t, evs[..k], img);
    if k == 0 {
      assert evs[..k] == [];
    } else if k == 1 {
      assert evs[..k] == put;
      assert Survives(t, put, img);
      var before := put[..|put| - 1];
      var kept :| Survives(t, before, kept) && (img == kept || img == Write(kept, id, b));
    } else {
      assert evs[..k] == evs && evs[1] == Sync;
      PutApplied(t, id, b, true);
    }
  }

  /** Adding two or more blocks past the end is not crash safe: the highest is written first, and
      a crash that keeps only it leaves an unwritten hole that no reopening accepts. */
  lemma GrowthByTwoLeavesHole(t: Table, ids: seq<nat>, pieces: seq<Bytes>, tag: nat, durable: bool) returns (img: Table)
    requires 1 < |ids| == |pieces| && |t| >= 1
    requires ids[|ids| - 1] > |t|
    ensures CrashImage(t, ChainEvents(ids, pieces, tag, durable), img)
    ensures forall l :: !Sound(img, l)
  {
    var evs, last := ChainEvents(ids, pieces, tag, durable), ids[|ids| - 1];
    assert evs[..1] == [Put(last, ChainBlock(ids, pieces, 0, |ids| - 1))];
    img := Apply(t, evs[..1]);
    CompleteSurvives(t, evs[..1]);
    assert evs[..1][..0] == [];
    assert img[|t|] == Unreadable;
  }
}
