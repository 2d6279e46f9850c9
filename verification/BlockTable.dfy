/** The blocks of one store file as they read back, the writes that reach them, what a crash may
    leave of those writes, and the chains of blocks that make up records. */
module BlockTable {
  import opened Codec

  /** What reading a block gives: a block, or an exception (never written, or not authentic). */
  datatype Cell = Unreadable | Full(block: Block)

  /** Entry 0 is the file header; data blocks are entries 1 and up. */
  type Table = seq<Cell>

  datatype Event = Put(id: nat, block: Block) | Sync

  function Write(t: Table, id: nat, b: Block): (r: Table)
    ensures |r| == if id < |t| then |t| else id + 1
    ensures r[id] == Full(b)
    ensures forall i :: 0 <= i < |r| && i != id ==> r[i] == if i < |t| then t[i] else Unreadable
  {
    if id < |t| then t[id := Full(b)] else t + seq(id - |t|, _ => Unreadable) + [Full(b)]
  }

  function ApplyOne(t: Table, e: Event): Table {
    match e
    case Put(id, b) => Write(t, id, b)
    case Sync => t
  }

  function Apply(t: Table, evs: seq<Event>): Table {
    if evs == [] then t else ApplyOne(Apply(t, evs[..|evs| - 1]), evs[|evs| - 1])
  }

  lemma {:induction false} ApplyConcat(t: Table, a: seq<Event>, b: seq<Event>)
    ensures Apply(t, a + b) == Apply(Apply(t, a), b)
  {
    if b == [] {
      assert a + b == a;
    } else {
      var n := |b| - 1;
      assert (a + b)[..|a + b| - 1] == a + b[..n];
      ApplyConcat(t, a, b[..n]);
    }
  }

  // ---- Crashes ---------------------------------------------------------------------

  /** img may be on disk after a crash that follows evs, started from the synced table t:
      everything up to the last Sync, and any subset of the later writes. */
  ghost predicate Survives(t: Table, evs: seq<Event>, img: Table) {
    if evs == [] then img == t
    else
      var before, last := evs[..|evs| - 1], evs[|evs| - 1];
      match last
      case Sync => img == Apply(t, evs)
      case Put(id, b) => exists kept :: Survives(t, before, kept) && (img == kept || img == Write(kept, id, b))
  }

  /** A crash at any point while evs are being issued. */
  ghost predicate CrashImage(t: Table, evs: seq<Event>, img: Table) {
    exists k :: 0 <= k <= |evs| && Survives(t, evs[..k], img)
  }

  /** Everything before a Sync is as if the run had started after it. */
  lemma {:induction false} SurvivesAfterSync(t: Table, a: seq<Event>, b: seq<Event>, img: Table)
    requires a != [] && a[|a| - 1] == Sync
    ensures Survives(t, a + b, img) <==> Survives(Apply(t, a), b, img)
  {
    var evs := a + b;
    if b == [] {
      assert evs == a;
    } else {
      var n := |b| - 1;
      assert evs[..|evs| - 1] == a + b[..n];
      ApplyConcat(t, a, b);
      forall kept ensures Survives(t, a + b[..n], kept) <==> Survives(Apply(t, a), b[..n], kept) {
        SurvivesAfterSync(t, a, b[..n], kept);
      }
    }
  }

  /** A crash while a + b is issued, where a ends in a Sync, is a crash in a or one in b. */
  lemma CrashSplit(t: Table, a: seq<Event>, b: seq<Event>, img: Table)
    requires a != [] ==> a[|a| - 1] == Sync
    ensures CrashImage(t, a + b, img) <==> CrashImage(t, a, img) || CrashImage(Apply(t, a), b, img)
  {
    var evs := a + b;
    if a == [] {
      assert evs == b;
      if CrashImage(t, a, img) {
        assert Survives(t, evs[..0], img);
      }
      return;
    }
    if CrashImage(t, evs, img) {
      var k :| 0 <= k <= |evs| && Survives(t, evs[..k], img);
      if k <= |a| {
        assert evs[..k] == a[..k];
      } else {
        assert evs[..k] == a + b[..k - |a|];
        SurvivesAfterSync(t, a, b[..k - |a|], img);
      }
    }
    if CrashImage(t, a, img) {
      var k :| 0 <= k <= |a| && Survives(t, a[..k], img);
      assert evs[..k] == a[..k];
    }
    if CrashImage(Apply(t, a), b, img) {
      var k :| 0 <= k <= |b| && Survives(Apply(t, a), b[..k], img);
      assert evs[..|a| + k] == a + b[..k];
      SurvivesAfterSync(t, a, b[..k], img);
    }
  }

  /** The completed events are themselves one of the possible images. */
  lemma {:induction false} CompleteSurvives(t: Table, evs: seq<Event>)
    ensures Survives(t, evs, Apply(t, evs))
  {
    if evs != [] {
      CompleteSurvives(t, evs[..|evs| - 1]);
    }
  }

  /** After a Sync there is nothing to lose. */
  lemma SyncedSurvives(t: Table, evs: seq<Event>, kept: Table)
    requires Survives(t, evs, kept) && (evs == [] || evs[|evs| - 1] == Sync)
    ensures kept == Apply(t, evs)
  {
  }

  /** Continuation writes confined to spare leave every other block of t alone, and add at
      most the one block that follows the end of t. */
  ghost predicate Harmless(t: Table, img: Table, spare: set<nat>) {
    && |t| <= |img| <= |t| + 1
    && forall b :: 0 <= b < |img| ==>
         || (b < |t| && img[b] == t[b])
         || (b in spare && img[b].Full? && img[b].block.kind == CONTINUATION)
  }

  ghost predicate SpareWrites(t: Table, evs: seq<Event>, spare: set<nat>) {
    forall i :: 0 <= i < |evs| ==>
      evs[i].Put? && evs[i].id in spare && evs[i].id <= |t| && evs[i].block.kind == CONTINUATION
  }

  lemma {:induction false} SpareWritesHarmless(t: Table, evs: seq<Event>, spare: set<nat>, img: Table)
    requires SpareWrites(t, evs, spare)
    requires Survives(t, evs, img)
    ensures Harmless(t, img, spare)
  {
    if evs != [] {
      var before, last := evs[..|evs| - 1], evs[|evs| - 1];
      var kept :| Survives(t, before, kept) && (img == kept || img == Write(kept, last.id, last.block));
      SpareWritesHarmless(t, before, spare, kept);
    }
  }

  // ---- Chains ----------------------------------------------------------------------

  type Layout = map<nat, seq<nat>>

  datatype Record = Record(tag: nat, bytes: Bytes)

  predicate IsHead(t: Table, b: nat) {
    0 < b < |t| && t[b].Full? && t[b].block.kind == HEAD
  }

  predicate IsContinuation(t: Table, b: nat) {
    0 < b < |t| && t[b].Full? && t[b].block.kind == CONTINUATION
  }

  function Link(cs: seq<nat>, i: nat): nat {
    if i < |cs| then cs[i] else 0
  }

  predicate LinkedAt(t: Table, cs: seq<nat>, i: nat) {
    i < |cs| && IsContinuation(t, cs[i]) && t[cs[i]].block.next == Link(cs, i + 1)
  }

  /** cs is the chain that starts at next: in range, continuations only, ended by 0. */
  predicate IsChain(t: Table, next: nat, cs: seq<nat>) {
    && next == Link(cs, 0)
    && (forall i :: 0 <= i < |cs| ==> IsContinuation(t, cs[i]))
    && (forall i :: 0 <= i < |cs| ==> LinkedAt(t, cs, i))
  }

  /** No block is visited twice, by one chain or by two. */
  ghost predicate Exclusive(l: Layout) {
    forall g, i, h, j ::
      g in l && h in l && 0 <= i < |l[g]| && 0 <= j < |l[h]| && l[g][i] == l[h][j] ==> g == h && i == j
  }

  ghost predicate Readable(t: Table) {
    |t| >= 1 && forall b :: 0 < b < |t| ==> t[b].Full?
  }

  predicate Chained(t: Table, l: Layout, h: nat) {
    IsHead(t, h) && h in l && IsChain(t, t[h].block.next, l[h])
  }

  /** l gives the chain of every head of t, and the chains share no block. */
  ghost predicate Sound(t: Table, l: Layout) {
    && Readable(t)
    && (forall h :: h in l <==> IsHead(t, h))
    && (forall h {:trigger Chained(t, l, h)} :: h in l ==> Chained(t, l, h))
    && Exclusive(l)
  }

  ghost predicate InChain(l: Layout, b: nat) {
    exists h, i :: h in l && 0 <= i < |l[h]| && l[h][i] == b
  }

  ghost predicate Used(l: Layout, b: nat) {
    b in l || InChain(l, b)
  }

  ghost predicate Present(t: Table, cs: seq<nat>) {
    forall i :: 0 <= i < |cs| ==> cs[i] < |t| && t[cs[i]].Full?
  }

  ghost function ChainBytes(t: Table, cs: seq<nat>): Bytes
    requires Present(t, cs)
  {
    if cs == [] then [] else t[cs[0]].block.data + ChainBytes(t, cs[1..])
  }

  ghost function RecordAt(t: Table, h: nat, cs: seq<nat>): Record
    requires IsHead(t, h)
    requires Present(t, cs)
  {
    Record(t[h].block.tag, t[h].block.data + ChainBytes(t, cs))
  }

  ghost function Records(t: Table, l: Layout): map<nat, Record>
    requires Sound(t, l)
  {
    map h | h in l :: assert Chained(t, l, h); RecordAt(t, h, l[h])
  }

  lemma ChainUnique(t: Table, next: nat, a: seq<nat>, b: seq<nat>)
    requires IsChain(t, next, a) && IsChain(t, next, b)
    ensures a == b
  {
    ChainPrefix(t, next, a, b, |a|);
    ChainPrefix(t, next, b, a, |b|);
  }

  /** Two chains from the same link agree for as long as either lasts. */
  lemma {:induction false} ChainPrefix(t: Table, next: nat, a: seq<nat>, b: seq<nat>, k: nat)
    requires IsChain(t, next, a)
    requires next == Link(b, 0)
    requires forall i :: 0 <= i < |b| ==> IsContinuation(t, b[i])
    requires forall i :: 0 <= i < |b| && i < k ==> LinkedAt(t, b, i)
    requires k <= |a|
    ensures k <= |b| && a[..k] == b[..k]
  {
    if k > 0 {
      ChainPrefix(t, next, a, b, k - 1);
      if k > 1 {
        assert a[k - 2] == a[..k - 1][k - 2] == b[k - 2];
        assert LinkedAt(t, a, k - 2) && LinkedAt(t, b, k - 2);
      }
      assert Link(a, k - 1) == Link(b, k - 1);
    }
  }

  /** The chains of a table are determined by it. */
  lemma LayoutUnique(t: Table, l: Layout, m: Layout)
    requires Sound(t, l) && Sound(t, m)
    ensures l == m
  {
    forall h | h in l ensures h in m && l[h] == m[h] {
      assert Chained(t, l, h) && Chained(t, m, h);
      ChainUnique(t, t[h].block.next, l[h], m[h]);
    }
  }

  lemma {:induction false} ChainBytesFrame(t: Table, u: Table, cs: seq<nat>)
    requires Present(t, cs) && Present(u, cs)
    requires forall i :: 0 <= i < |cs| ==> u[cs[i]] == t[cs[i]]
    ensures ChainBytes(t, cs) == ChainBytes(u, cs)
  {
    if cs != [] {
      ChainBytesFrame(t, u, cs[1..]);
    }
  }

  /** Blocks that no chain uses may change to anything but a head. */
  lemma UnusedBlocksChange(t: Table, u: Table, l: Layout)
    requires Sound(t, l) && Readable(u) && |t| <= |u|
    requires forall b :: 0 < b < |u| ==> (b < |t| && u[b] == t[b]) || (!Used(l, b) && !IsHead(u, b))
    ensures Sound(u, l) && Records(u, l) == Records(t, l)
  {
    forall h | h in l ensures IsHead(u, h) && u[h] == t[h] && Present(t, l[h])
      ensures forall i :: 0 <= i < |l[h]| ==> u[l[h][i]] == t[l[h][i]]
    {
      assert Chained(t, l, h) && Used(l, h);
      forall i | 0 <= i < |l[h]| ensures u[l[h][i]] == t[l[h][i]] {
        assert InChain(l, l[h][i]);
      }
    }
    forall h | h in l ensures Chained(u, l, h) {
      assert Chained(t, l, h);
      forall i | 0 <= i < |l[h]| ensures LinkedAt(u, l[h], i) {
        assert LinkedAt(t, l[h], i);
      }
    }
    forall h | h in l ensures Present(u, l[h]) && RecordAt(u, h, l[h]) == RecordAt(t, h, l[h]) {
      assert Chained(t, l, h) && Chained(u, l, h);
      ChainBytesFrame(t, u, l[h]);
    }
  }

  lemma HarmlessKeepsRecords(t: Table, img: Table, spare: set<nat>, l: Layout)
    requires Sound(t, l) && Harmless(t, img, spare)
    requires forall b :: b in spare ==> 0 < b && !Used(l, b)
    ensures Sound(img, l) && Records(img, l) == Records(t, l)
  {
    UnusedBlocksChange(t, img, l);
  }

  // ---- Cutting a record into blocks ----------------------------------------------------

  function Flatten(pieces: seq<Bytes>): Bytes {
    if pieces == [] then [] else pieces[0] + Flatten(pieces[1..])
  }

  function Pieces(data: Bytes, cap: nat): (ps: seq<Bytes>)
    requires cap > 0
    ensures |ps| >= 1
    ensures forall i :: 0 <= i < |ps| ==> |ps[i]| <= cap
    decreases |data|
  {
    if |data| <= cap then [data] else [data[..cap]] + Pieces(data[cap..], cap)
  }

  lemma {:induction false} PiecesFlatten(data: Bytes, cap: nat)
    requires cap > 0
    ensures Flatten(Pieces(data, cap)) == data
    decreases |data|
  {
    if |data| <= cap {
      assert Flatten([data]) == data + Flatten([]);
    } else {
      PiecesFlatten(data[cap..], cap);
      assert Pieces(data, cap)[1..] == Pieces(data[cap..], cap);
    }
  }

  /** The number of blocks a record of the given length takes. */
  function Chunks(bytes: nat, cap: nat): nat
    requires cap > 0
  {
    if bytes <= cap then 1 else 1 + Chunks(bytes - cap, cap)
  }

  lemma {:induction false} PiecesCount(data: Bytes, cap: nat)
    requires cap > 0
    ensures |Pieces(data, cap)| == Chunks(|data|, cap)
    decreases |data|
  {
    if |data| > cap {
      PiecesCount(data[cap..], cap);
    }
  }

  /** It is the rounded-up quotient, and never 0. */
  lemma {:induction false} ChunksFormula(bytes: nat, cap: nat)
    requires cap > 0
    ensures var n := (bytes + cap - 1) / cap; Chunks(bytes, cap) == if n < 1 then 1 else n
  {
    if bytes == 0 {
      Quotient(cap - 1, cap, 0, cap - 1);
    } else if bytes <= cap {
      Quotient(bytes + cap - 1, cap, 1, bytes - 1);
    } else {
      ChunksFormula(bytes - cap, cap);
      var m := bytes - cap + cap - 1;
      Quotient(m + cap, cap, m / cap + 1, m % cap);
      Quotient(m, cap, m / cap, m % cap);
    }
  }
}
