/** What opening a store rebuilds from its file: the scan of every block, and the directory. */
module Reopen {
  import opened Options
  import opened BlockTable
  import opened StoreSpec
  import opened Vault
  import Directory

  // ---- The scan ---------------------------------------------------------------------

  /** The last block that is not part of the free space at the end of the file. */
  ghost function TrimTo(l: Layout, n: nat): nat {
    if n == 0 || Used(l, n) then n else TrimTo(l, n - 1)
  }

  /** The free stack a scan builds: the lowest free block is allocated first. */
  ghost function FreeBelow(l: Layout, n: nat): seq<nat> {
    if n == 0 then []
    else (if Used(l, n) then [] else [n]) + FreeBelow(l, n - 1)
  }

  ghost function ScannedHeads(t: Table, l: Layout): map<nat, HeadInfo>
    requires Sound(t, l)
  {
    map h | h in l :: assert IsHead(t, h); InfoOf(t[h].block)
  }

  ghost function TagsIn(head: map<nat, HeadInfo>): set<nat> {
    set h | h in head :: head[h].tag
  }

  ghost function Tagged(head: map<nat, HeadInfo>, tag: nat): set<nat> {
    set h | h in head && head[h].tag == tag
  }

  ghost function TagIndex(head: map<nat, HeadInfo>): map<nat, set<nat>> {
    map tag | tag in TagsIn(head) :: Tagged(head, tag)
  }

  ghost function Scanned(t: Table, l: Layout, cap: nat, durable: bool): State
    requires Sound(t, l)
  {
    var n := TrimTo(l, |t| - 1);
    TrimBounds(l, |t| - 1);
    var heads := ScannedHeads(t, l);
    State(cap, durable, t[..n + 1], n, FreeBelow(l, n), heads, TagIndex(heads), map[], 0)
  }

  lemma {:induction false} TrimBounds(l: Layout, n: nat)
    ensures TrimTo(l, n) <= n
    ensures forall b :: TrimTo(l, n) < b <= n ==> !Used(l, b)
    ensures TrimTo(l, n) == 0 || Used(l, TrimTo(l, n))
  {
    if n != 0 && !Used(l, n) {
      TrimBounds(l, n - 1);
    }
  }

  lemma {:induction false} FreeBelowExact(l: Layout, n: nat)
    ensures forall i :: 0 <= i < |FreeBelow(l, n)| ==> 0 < FreeBelow(l, n)[i] <= n && !Used(l, FreeBelow(l, n)[i])
    ensures forall i, j :: 0 <= i < j < |FreeBelow(l, n)| ==> FreeBelow(l, n)[i] > FreeBelow(l, n)[j]
    ensures forall b: nat :: 0 < b <= n && !Used(l, b) ==> b in FreeBelow(l, n)
  {
    if n != 0 {
      FreeBelowExact(l, n - 1);
    }
  }

  /** A store that was just opened allocates the lowest block that no record uses. */
  lemma LowestAllocatedFirst(l: Layout, n: nat, k: nat)
    requires k > 0 && forall b: nat :: Used(l, b) ==> b <= n
    ensures var b := Taken(FreeBelow(l, n), n, k)[0]; b > 0 && !Used(l, b) && forall c: nat :: 0 < c < b ==> Used(l, c)
  {
    var free := FreeBelow(l, n);
    FreeBelowExact(l, n);
    forall i | 0 <= i < |free| ensures free[i] >= free[|free| - 1] {
    }
    forall c: nat | 0 < c <= n && !Used(l, c) ensures c >= Taken(free, n, k)[0] {
      assert c in free;
    }
  }

  lemma TagIndexExact(head: map<nat, HeadInfo>)
    ensures TagsExact(head, TagIndex(head))
  {
    forall tag | tag in TagIndex(head) ensures TagIndex(head)[tag] != {} {
      var h :| h in head && head[h].tag == tag;
      assert h in Tagged(head, tag);
    }
  }

  /** Cutting unused blocks off the end changes no record. */
  lemma TruncateSound(t: Table, l: Layout, n: nat)
    requires Sound(t, l) && n < |t|
    requires forall b: nat :: n < b < |t| ==> !Used(l, b)
    ensures Sound(t[..n + 1], l) && Records(t[..n + 1], l) == Records(t, l)
  {
    var u := t[..n + 1];
    forall h | h in l ensures Chained(u, l, h) {
      TruncatedRecord(t, l, n, h);
    }
    assert forall h :: h in l <==> IsHead(u, h);
    var before, after := Records(t, l), Records(u, l);
    forall h | h in l ensures after[h] == before[h] {
      TruncatedRecord(t, l, n, h);
      assert after[h] == RecordAt(u, h, l[h]) && before[h] == RecordAt(t, h, l[h]);
    }
  }

  lemma TruncatedRecord(t: Table, l: Layout, n: nat, h: nat)
    requires Sound(t, l) && n < |t| && h in l
    requires forall b: nat :: n < b < |t| ==> !Used(l, b)
    ensures var u := t[..n + 1];
            Chained(t, l, h) && Chained(u, l, h) && RecordAt(u, h, l[h]) == RecordAt(t, h, l[h])
  {
    var u := t[..n + 1];
    assert Chained(t, l, h) && Used(l, h);
    forall i | 0 <= i < |l[h]| ensures l[h][i] <= n && LinkedAt(u, l[h], i) {
      assert LinkedAt(t, l[h], i);
      assert InChain(l, l[h][i]);
      assert Used(l, l[h][i]);
    }
    ChainBytesFrame(t, u, l[h]);
  }

  lemma ScannedTable(t: Table, l: Layout)
    requires Sound(t, l)
    ensures var n := TrimTo(l, |t| - 1);
            n < |t| && Sound(t[..n + 1], l) && Records(t[..n + 1], l) == Records(t, l)
  {
    hide TrimTo, Records, Exclusive, Used;
    TrimBounds(l, |t| - 1);
    TruncateSound(t, l, TrimTo(l, |t| - 1));
  }

  /** The scan of a sound file rebuilds allocator and indexes exactly. */
  lemma ScannedIndexed(t: Table, l: Layout, cap: nat, durable: bool)
    requires Sound(t, l)
    ensures Indexed(Scanned(t, l, cap, durable), l)
    ensures Records(Scanned(t, l, cap, durable).table, l) == Records(t, l)
  {
    ScannedTable(t, l);
    FreeBelowExact(l, TrimTo(l, |t| - 1));
    TagIndexExact(ScannedHeads(t, l));
  }

  lemma ScannedCore(t: Table, l: Layout, cap: nat, durable: bool)
    requires Sound(t, l) && cap > 0 && Packed(t, l, cap)
    ensures Core(Scanned(t, l, cap, durable), l)
    ensures Records(Scanned(t, l, cap, durable).table, l) == Records(t, l)
  {
    ScannedIndexed(t, l, cap, durable);
  }

  // ---- The directory ------------------------------------------------------------------

  ghost predicate IsLeast(d: nat, s: set<nat>) {
    d in s && forall x :: x in s ==> d <= x
  }

  lemma {:induction false} LeastExists(s: set<nat>)
    requires s != {}
    ensures exists d :: IsLeast(d, s)
  {
    var x :| x in s;
    if s == {x} {
      assert IsLeast(x, s);
    } else {
      LeastExists(s - {x});
      var d :| IsLeast(d, s - {x});
      var least := if x < d then x else d;
      forall y | y in s ensures least <= y {
        if y != x { assert y in s - {x}; }
      }
      assert IsLeast(least, s);
    }
  }

  ghost function Least(s: set<nat>): (d: nat)
    requires s != {}
    ensures IsLeast(d, s)
  {
    LeastExists(s);
    var d :| IsLeast(d, s);
    d
  }

  /** The state after loadDirectory, or None for a corrupt directory. */
  ghost function Loaded(s: State, l: Layout): Option<State>
    requires Indexed(s, l)
  {
    if DIRECTORY_TAG !in s.byTag then Some(s)
    else
      var d := Least(s.byTag[DIRECTORY_TAG]);
      match Directory.Decode(Records(s.table, l)[d].bytes)
      case None => None
      case Some(roots) => Some(s.(dirId := d, roots := roots))
  }

  /** The records of a file that carry the vault v, with the roots in record dirId. */
  ghost predicate Carries(r: map<nat, Record>, l: Layout, cap: nat, dirId: nat, v: Vault) {
    && cap > 0 && PackedAs(r, l, cap)
    && (forall h :: h in r && r[h].tag == DIRECTORY_TAG ==> h == dirId)
    && (if dirId == 0 then v.roots == map[] else dirId in r && r[dirId] == SavedRecord(v.roots))
    && v.records == r - {dirId}
  }

  lemma InvCarries(s: State, l: Layout)
    requires Inv(s, l)
    ensures Carries(Records(s.table, l), l, s.cap, s.dirId, View(s, l))
  {
    hide Directory.Encode;
    var r := Records(s.table, l);
    forall h | h in r && r[h].tag == DIRECTORY_TAG ensures h == s.dirId {
      assert s.head[h].tag == DIRECTORY_TAG;
    }
  }

  lemma HeadTags(s: State, l: Layout)
    requires Core(s, l)
    ensures forall h :: h in s.head <==> h in Records(s.table, l)
    ensures forall h :: h in s.head ==> s.head[h].tag == Records(s.table, l)[h].tag
  {
  }

  lemma LoadedState(s: State, l: Layout, dirId: nat, v: Vault)
    requires Core(s, l) && s.dirId == 0 && s.roots == map[]
    requires Carries(Records(s.table, l), l, s.cap, dirId, v) && Directory.Fits(v.roots)
    ensures Loaded(s, l) == Some(s.(dirId := dirId, roots := v.roots))
  {
    hide Directory.Encode, Directory.Decode, Records, Partition, PackedAs;
    HeadTags(s, l);
    DirectoryFound(s.head, s.byTag, dirId);
    Directory.DirectoryRoundTrip(v.roots);
  }

  lemma LoadCarried(s: State, l: Layout, dirId: nat, v: Vault)
    requires Core(s, l) && s.dirId == 0 && s.roots == map[]
    requires Carries(Records(s.table, l), l, s.cap, dirId, v) && Directory.Fits(v.roots)
    ensures var s' := s.(dirId := dirId, roots := v.roots);
            Loaded(s, l) == Some(s') && Inv(s', l) && View(s', l) == v
  {
    hide Directory.Encode, Records, Partition, PackedAs, Loaded;
    LoadedState(s, l, dirId, v);
    HeadTags(s, l);
    CoreIgnoresDirectory(s, l, dirId, v.roots);
  }

  lemma CoreIgnoresDirectory(s: State, l: Layout, dirId: nat, roots: Directory.Roots)
    requires Core(s, l)
    ensures Core(s.(dirId := dirId, roots := roots), l)
  {
  }

  /** Opening a file that carries v gives an exact store for v. */
  lemma OpenCarried(t: Table, l: Layout, cap: nat, durable: bool, dirId: nat, v: Vault)
    requires Sound(t, l) && Carries(Records(t, l), l, cap, dirId, v) && Directory.Fits(v.roots)
    ensures var s := Scanned(t, l, cap, durable);
            var s' := s.(dirId := dirId, roots := v.roots);
            Core(s, l) && Loaded(s, l) == Some(s') && Inv(s', l) && View(s', l) == v
  {
    hide Carries, Loaded, FreeBelow, TrimTo, TagIndex, Records;
    CarriesPacked(t, l, cap, dirId, v);
    ScannedCore(t, l, cap, durable);
    LoadCarried(Scanned(t, l, cap, durable), l, dirId, v);
  }

  lemma CarriesPacked(t: Table, l: Layout, cap: nat, dirId: nat, v: Vault)
    requires Sound(t, l) && Carries(Records(t, l), l, cap, dirId, v)
    ensures cap > 0 && Packed(t, l, cap)
  {
  }

  lemma DirectoryFound(head: map<nat, HeadInfo>, byTag: map<nat, set<nat>>, dirId: nat)
    requires TagsExact(head, byTag)
    requires forall h :: h in head && head[h].tag == DIRECTORY_TAG ==> h == dirId
    ensures DIRECTORY_TAG in byTag <==> dirId in head && head[dirId].tag == DIRECTORY_TAG
    ensures DIRECTORY_TAG in byTag ==> Least(byTag[DIRECTORY_TAG]) == dirId
  {
    if DIRECTORY_TAG in byTag {
      var h :| h in byTag[DIRECTORY_TAG];
      assert h in head && head[h].tag == DIRECTORY_TAG && h == dirId;
      var d := Least(byTag[DIRECTORY_TAG]);
      assert d in byTag[DIRECTORY_TAG];
      assert d in head && head[d].tag == DIRECTORY_TAG;
    }
    if dirId in head {
      assert head[dirId].tag in byTag && dirId in byTag[head[dirId].tag];
    }
  }

  // ---- Reopening a store that was left whole ---------------------------------------------

  lemma TagsDetermined(head: map<nat, HeadInfo>, a: map<nat, set<nat>>, b: map<nat, set<nat>>)
    requires TagsExact(head, a) && TagsExact(head, b)
    ensures a == b
  {
    TagsInclude(head, a, b);
    TagsInclude(head, b, a);
    assert forall tag :: tag in a ==> a[tag] == b[tag];
  }

  lemma TagsInclude(head: map<nat, HeadInfo>, a: map<nat, set<nat>>, b: map<nat, set<nat>>)
    requires TagsExact(head, a) && TagsExact(head, b)
    ensures forall tag :: tag in a ==> tag in b && a[tag] <= b[tag]
  {
    forall tag | tag in a ensures tag in b && a[tag] <= b[tag] {
      var some :| some in a[tag];
      assert some in head && head[some].tag == tag;
      forall id | id in a[tag] ensures id in b[tag] {
        assert id in head && head[id].tag == tag;
      }
    }
  }

  /** What reopening may change: the free space at the end of the file goes, nothing else. */
  ghost predicate SameButTrimmed(s: State, s': State) {
    && s'.head == s.head && s'.byTag == s.byTag && s'.roots == s.roots && s'.dirId == s.dirId
    && s'.cap == s.cap && s'.durable == s.durable
    && s'.nblocks <= s.nblocks && |s.table| == s.nblocks + 1 && s'.table == s.table[..s'.nblocks + 1]
    && (forall b: nat :: s'.nblocks < b <= s.nblocks ==> b in s.free)
    && (s'.nblocks == 0 || s'.nblocks !in s.free)
    && (forall b: nat :: b in s'.free <==> b in s.free && b <= s'.nblocks)
  }

  lemma FreeAfterScan(s: State, l: Layout)
    requires Partition(s, l)
    ensures var n := TrimTo(l, s.nblocks);
            && n <= s.nblocks
            && (forall b: nat :: n < b <= s.nblocks ==> b in s.free)
            && (n == 0 || n !in s.free)
            && (forall b: nat :: b in FreeBelow(l, n) <==> b in s.free && b <= n)
  {
    TrimBounds(l, s.nblocks);
    FreeBelowExact(l, TrimTo(l, s.nblocks));
  }

  /** Closing and reopening rebuilds heads, tags, links and roots; the free set loses exactly
      the trailing run that the scan cuts off. */
  lemma ReopenAgrees(s: State, l: Layout)
    requires Inv(s, l) && Directory.Fits(s.roots)
    ensures var scanned := Scanned(s.table, l, s.cap, s.durable);
            && Core(scanned, l) && Loaded(scanned, l).Some?
            && SameButTrimmed(s, Loaded(scanned, l).value)
            && Inv(Loaded(scanned, l).value, l) && View(Loaded(scanned, l).value, l) == View(s, l)
  {
    hide SameButTrimmed, Carries, Loaded, Scanned, PackedAs, FreeExact, TagsExact, Records, Directory.Encode;
    InvCarries(s, l);
    OpenCarried(s.table, l, s.cap, s.durable, s.dirId, View(s, l));
    TrimmedOnly(s, l);
  }

  lemma TrimmedOnly(s: State, l: Layout)
    requires Inv(s, l) && Core(Scanned(s.table, l, s.cap, s.durable), l)
    ensures SameButTrimmed(s, Scanned(s.table, l, s.cap, s.durable).(dirId := s.dirId, roots := s.roots))
  {
    hide TrimTo, FreeBelow, TagIndex, Records, Directory.Encode, PackedAs;
    var s' := Scanned(s.table, l, s.cap, s.durable);
    FreeAfterScan(s, l);
    assert s'.head == s.head;
    TagsDetermined(s.head, s.byTag, s'.byTag);
  }
}
