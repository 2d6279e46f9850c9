/** Counting blocks: every block of the file is on the free stack or belongs to one record. */
module Conservation {
  import opened BlockTable
  import opened ChainWrite
  import opened StoreSpec

  lemma {:induction false} DistinctBound(ids: seq<nat>, n: nat)
    requires Distinct(ids) && forall i :: 0 <= i < |ids| ==> 0 < ids[i] <= n
    ensures |ids| <= n
  {
    if n > 0 {
      if n in ids {
        var k :| 0 <= k < |ids| && ids[k] == n;
        DistinctBound(ids[..k] + ids[k + 1..], n - 1);
      } else {
        DistinctBound(ids, n - 1);
      }
    }
  }

  lemma {:induction false} CoverBound(ids: seq<nat>, n: nat)
    requires forall b: nat :: 0 < b <= n ==> b in ids
    ensures |ids| >= n
  {
    if n > 0 {
      assert n in ids;
      var k :| 0 <= k < |ids| && ids[k] == n;
      var rest := ids[..k] + ids[k + 1..];
      forall b: nat | 0 < b <= n - 1 ensures b in rest {
        assert b in ids;
        var j :| 0 <= j < |ids| && ids[j] == b;
        assert rest[if j < k then j else j - 1] == b;
      }
      CoverBound(rest, n - 1);
    }
  }

  /** A chain is never longer than the file, so the loop guards on it never fire. */
  lemma ChainLength(s: State, l: Layout, id: nat)
    requires Partition(s, l) && id in l
    ensures 1 + |l[id]| <= s.nblocks
  {
    GivenUpDistinct(s.table, l, id);
    var ids := [id] + l[id];
    forall i | 0 <= i < |ids| ensures 0 < ids[i] <= s.nblocks {
      GivenUp(s, l, id, ids[i]);
    }
    DistinctBound(ids, s.nblocks);
  }

  ghost function Pick(keys: set<nat>): (h: nat)
    requires keys != {}
    ensures h in keys
  {
    var h :| h in keys; h
  }

  /** Every block of the records in keys. */
  ghost function BlocksOf(keys: set<nat>, l: Layout): seq<nat>
    requires forall h :: h in keys ==> h in l
    decreases keys
  {
    if keys == {} then []
    else var h := Pick(keys); [h] + l[h] + BlocksOf(keys - {h}, l)
  }

  /** The blocks that the lengths of the records in keys call for. */
  ghost function ChunksOf(keys: set<nat>, r: map<nat, Record>, cap: nat): nat
    requires cap > 0 && forall h :: h in keys ==> h in r
    decreases keys
  {
    if keys == {} then 0
    else var h := Pick(keys); Chunks(|r[h].bytes|, cap) + ChunksOf(keys - {h}, r, cap)
  }

  lemma {:induction false} BlocksCounted(keys: set<nat>, l: Layout, r: map<nat, Record>, cap: nat)
    requires cap > 0 && PackedAs(r, l, cap)
    requires forall h :: h in keys ==> h in l && h in r
    ensures |BlocksOf(keys, l)| == ChunksOf(keys, r, cap)
    decreases keys
  {
    if keys != {} {
      BlocksCounted(keys - {Pick(keys)}, l, r, cap);
    }
  }

  ghost predicate BelongsTo(l: Layout, keys: set<nat>, b: nat) {
    exists h :: h in keys && h in l && (b == h || b in l[h])
  }

  lemma {:induction false} BlocksMembers(keys: set<nat>, l: Layout, b: nat)
    requires forall h :: h in keys ==> h in l
    ensures b in BlocksOf(keys, l) <==> BelongsTo(l, keys, b)
    decreases keys
  {
    if keys != {} {
      var h := Pick(keys);
      BlocksMembers(keys - {h}, l, b);
      if BelongsTo(l, keys, b) {
        var g :| g in keys && g in l && (b == g || b in l[g]);
        if g != h { assert g in keys - {h}; }
      }
    }
  }

  lemma OneOwner(t: Table, l: Layout, g: nat, h: nat, b: nat)
    requires Sound(t, l) && g in l && h in l && g != h
    requires b == g || b in l[g]
    ensures b != h && b !in l[h]
  {
    HeadsAreNotChained(t, l, g);
    HeadsAreNotChained(t, l, h);
    ChainUsed(l, g);
    if b in l[g] {
      var i :| 0 <= i < |l[g]| && l[g][i] == b;
      assert InChain(l, b);
    }
  }

  lemma {:induction false} BlocksDistinct(t: Table, l: Layout, keys: set<nat>)
    requires Sound(t, l) && forall h :: h in keys ==> h in l
    ensures Distinct(BlocksOf(keys, l))
    decreases keys
  {
    if keys != {} {
      var h := Pick(keys);
      var mine, rest := [h] + l[h], BlocksOf(keys - {h}, l);
      GivenUpDistinct(t, l, h);
      BlocksDistinct(t, l, keys - {h});
      forall i, j | 0 <= i < |mine| && 0 <= j < |rest| ensures mine[i] != rest[j] {
        BlocksMembers(keys - {h}, l, rest[j]);
        var g :| g in keys - {h} && g in l && (rest[j] == g || rest[j] in l[g]);
        OneOwner(t, l, g, h, rest[j]);
      }
    }
  }

  lemma UsedBelongs(s: State, l: Layout, b: nat)
    ensures Used(l, b) <==> BelongsTo(l, l.Keys, b)
  {
    if b in l {
      assert b in l.Keys;
    } else if InChain(l, b) {
      var h, i :| h in l && 0 <= i < |l[h]| && l[h][i] == b;
      assert h in l.Keys && b in l[h];
    }
    if BelongsTo(l, l.Keys, b) {
      var h :| h in l.Keys && (b == h || b in l[h]);
      ChainUsed(l, h);
    }
  }

  /** The file's blocks are the free ones plus what the lengths of the records call for. */
  lemma BlocksConserved(s: State, l: Layout)
    requires Inv(s, l)
    ensures s.nblocks == |s.free| + ChunksOf(l.Keys, Records(s.table, l), s.cap)
  {
    hide HeadsExact, TagsExact, DirectoryExact, PackedAs;
    var used := BlocksOf(l.Keys, l);
    var all := s.free + used;
    BlocksCounted(l.Keys, l, Records(s.table, l), s.cap);
    BlocksDistinct(s.table, l, l.Keys);
    forall b ensures b in used <==> Used(l, b) {
      if b >= 0 {
        BlocksMembers(l.Keys, l, b);
        UsedBelongs(s, l, b);
      }
    }
    forall i | 0 <= i < |used| ensures 0 < used[i] <= s.nblocks && used[i] !in s.free {
      UsedInRange(s, l, used[i]);
    }
    Disjoint(s.free, used, s.nblocks);
    CoverBound(all, s.nblocks);
  }

  lemma Disjoint(a: seq<nat>, b: seq<nat>, n: nat)
    requires Distinct(a) && Distinct(b)
    requires forall i :: 0 <= i < |a| ==> 0 < a[i] <= n
    requires forall i :: 0 <= i < |b| ==> 0 < b[i] <= n && b[i] !in a
    ensures |a + b| <= n
  {
    var c := a + b;
    forall i, j | 0 <= i < j < |c| ensures c[i] != c[j] {
      if i < |a| <= j {
        assert c[i] in a && c[j] == b[j - |a|];
      }
    }
    DistinctBound(c, n);
  }
}
