/** The open-time scan as the loops it is, on an arbitrary table of blocks. */
module Scan {
  import opened Codec
  import opened BlockTable
  import opened ChainWrite
  import opened StoreSpec
  import opened Conservation
  import opened Reopen

  /** path follows the links of t from next, and current is the link it has reached. */
  ghost predicate IsPath(t: Table, next: nat, path: seq<nat>, current: nat) {
    && (forall i :: 0 <= i < |path| ==> IsContinuation(t, path[i]))
    && (forall i :: 0 <= i < |path| ==> ReachedAt(t, next, path, i))
    && current == Reached(t, next, path, |path|)
  }

  ghost function Reached(t: Table, next: nat, path: seq<nat>, i: nat): nat
    requires i <= |path|
  {
    if i == 0 then next
    else if path[i - 1] < |t| && t[path[i - 1]].Full? then t[path[i - 1]].block.next
    else 0
  }

  ghost predicate ReachedAt(t: Table, next: nat, path: seq<nat>, i: nat) {
    i < |path| && path[i] == Reached(t, next, path, i)
  }

  lemma {:induction false} PathPrefix(t: Table, next: nat, path: seq<nat>, current: nat, cs: seq<nat>)
    requires IsPath(t, next, path, current) && IsChain(t, next, cs)
    ensures |path| <= |cs| && path == cs[..|path|] && current == Link(cs, |path|)
    decreases |path|
  {
    if path != [] {
      var n := |path| - 1;
      assert ReachedAt(t, next, path, n);
      forall i | 0 <= i < n ensures ReachedAt(t, next, path[..n], i) {
        assert ReachedAt(t, next, path, i);
      }
      PathPrefix(t, next, path[..n], path[n], cs);
      assert path[n] > 0;
      assert LinkedAt(t, cs, n);
    }
  }

  /** A path that has come to link 0 is the chain. */
  lemma PathIsChain(t: Table, next: nat, path: seq<nat>)
    requires IsPath(t, next, path, 0)
    ensures IsChain(t, next, path)
  {
    forall i | 0 <= i < |path| ensures LinkedAt(t, path, i) {
      if i + 1 < |path| {
        assert ReachedAt(t, next, path, i + 1);
      }
    }
    if path != [] {
      assert ReachedAt(t, next, path, 0);
    }
  }

  /** The chain a head may own: complete, without repetition, off the blocks already seen. */
  ghost predicate Ownable(t: Table, next: nat, cs: seq<nat>, seen: set<nat>) {
    IsChain(t, next, cs) && Distinct(cs) && forall i :: 0 <= i < |cs| ==> cs[i] !in seen
  }

  /** The test of the inner loop: block c cannot continue the chain. */
  predicate Breaks(t: Table, c: nat, seen: set<nat>)
    requires c < |t| ==> c == 0 || t[c].Full?
  {
    c != 0 && (c >= |t| || t[c].block.kind != CONTINUATION || c in seen)
  }

  lemma BrokenPath(t: Table, next: nat, path: seq<nat>, current: nat, seen: set<nat>, now: set<nat>, cs: seq<nat>)
    requires Readable(t) && IsPath(t, next, path, current) && Breaks(t, current, now)
    requires forall b: nat :: b in now <==> b in seen || b in path
    ensures !Ownable(t, next, cs, seen)
  {
    if Ownable(t, next, cs, seen) {
      PathPrefix(t, next, path, current, cs);
    }
  }

  /** The inner loop of the scan: it fails exactly when the head has no chain of its own. */
  method FollowChain(t: Table, next: nat, seen: set<nat>) returns (ok: bool, path: seq<nat>)
    requires Readable(t)
    ensures ok ==> Ownable(t, next, path, seen)
    ensures !ok ==> forall cs :: !Ownable(t, next, cs, seen)
  {
    path := [];
    var current, now := next, seen;
    while current != 0
      invariant IsPath(t, next, path, current) && Distinct(path) && |path| < |t|
      invariant forall b: nat :: b in now <==> b in seen || b in path
      invariant forall i :: 0 <= i < |path| ==> path[i] !in seen
      decreases |t| - |path|
    {
      if Breaks(t, current, now) {
        forall cs: seq<nat> ensures !Ownable(t, next, cs, seen) {
          BrokenPath(t, next, path, current, seen, now, cs);
        }
        return false, path;
      }
      PathGrows(t, next, path, current);
      path := path + [current];
      now := now + {current};
      current := t[current].block.next;
    }
    PathIsChain(t, next, path);
    return true, path;
  }

  lemma PathGrows(t: Table, next: nat, path: seq<nat>, current: nat)
    requires Distinct(path) && IsPath(t, next, path, current) && IsContinuation(t, current) && current !in path
    ensures IsPath(t, next, path + [current], t[current].block.next)
    ensures Distinct(path + [current]) && |path + [current]| < |t|
  {
    var longer := path + [current];
    forall i | 0 <= i < |longer| ensures ReachedAt(t, next, longer, i) {
      if i < |path| {
        assert ReachedAt(t, next, path, i);
      }
    }
    DistinctBound(longer, |t| - 1);
  }

  /** The chains found for the heads below id. */
  ghost predicate FoundBelow(t: Table, l: Layout, id: nat) {
    && (forall h: nat :: h in l <==> h < id && IsHead(t, h))
    && (forall h {:trigger Chained(t, l, h)} :: h in l ==> Chained(t, l, h))
    && Exclusive(l)
  }

  lemma FoundAgrees(t: Table, l: Layout, id: nat, m: Layout, h: nat)
    requires FoundBelow(t, l, id) && Sound(t, m) && h in l
    ensures h in m && m[h] == l[h]
  {
    assert Chained(t, l, h) && Chained(t, m, h);
    ChainUnique(t, t[h].block.next, l[h], m[h]);
  }

  /** If the next head cannot own a chain, no layout makes the table sound. */
  lemma NoLayout(t: Table, l: Layout, id: nat, seen: set<nat>, m: Layout)
    requires FoundBelow(t, l, id) && IsHead(t, id)
    requires forall b: nat :: b in seen <==> InChain(l, b)
    requires forall cs :: !Ownable(t, t[id].block.next, cs, seen)
    ensures !Sound(t, m)
  {
    if Sound(t, m) {
      assert Chained(t, m, id) && !Ownable(t, t[id].block.next, m[id], seen);
      var cs := m[id];
      forall i | 0 <= i < |cs| ensures cs[i] !in seen {
        if cs[i] in seen {
          var h, j :| h in l && 0 <= j < |l[h]| && l[h][j] == cs[i];
          FoundAgrees(t, l, id, m, h);
        }
      }
    }
  }

  lemma FoundGrows(t: Table, l: Layout, id: nat, path: seq<nat>, seen: set<nat>)
    requires FoundBelow(t, l, id) && IsHead(t, id) && Ownable(t, t[id].block.next, path, seen)
    requires forall b: nat :: b in seen <==> InChain(l, b)
    ensures FoundBelow(t, l[id := path], id + 1)
    ensures forall b: nat :: b in seen || b in path <==> InChain(l[id := path], b)
  {
    var m := l[id := path];
    forall h | h in m ensures Chained(t, m, h) {
      if h != id { assert Chained(t, l, h); }
    }
    forall g, i | g in l && 0 <= i < |l[g]| ensures l[g][i] !in path {
      assert InChain(l, l[g][i]);
    }
    forall b: nat ensures b in seen || b in path <==> InChain(m, b) {
      SeenGrows(l, id, path, b);
    }
  }

  lemma SeenGrows(l: Layout, id: nat, path: seq<nat>, b: nat)
    requires id !in l
    ensures InChain(l, b) || b in path <==> InChain(l[id := path], b)
  {
    var m := l[id := path];
    if InChain(l, b) {
      var h, i :| h in l && 0 <= i < |l[h]| && l[h][i] == b;
      assert m[h][i] == b;
    }
    if b in path {
      var i :| 0 <= i < |path| && path[i] == b;
      assert m[id][i] == b;
    }
  }

  ghost predicate SeenExactly(seen: set<nat>, l: Layout) {
    forall b: nat :: b in seen <==> InChain(l, b)
  }

  /** The outer loop of the scan: it accepts exactly the tables whose heads own disjoint chains. */
  method FindHeads(t: Table)
    returns (ok: bool, head: map<nat, HeadInfo>, byTag: map<nat, set<nat>>, seen: set<nat>, ghost l: Layout)
    requires Readable(t)
    ensures ok ==> Sound(t, l) && head == ScannedHeads(t, l) && byTag == TagIndex(head) && SeenExactly(seen, l)
    ensures !ok ==> forall m :: !Sound(t, m)
  {
    head, byTag, seen, l := map[], map[], {}, map[];
    var id := 1;
    while id < |t|
      invariant 1 <= id <= |t|
      invariant FoundBelow(t, l, id) && SeenExactly(seen, l)
      invariant head == HeadsFound(t, l) && TagsExact(head, byTag)
    {
      if t[id].block.kind == HEAD {
        var tag := t[id].block.tag;
        var fine, path := FollowChain(t, t[id].block.next, seen);
        if !fine {
          forall m ensures !Sound(t, m) {
            NoLayout(t, l, id, seen, m);
          }
          return false, head, byTag, seen, l;
        }
        FoundGrows(t, l, id, path, seen);
        HeadsGrow(t, l, id, path);
        TagsPut(head, byTag, id, tag, t[id].block.next);
        head := head[id := HeadInfo(tag, t[id].block.next)];
        byTag := byTag[tag := TagSet(byTag, tag) + {id}];
        seen := seen + (set b | b in path);
        l := l[id := path];
      }
      id := id + 1;
    }
    TagIndexExact(head);
    TagsDetermined(head, byTag, TagIndex(head));
    return true, head, byTag, seen, l;
  }

  ghost function HeadsFound(t: Table, l: Layout): map<nat, HeadInfo>
    requires forall h :: h in l ==> IsHead(t, h)
  {
    map h | h in l :: assert IsHead(t, h); InfoOf(t[h].block)
  }

  lemma HeadsGrow(t: Table, l: Layout, id: nat, path: seq<nat>)
    requires (forall h :: h in l ==> IsHead(t, h)) && IsHead(t, id)
    ensures HeadsFound(t, l[id := path]) == HeadsFound(t, l)[id := InfoOf(t[id].block)]
  {
  }

  /** The test for a free block: freed, or a continuation that no record reached. */
  predicate IsFree(t: Table, seen: set<nat>, b: nat)
    requires 0 < b < |t| && t[b].Full?
  {
    t[b].block.kind == FREE || (t[b].block.kind == CONTINUATION && b !in seen)
  }

  lemma FreeIsUnused(t: Table, l: Layout, seen: set<nat>, b: nat)
    requires Sound(t, l) && SeenExactly(seen, l) && 0 < b < |t| && t[b].block.kind <= CONTINUATION
    ensures IsFree(t, seen, b) <==> !Used(l, b)
  {
    if b in l {
      assert IsHead(t, b);
      assert !IsFree(t, seen, b);
    } else if InChain(l, b) {
      var h, i :| h in l && 0 <= i < |l[h]| && l[h][i] == b;
      assert Chained(t, l, h) && IsContinuation(t, l[h][i]);
      assert !IsFree(t, seen, b);
    } else {
      assert !IsHead(t, b) && b !in seen;
      assert IsFree(t, seen, b);
    }
  }

  /** Cutting the free space off the end of the file. */
  method TrimEnd(t: Table, seen: set<nat>, ghost l: Layout) returns (n: nat)
    requires Sound(t, l) && SeenExactly(seen, l)
    requires forall b: nat :: 0 < b < |t| ==> t[b].block.kind <= CONTINUATION
    ensures n == TrimTo(l, |t| - 1) && n < |t|
  {
    hide Used, Exclusive, Chained, SeenExactly;
    n := |t| - 1;
    while n > 0 && IsFree(t, seen, n)
      invariant n < |t| && TrimTo(l, n) == TrimTo(l, |t| - 1)
    {
      FreeIsUnused(t, l, seen, n);
      n := n - 1;
    }
    if n > 0 {
      FreeIsUnused(t, l, seen, n);
    }
  }

  /** Stacking the free blocks that are left, the lowest on top. */
  method StackFree(t: Table, seen: set<nat>, n: nat, ghost l: Layout) returns (free: seq<nat>)
    requires Sound(t, l) && SeenExactly(seen, l) && n < |t|
    requires forall b: nat :: 0 < b < |t| ==> t[b].block.kind <= CONTINUATION
    ensures free == FreeBelow(l, n)
  {
    hide Used, Exclusive, Chained, SeenExactly;
    free := [];
    var id := n;
    while id >= 1
      invariant 0 <= id <= n && free + FreeBelow(l, id) == FreeBelow(l, n)
    {
      FreeIsUnused(t, l, seen, id);
      FreeBelowNext(l, id);
      if IsFree(t, seen, id) {
        free := free + [id];
      }
      id := id - 1;
    }
  }

  lemma FreeBelowNext(l: Layout, n: nat)
    requires n > 0
    ensures FreeBelow(l, n) == (if Used(l, n) then [] else [n]) + FreeBelow(l, n - 1)
    ensures Used(l, n) ==> FreeBelow(l, n) == FreeBelow(l, n - 1)
  {
  }
}
