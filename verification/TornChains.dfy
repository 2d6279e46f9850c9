/** Reading a record whose chain may pass through blocks with unsynced continuation writes, any of which
    a power failure may lose. */
module TornChains {
  import opened Codec
  import opened BlockTable
  import opened ChainWrite
  import opened Conservation

  /** The unsynced writes, by block. */
  type Writes = map<nat, Block>

  /** img is u with some of the writes. */
  ghost predicate Torn(u: Table, w: Writes, img: Table) {
    && |u| <= |img| && (forall b: nat :: |u| <= b < |img| ==> b in w)
    && forall b: nat :: b < |img| ==> (b < |u| && img[b] == u[b]) || (b in w && img[b] == Full(w[b]))
  }

  /** h is a head of u, o has the chains of all other heads, and w writes only continuations, to blocks
      that none of these use. */
  ghost predicate Base(u: Table, w: Writes, o: Layout, h: nat) {
    && Readable(u) && IsHead(u, h) && h !in o && Exclusive(o)
    && (forall g: nat :: g in o <==> IsHead(u, g) && g != h)
    && (forall g {:trigger Chained(u, o, g)} :: g in o ==> Chained(u, o, g))
    && (forall b :: b in w ==> b > 0 && b !in o && b != h && !InChain(o, b) && w[b].kind == CONTINUATION)
  }

  /** Whichever of its old and its new content each block on the way turns out to hold: from block c on,
      after the bytes acc and the blocks in path, the chain passes through continuations that no other
      record uses, comes to no block twice, and ends having read bytes that are accepted. */
  ghost predicate Reads(u: Table, w: Writes, o: Layout, c: nat, acc: Bytes, path: seq<nat>, accept: iset<Bytes>)
    decreases |u| - |path|
  {
    if c == 0 then acc in accept
    else
      && |path| < |u| && c !in path && IsContinuation(u, c) && !InChain(o, c)
      && Reads(u, w, o, u[c].block.next, acc + u[c].block.data, path + [c], accept)
      && (c in w ==> Reads(u, w, o, w[c].next, acc + w[c].data, path + [c], accept))
  }

  /** cs is what a sound layout could make of the chain from c on, after path. */
  ghost predicate Tail(img: Table, o: Layout, c: nat, cs: seq<nat>, path: seq<nat>) {
    && IsChain(img, c, cs) && Distinct(cs)
    && forall i :: 0 <= i < |cs| ==> cs[i] !in path && !InChain(o, cs[i])
  }

  lemma TailPresent(img: Table, o: Layout, c: nat, cs: seq<nat>, path: seq<nat>)
    requires Tail(img, o, c, cs, path)
    ensures Present(img, cs)
  {
  }

  lemma TailCons(img: Table, o: Layout, c: nat, cs: seq<nat>, path: seq<nat>)
    requires IsContinuation(img, c) && c !in path && !InChain(o, c)
    requires Tail(img, o, img[c].block.next, cs, path + [c])
    ensures Tail(img, o, c, [c] + cs, path) && Present(img, cs) && Present(img, [c] + cs)
    ensures ChainBytes(img, [c] + cs) == img[c].block.data + ChainBytes(img, cs)
  {
    var all := [c] + cs;
    assert all[1..] == cs;
    forall i | 0 <= i < |all| ensures IsContinuation(img, all[i]) && LinkedAt(img, all, i) {
      if i > 0 { assert LinkedAt(img, cs, i - 1); }
    }
    forall i | 0 <= i < |cs| ensures cs[i] != c && cs[i] !in path {
      assert cs[i] !in path + [c];
    }
  }

  lemma TailRest(img: Table, o: Layout, c: nat, cs: seq<nat>, path: seq<nat>)
    requires Tail(img, o, c, cs, path) && c != 0
    ensures cs != [] && cs[0] == c && IsContinuation(img, c) && c !in path && !InChain(o, c)
    ensures Tail(img, o, img[c].block.next, cs[1..], path + [c]) && Present(img, cs) && Present(img, cs[1..])
    ensures ChainBytes(img, cs) == img[c].block.data + ChainBytes(img, cs[1..])
  {
    var rest := cs[1..];
    assert LinkedAt(img, cs, 0);
    forall i | 0 <= i < |rest| ensures IsContinuation(img, rest[i]) && LinkedAt(img, rest, i) {
      assert LinkedAt(img, cs, i + 1);
    }
  }

  /** A chain that reads well either way has an accepted tail in every torn table. */
  lemma {:induction false} TornReads(u: Table, w: Writes, o: Layout, img: Table, c: nat, acc: Bytes, path: seq<nat>,
                                    accept: iset<Bytes>) returns (cs: seq<nat>)
    requires Torn(u, w, img) && Reads(u, w, o, c, acc, path, accept)
    requires forall b :: b in w ==> w[b].kind == CONTINUATION
    ensures Tail(img, o, c, cs, path) && Present(img, cs) && acc + ChainBytes(img, cs) in accept
    decreases |u| - |path|
  {
    if c == 0 {
      cs := [];
      assert acc + [] == acc;
    } else {
      var b := img[c].block;
      var rest := TornReads(u, w, o, img, b.next, acc + b.data, path + [c], accept);
      TailCons(img, o, c, rest, path);
      cs := [c] + rest;
      assert acc + (b.data + ChainBytes(img, rest)) == acc + b.data + ChainBytes(img, rest);
    }
  }

  /** Outside path, img is u with exactly the writes to p. */
  ghost predicate Picked(u: Table, w: Writes, p: set<nat>, path: seq<nat>, img: Table) {
    && p <= w.Keys && |img| == |u|
    && forall b: nat :: b < |u| && b !in path ==> img[b] == if b in p then Full(w[b]) else u[b]
  }

  ghost predicate NoTail(u: Table, w: Writes, o: Layout, c: nat, acc: Bytes, path: seq<nat>, accept: iset<Bytes>,
                         p: set<nat>) {
    forall img, cs :: Picked(u, w, p, path, img) && Tail(img, o, c, cs, path) ==>
      (TailPresent(img, o, c, cs, path); acc + ChainBytes(img, cs) !in accept)
  }

  lemma RoomOnPath(u: Table, c: nat, path: seq<nat>)
    requires Distinct(path) && (forall i :: 0 <= i < |path| ==> 0 < path[i] < |u|) && 0 < c < |u| && c !in path
    ensures |path| < |u|
  {
    DistinctBound(path + [c], |u| - 1);
  }

  /** Going on with content b of block c fails, so going through c with that content does. */
  lemma TailFails(u: Table, w: Writes, o: Layout, c: nat, acc: Bytes, path: seq<nat>, accept: iset<Bytes>, p: set<nat>,
                  q: set<nat>)
    requires 0 < c < |u| && c !in path && p <= w.Keys && c !in p && u[c].Full?
    requires (q == p) || (q == p + {c} && c in w)
    requires var b := if c in q then w[c] else u[c].block;
             NoTail(u, w, o, b.next, acc + b.data, path + [c], accept, p)
    ensures NoTail(u, w, o, c, acc, path, accept, q)
  {
    var b := if c in q then w[c] else u[c].block;
    forall img, cs | Picked(u, w, q, path, img) && Tail(img, o, c, cs, path)
      ensures (TailPresent(img, o, c, cs, path); acc + ChainBytes(img, cs) !in accept)
    {
      TailRest(img, o, c, cs, path);
      assert img[c] == Full(b);
      assert Picked(u, w, p, path + [c], img);
      var rest := cs[1..];
      TailPresent(img, o, b.next, rest, path + [c]);
      assert acc + b.data + ChainBytes(img, rest) !in accept;
      assert acc + (b.data + ChainBytes(img, rest)) == acc + b.data + ChainBytes(img, rest);
    }
  }

  /** A chain that does not has none in the torn table with some picked writes. */
  lemma {:induction false} FailingPick(u: Table, w: Writes, o: Layout, c: nat, acc: Bytes, path: seq<nat>,
                                       accept: iset<Bytes>)
    returns (p: set<nat>)
    requires !Reads(u, w, o, c, acc, path, accept)
    requires Distinct(path) && forall i :: 0 <= i < |path| ==> 0 < path[i] < |u|
    ensures p <= w.Keys && (forall b :: b in p ==> b < |u| && b !in path)
    ensures NoTail(u, w, o, c, acc, path, accept, p)
    decreases |u| - |path|
  {
    if c == 0 || c in path || !IsContinuation(u, c) || InChain(o, c) {
      p := {};
      FailsAtOnce(u, w, o, c, acc, path, accept);
    } else {
      RoomOnPath(u, c, path);
      if !Reads(u, w, o, u[c].block.next, acc + u[c].block.data, path + [c], accept) {
        p := FailingPick(u, w, o, u[c].block.next, acc + u[c].block.data, path + [c], accept);
        TailFails(u, w, o, c, acc, path, accept, p, p);
      } else {
        var q := FailingPick(u, w, o, w[c].next, acc + w[c].data, path + [c], accept);
        p := q + {c};
        TailFails(u, w, o, c, acc, path, accept, q, p);
      }
    }
  }

  lemma TailAtEnd(img: Table, o: Layout, cs: seq<nat>, path: seq<nat>)
    requires Tail(img, o, 0, cs, path)
    ensures cs == []
  {
  }

  lemma FailsAtOnce(u: Table, w: Writes, o: Layout, c: nat, acc: Bytes, path: seq<nat>, accept: iset<Bytes>)
    requires c == 0 ==> acc !in accept
    requires c == 0 || c in path || !IsContinuation(u, c) || InChain(o, c)
    ensures NoTail(u, w, o, c, acc, path, accept, {})
  {
    forall img, cs | Picked(u, w, {}, path, img) && Tail(img, o, c, cs, path)
      ensures (TailPresent(img, o, c, cs, path); acc + ChainBytes(img, cs) !in accept)
    {
      TailPresent(img, o, c, cs, path);
      if c == 0 {
        TailAtEnd(img, o, cs, path);
        assert acc + [] == acc;
      } else {
        TailRest(img, o, c, cs, path);
      }
    }
  }

  /** A chain that none of the writes touches reads as it is. */
  lemma {:induction false} UntouchedReads(u: Table, w: Writes, o: Layout, c: nat, acc: Bytes, path: seq<nat>,
                                         accept: iset<Bytes>, cs: seq<nat>)
    requires Tail(u, o, c, cs, path) && forall i :: 0 <= i < |cs| ==> cs[i] !in w
    requires Present(u, cs) && acc + ChainBytes(u, cs) in accept
    requires Distinct(path) && forall i :: 0 <= i < |path| ==> 0 < path[i] < |u|
    ensures Reads(u, w, o, c, acc, path, accept)
    decreases |cs|
  {
    if c == 0 {
      TailAtEnd(u, o, cs, path);
      assert acc + [] == acc;
    } else {
      TailRest(u, o, c, cs, path);
      RoomOnPath(u, c, path);
      var b := u[c].block;
      assert acc + (b.data + ChainBytes(u, cs[1..])) == acc + b.data + ChainBytes(u, cs[1..]);
      UntouchedReads(u, w, o, b.next, acc + b.data, path + [c], accept, cs[1..]);
    }
  }

  // ---- Whole tables -----------------------------------------------------------------------------

  lemma TornReadable(u: Table, w: Writes, img: Table)
    requires Readable(u) && Torn(u, w, img)
    ensures Readable(img)
  {
  }

  /** Torn writes to blocks that no record uses change no record. */
  lemma TornUnused(t: Table, w: Writes, l: Layout, img: Table)
    requires Sound(t, l) && Torn(t, w, img)
    requires forall b :: b in w ==> b > 0 && !Used(l, b) && w[b].kind == CONTINUATION
    ensures Sound(img, l) && Records(img, l) == Records(t, l)
  {
    hide Used;
    TornReadable(t, w, img);
    UnusedBlocksChange(t, img, l);
  }

  lemma OthersTorn(u: Table, w: Writes, o: Layout, h: nat, img: Table, g: nat)
    requires Base(u, w, o, h) && Torn(u, w, img) && g in o
    ensures IsHead(img, g) && img[g] == u[g] && Chained(img, o, g) && Chained(u, o, g)
    ensures Present(img, o[g]) && Present(u, o[g]) && RecordAt(img, g, o[g]) == RecordAt(u, g, o[g])
  {
    assert Chained(u, o, g);
    var cs := o[g];
    forall i | 0 <= i < |cs| ensures img[cs[i]] == u[cs[i]] && LinkedAt(img, cs, i) {
      assert InChain(o, cs[i]) && LinkedAt(u, cs, i);
    }
    ChainBytesFrame(u, img, cs);
  }

  lemma TornHeads(u: Table, w: Writes, o: Layout, h: nat, img: Table, g: nat)
    requires Base(u, w, o, h) && Torn(u, w, img)
    ensures IsHead(img, g) <==> g in o || g == h
    ensures IsHead(img, h) && img[h] == u[h]
  {
    if g in o { OthersTorn(u, w, o, h, img, g); }
  }

  /** m holds the other records as they are, and record h with accepted bytes. */
  ghost predicate Mended(u: Table, o: Layout, h: nat, img: Table, m: Layout, accept: iset<Bytes>)
    requires IsHead(u, h)
  {
    && Sound(img, m) && m.Keys == o.Keys + {h}
    && (forall g :: g in o ==> Chained(u, o, g) && Records(img, m)[g] == RecordAt(u, g, o[g]))
    && Records(img, m)[h].tag == u[h].block.tag && Records(img, m)[h].bytes in accept
  }

  /** If record h reads well either way, every torn table is sound, with record h as accepted. */
  lemma TornMends(u: Table, w: Writes, o: Layout, h: nat, img: Table, accept: iset<Bytes>) returns (m: Layout)
    requires Base(u, w, o, h) && Torn(u, w, img)
    requires Reads(u, w, o, u[h].block.next, u[h].block.data, [], accept)
    ensures Mended(u, o, h, img, m, accept)
  {
    var cs := TornReads(u, w, o, img, u[h].block.next, u[h].block.data, [], accept);
    m := o[h := cs];
    TornReadable(u, w, img);
    forall g: nat ensures g in m <==> IsHead(img, g) { TornHeads(u, w, o, h, img, g); }
    forall g | g in m ensures Chained(img, m, g) {
      TornHeads(u, w, o, h, img, g);
      if g != h { OthersTorn(u, w, o, h, img, g); }
    }
    TailExclusive(img, o, h, u[h].block.next, cs);
    forall g | g in o ensures Chained(u, o, g) && Records(img, m)[g] == RecordAt(u, g, o[g]) {
      OthersTorn(u, w, o, h, img, g);
    }
  }

  lemma TailExclusive(img: Table, o: Layout, h: nat, c: nat, cs: seq<nat>)
    requires Exclusive(o) && h !in o && Tail(img, o, c, cs, [])
    ensures Exclusive(o[h := cs])
  {
    forall g, j, i | g in o && 0 <= j < |o[g]| && 0 <= i < |cs| ensures o[g][j] != cs[i] {
      assert InChain(o, o[g][j]);
    }
  }

  /** If it does not, some torn table has no sound layout with record h as accepted. */
  lemma TornFails(u: Table, w: Writes, o: Layout, h: nat, accept: iset<Bytes>) returns (p: set<nat>)
    requires Base(u, w, o, h)
    requires !Reads(u, w, o, u[h].block.next, u[h].block.data, [], accept)
    ensures p <= w.Keys && forall b :: b in p ==> b < |u|
    ensures forall img, m :: Picked(u, w, p, [], img) && Sound(img, m) ==>
              h in m && Records(img, m)[h].tag == u[h].block.tag && Records(img, m)[h].bytes !in accept
  {
    p := FailingPick(u, w, o, u[h].block.next, u[h].block.data, [], accept);
    forall img, m | Picked(u, w, p, [], img) && Sound(img, m)
      ensures h in m && Records(img, m)[h].tag == u[h].block.tag && Records(img, m)[h].bytes !in accept
    {
      PickedFails(u, w, o, h, accept, p, img, m);
    }
  }

  lemma PickedFails(u: Table, w: Writes, o: Layout, h: nat, accept: iset<Bytes>, p: set<nat>, img: Table, m: Layout)
    requires Base(u, w, o, h) && Picked(u, w, p, [], img) && Sound(img, m)
    requires NoTail(u, w, o, u[h].block.next, u[h].block.data, [], accept, p)
    ensures h in m && Records(img, m)[h].tag == u[h].block.tag && Records(img, m)[h].bytes !in accept
  {
    assert Torn(u, w, img);
    TornHeads(u, w, o, h, img, h);
    assert Chained(img, m, h);
    forall g | g in o ensures g in m && m[g] == o[g] {
      OthersTorn(u, w, o, h, img, g);
      assert Chained(img, m, g);
      ChainUnique(img, u[g].block.next, m[g], o[g]);
    }
    var cs, c := m[h], u[h].block.next;
    forall g, j, i | g in o && 0 <= j < |o[g]| && 0 <= i < |cs| ensures o[g][j] != cs[i] {
      assert g in m && m[g][j] == o[g][j] && g != h;
    }
    assert Tail(img, o, c, cs, []);
    TailPresent(img, o, c, cs, []);
    assert u[h].block.data + ChainBytes(img, cs) !in accept;
  }

  // ---- Which tables a crash leaves -----------------------------------------------------------------

  ghost function WritesOf(evs: seq<Event>): Writes {
    if evs == [] then map[]
    else
      var before, last := WritesOf(evs[..|evs| - 1]), evs[|evs| - 1];
      if last.Put? then before[last.id := last.block] else before
  }

  ghost predicate Puts(evs: seq<Event>) { forall i :: 0 <= i < |evs| ==> evs[i].Put? }

  lemma {:induction false} WritesMembers(evs: seq<Event>)
    requires Puts(evs)
    ensures forall b :: b in WritesOf(evs) ==> exists i :: 0 <= i < |evs| && evs[i] == Put(b, WritesOf(evs)[b])
    ensures forall i :: 0 <= i < |evs| ==> evs[i].id in WritesOf(evs)
  {
    if evs != [] {
      var n := |evs| - 1;
      var before := evs[..n];
      WritesMembers(before);
      forall b | b in WritesOf(evs) ensures exists i :: 0 <= i < |evs| && evs[i] == Put(b, WritesOf(evs)[b]) {
        if b == evs[n].id {
          assert evs[n] == Put(b, WritesOf(evs)[b]);
        } else {
          assert b in WritesOf(before) && WritesOf(before)[b] == WritesOf(evs)[b];
          var i :| 0 <= i < |before| && before[i] == Put(b, WritesOf(before)[b]);
          assert evs[i] == Put(b, WritesOf(evs)[b]);
        }
      }
      forall i | 0 <= i < |evs| ensures evs[i].id in WritesOf(evs) {
        if i < n { assert before[i].id in WritesOf(before); }
      }
    }
  }

  /** A crash that keeps exactly the writes to keep. */
  ghost function Kept(t: Table, evs: seq<Event>, keep: set<nat>): Table {
    if evs == [] then t
    else
      var before, last := Kept(t, evs[..|evs| - 1], keep), evs[|evs| - 1];
      if last.Put? && last.id in keep then Write(before, last.id, last.block) else before
  }

  lemma {:induction false} KeptSurvives(t: Table, evs: seq<Event>, keep: set<nat>)
    requires Puts(evs)
    ensures Survives(t, evs, Kept(t, evs, keep))
  {
    if evs != [] { KeptSurvives(t, evs[..|evs| - 1], keep); }
  }

  lemma {:induction false} KeptAt(t: Table, evs: seq<Event>, keep: set<nat>)
    requires Puts(evs) && forall b :: b in keep ==> b < |t|
    ensures |Kept(t, evs, keep)| == |t|
    ensures forall b: nat :: b < |t| ==>
              Kept(t, evs, keep)[b] == if b in keep && b in WritesOf(evs) then Full(WritesOf(evs)[b]) else t[b]
  {
    if evs != [] { KeptAt(t, evs[..|evs| - 1], keep); }
  }

  lemma TornStep(t: Table, w: Writes, kept: Table, id: nat, b: Block, img: Table)
    requires Torn(t, w, kept) && |kept| <= |t| + 1 && id <= |t| && id !in w
    requires img == kept || img == Write(kept, id, b)
    ensures Torn(t, w[id := b], img) && |img| <= |t| + 1
  {
  }

  /** Writes to different blocks, at most one of them past the end, leave a torn table. */
  lemma {:induction false} SurvivesTorn(t: Table, evs: seq<Event>, img: Table)
    requires Puts(evs) && Survives(t, evs, img)
    requires forall i, j :: 0 <= i < j < |evs| ==> evs[i].id != evs[j].id
    requires forall i :: 0 <= i < |evs| ==> evs[i].id <= |t|
    ensures Torn(t, WritesOf(evs), img) && |img| <= |t| + 1
  {
    if evs != [] {
      var n := |evs| - 1;
      var before, last := evs[..n], evs[n];
      var kept :| Survives(t, before, kept) && (img == kept || img == Write(kept, last.id, last.block));
      SurvivesTorn(t, before, kept);
      WritesMembers(before);
      hide Torn, Survives;
      assert last.id !in WritesOf(before);
      TornStep(t, WritesOf(before), kept, last.id, last.block, img);
    }
  }

  lemma LastKept(t: Table, before: seq<Event>, kept: Table, id: nat, b: Block)
    requires Survives(t, before, kept)
    ensures Survives(t, before + [Put(id, b)], Write(kept, id, b))
  {
    var all := before + [Put(id, b)];
    assert all[..|all| - 1] == before;
  }

  lemma TornUnderHead(t: Table, w: Writes, kept: Table, h: nat, b: Block)
    requires Torn(t, w, kept) && h !in w && h <= |t| && forall c :: c in w ==> c < |t|
    ensures Torn(Write(t, h, b), w, Write(kept, h, b))
  {
    assert |t| !in w;
  }

  lemma PickedUnderHead(t: Table, evs: seq<Event>, p: set<nat>, h: nat, b: Block)
    requires Puts(evs) && p <= WritesOf(evs).Keys && h !in p && h <= |t| && forall c :: c in p ==> c < |t|
    ensures Picked(Write(t, h, b), WritesOf(evs), p, [], Write(Kept(t, evs, p), h, b))
    requires h !in WritesOf(evs)
  {
    KeptAt(t, evs, p);
    hide Kept, WritesOf;
  }
}
