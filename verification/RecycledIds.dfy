/** What handing out freed ids again does to roots that have lost their record, and to the order in
    which records are listed. */
module RecycledIds {
  import opened Options
  import opened Codec
  import opened BlockTable
  import opened ChainWrite
  import opened StoreSpec
  import opened Vault
  import opened Reopen
  import opened CrashRuns
  import opened KilledRuns
  import opened MessageCache
  import Directory

  // ---- Roots without a record ------------------------------------------------------------------

  /** The first save under an unused root: an insert, and a root for the new id. */
  ghost function FirstSaved(s: State, l: Layout, root: Directory.Name, data: Bytes): (r: (State, Layout))
    requires Inv(s, l)
    ensures Inv(r.0, r.1)
  {
    var insert, id := Op.Insert(data, MESSAGE_TAG), InsertIds(s, data)[0];
    ExecInv(s, l, insert);
    var s1, l1 := Exec(s, l, insert), LayoutAfter(s, l, insert);
    ExecInv(s1, l1, Op.SetRoot(root, id));
    (Exec(s1, l1, Op.SetRoot(root, id)), LayoutAfter(s1, l1, Op.SetRoot(root, id)))
  }

  lemma FirstSavedView(s: State, l: Layout, root: Directory.Name, data: Bytes)
    requires Inv(s, l)
    ensures var id, (s', l') := InsertIds(s, data)[0], FirstSaved(s, l, root, data);
            && id != 0 && id !in View(s, l).records
            && View(s', l') == Vault(View(s, l).records[id := Record(MESSAGE_TAG, data)], View(s, l).roots[root := id])
  {
    hide FreeExact, TagsExact, HeadsExact, PackedAs, DirectoryExact, Exec, LayoutAfter, View;
    var insert, id := Op.Insert(data, MESSAGE_TAG), InsertIds(s, data)[0];
    ExecInv(s, l, insert);
    ExecRefines(s, l, insert);
    var s1, l1 := Exec(s, l, insert), LayoutAfter(s, l, insert);
    ExecRefines(s1, l1, Op.SetRoot(root, id));
  }

  /** A save under an unused root changes what another root shows if and only if that root is stale and
      the allocator hands out its id next. */
  lemma SavesSpareExactly(s: State, l: Layout, a: Directory.Name, b: Directory.Name, data: Bytes)
    requires Inv(s, l) && a != b && b !in s.roots
    ensures var (s', l') := FirstSaved(s, l, b, data);
            ReadSnapshot(View(s', l'), a) == ReadSnapshot(View(s, l), a)
            <==> !(Stale(View(s, l), a) && s.roots[a] == InsertIds(s, data)[0])
  {
    hide FreeExact, TagsExact, HeadsExact, PackedAs, DirectoryExact, FirstSaved, View, Pieces, ReadSnapshot;
    FirstSavedView(s, l, b, data);
    ViewRoots(s, l);
    SparedByInsert(View(s, l), a, b, InsertIds(s, data)[0], data);
  }

  lemma SparedByInsert(v: Vault, a: Directory.Name, b: Directory.Name, id: nat, data: Bytes)
    requires a != b && id !in v.records
    ensures var w := Vault(v.records[id := Record(MESSAGE_TAG, data)], v.roots[b := id]);
            ReadSnapshot(w, a) == ReadSnapshot(v, a) <==> !(Stale(v, a) && v.roots[a] == id)
  {
  }

  /** After a crash between the two parts of the removal of record id, with root a, and a reopening: the
      next save under an unused root b shows under a too if and only if no block below id is free. */
  lemma HalfRemovedMisleadsExactly(s: State, l: Layout, id: nat, a: Directory.Name, b: Directory.Name, data: Bytes)
    returns (img: Table, s': State, m: Layout)
    requires Inv(s, l) && s.durable && Directory.Fits(s.roots) && HalfRemoves(s, l, Remove(id))
    requires a in s.roots && s.roots[a] == id && b !in s.roots
    ensures CrashImage(s.table, Events(s, l, Remove(id)), img) && Opens(img, s.cap, s.durable, s', m)
    ensures Inv(s', m) && ReadSnapshot(View(s', m), a) == None
    ensures var (t, n) := FirstSaved(s', m, b, data);
            ReadSnapshot(View(t, n), a) == Some(data) <==> forall c: nat :: 0 < c < id ==> Used(Without(l, id), c)
  {
    hide CrashImage, Opens, Events, FirstSaved, TrimTo, FreeBelow, View, Pieces, ReadSnapshot,
      FreeExact, TagsExact, HeadsExact, PackedAs, DirectoryExact;
    img, s', m := HalfRemovedOpens(s, l, id);
    ViewRoots(s, l);
    ViewRoots(s', m);
    HalfRemovedShows(View(s, l), id, a);
    NextIsLowest(s', m, data);
    IdGivenUp(s, l, id);
    FirstSavedView(s', m, b, data);
    ShowsNew(View(s', m), a, b, InsertIds(s', data)[0], data);
  }

  lemma HalfRemovedShows(v: Vault, id: nat, a: Directory.Name)
    requires a in v.roots && v.roots[a] == id
    ensures Stale(HalfRemoved(v, id), a) && HalfRemoved(v, id).roots == v.roots
    ensures ReadSnapshot(HalfRemoved(v, id), a) == None
  {
  }

  lemma ShowsNew(v: Vault, a: Directory.Name, b: Directory.Name, id: nat, data: Bytes)
    requires Stale(v, a) && a != b
    ensures var w := Vault(v.records[id := Record(MESSAGE_TAG, data)], v.roots[b := id]);
            ReadSnapshot(w, a) == Some(data) <==> v.roots[a] == id
  {
  }

  lemma IdGivenUp(s: State, l: Layout, id: nat)
    requires Inv(s, l) && HalfRemoves(s, l, Remove(id))
    ensures id > 0 && !Used(Without(l, id), id)
  {
    ViewKeys(s, l, id);
    assert IsHead(s.table, id);
    UsedAfterFree(s.table, l, id, id);
  }

  /** In a store that was just opened. */
  lemma NextIsLowest(s: State, l: Layout, data: Bytes)
    requires Inv(s, l) && s.free == FreeBelow(l, s.nblocks)
    ensures var b := InsertIds(s, data)[0]; b > 0 && !Used(l, b) && forall c: nat :: 0 < c < b ==> Used(l, c)
  {
    forall b: nat | Used(l, b) ensures b <= s.nblocks { UsedInRange(s, l, b); }
    hide Inv, Pieces, FreeBelow;
    LowestAllocatedFirst(l, s.nblocks, |Pieces(data, s.cap)|);
  }

  /** Such a run: into an empty file put one record under root a, crash in its removal, reopen, and save
      under root b. */
  lemma MisleadingRun(a: Directory.Name, b: Directory.Name, data: Bytes)
    returns (s: State, l: Layout, img: Table, s': State, m: Layout)
    requires a != b && |a| < U32_LIMIT
    ensures Inv(s, l) && CrashImage(s.table, Events(s, l, Remove(1)), img)
    ensures Opens(img, s.cap, s.durable, s', m) && Inv(s', m)
    ensures ReadSnapshot(View(s, l), a) == Some([]) && ReadSnapshot(View(s', m), a) == None
    ensures var (t, n) := FirstSaved(s', m, b, data); ReadSnapshot(View(t, n), a) == Some(data)
  {
    hide CrashImage, Opens, Events, FirstSaved, View, Exec, LayoutAfter,
      FreeExact, TagsExact, HeadsExact, PackedAs, DirectoryExact;
    s, l := RootedStore(a);
    img, s', m := HalfRemovedMisleadsExactly(s, l, 1, a, b, data);
  }

  lemma EmptyView()
    ensures Inv(EMPTY, map[]) && View(EMPTY, map[]) == Vault(map[], map[])
  {
  }

  lemma NextOfEmpty()
    ensures InsertIds(EMPTY, [])[0] == 1
  {
  }

  lemma FirstSavedMode(s: State, l: Layout, root: Directory.Name, data: Bytes)
    requires Inv(s, l)
    ensures FirstSaved(s, l, root, data).0.durable == s.durable
  {
    hide FreeExact, TagsExact, HeadsExact, PackedAs, DirectoryExact, Exec, LayoutAfter;
    var insert := Op.Insert(data, MESSAGE_TAG);
    ExecInv(s, l, insert);
    ExecMode(s, l, insert);
    ExecMode(Exec(s, l, insert), LayoutAfter(s, l, insert), Op.SetRoot(root, InsertIds(s, data)[0]));
  }

  lemma RootedStore(a: Directory.Name) returns (s: State, l: Layout)
    requires |a| < U32_LIMIT
    ensures Inv(s, l) && s.durable && s.roots == map[a := 1] && Directory.Fits(s.roots)
    ensures View(s, l) == Vault(map[1 := Record(MESSAGE_TAG, [])], map[a := 1]) && HalfRemoves(s, l, Remove(1))
  {
    hide FirstSaved, Exec, LayoutAfter, Pieces, FreeExact, TagsExact, HeadsExact, PackedAs, DirectoryExact;
    EmptyInv();
    EmptyView();
    FirstSavedView(EMPTY, map[], a, []);
    NextOfEmpty();
    var r := FirstSaved(EMPTY, map[], a, []);
    s, l := r.0, r.1;
    FirstSavedMode(EMPTY, map[], a, []);
    ViewRoots(s, l);
  }

  // ---- The order of a listing ----------------------------------------------------------------------

  lemma {:induction false} ListingUnique(a: seq<nat>, b: seq<nat>)
    requires forall i, j :: 0 <= i < j < |a| ==> a[i] < a[j]
    requires forall i, j :: 0 <= i < j < |b| ==> b[i] < b[j]
    requires forall x :: x in a <==> x in b
    ensures a == b
    decreases |a|
  {
    assert b != [] ==> b[0] in b;
    if a != [] {
      assert a[0] in b && b[0] in a;
      assert a[0] == b[0];
      forall x ensures x in a[1..] <==> x in b[1..] {
        assert x in a[1..] ==> x in a && x != a[0];
        assert x in b[1..] ==> x in b && x != b[0];
        assert x in a ==> x == a[0] || x in a[1..];
        assert x in b ==> x == b[0] || x in b[1..];
      }
      ListingUnique(a[1..], b[1..]);
    }
  }

  /** An insert is listed last if and only if its id is above every id of its tag. */
  lemma ListedLastExactly(s: State, l: Layout, data: Bytes, tag: nat, before: seq<nat>, after: seq<nat>)
    requires Inv(s, l) && tag != DIRECTORY_TAG && Lists(View(s, l), tag, before)
    requires Inv(Exec(s, l, Op.Insert(data, tag)), LayoutAfter(s, l, Op.Insert(data, tag)))
    requires Lists(View(Exec(s, l, Op.Insert(data, tag)), LayoutAfter(s, l, Op.Insert(data, tag))), tag, after)
    ensures after == before + [InsertIds(s, data)[0]] <==> forall x :: x in before ==> x < InsertIds(s, data)[0]
  {
    hide FreeExact, TagsExact, HeadsExact, PackedAs, DirectoryExact, Exec, LayoutAfter, View;
    ExecRefines(s, l, Op.Insert(data, tag));
    AppendedLast(View(s, l), tag, InsertIds(s, data)[0], data, before, after);
  }

  lemma AppendedLast(v: Vault, tag: nat, id: nat, data: Bytes, before: seq<nat>, after: seq<nat>)
    requires id !in v.records && Lists(v, tag, before)
    requires Lists(v.(records := v.records[id := Record(tag, data)]), tag, after)
    ensures after == before + [id] <==> forall x :: x in before ==> x < id
  {
    var all := before + [id];
    if forall x :: x in before ==> x < id {
      forall i, j | 0 <= i < j < |all| ensures all[i] < all[j] {
        if j == |before| { assert before[i] in before; }
      }
      ListingUnique(all, after);
    } else if after == all {
      forall x | x in before ensures x < id {
        var i :| 0 <= i < |before| && before[i] == x;
        assert after[i] < after[|before|];
      }
    }
  }

  /** While nothing is free a new record is listed last. */
  lemma FullStoreListsLast(s: State, l: Layout, data: Bytes, tag: nat, before: seq<nat>)
    requires Inv(s, l) && s.free == [] && Lists(View(s, l), tag, before)
    ensures forall x :: x in before ==> x < InsertIds(s, data)[0]
  {
    forall x | x in before ensures x < InsertIds(s, data)[0] {
      ViewKeys(s, l, x);
      UsedInRange(s, l, x);
    }
  }

  /** After one removal a new record takes the place of the removed one, before all later ones. */
  lemma RemovedIdListedEarly(s: State, l: Layout, x: nat, y: nat, data: Bytes)
    requires Inv(s, l) && IsRecord(s, x) && l[x] == [] && !Rooted(s.roots, x)
    requires IsRecord(s, y) && x < y
    ensures var op := Remove(x);
            var s1, l1 := Exec(s, l, op), LayoutAfter(s, l, op);
            && Inv(s1, l1) && y in View(s1, l1).records && View(s1, l1).records[y] == View(s, l).records[y]
            && InsertIds(s1, data)[0] == x < y
  {
    hide FreeExact, TagsExact, HeadsExact, PackedAs, DirectoryExact, Apply;
    ExecInv(s, l, Remove(x));
    ExecRefines(s, l, Remove(x));
    ViewKeys(s, l, x);
    ViewKeys(s, l, y);
    FreedTop(Unlink(s, [], x), x, data);
  }

  lemma FreedTop(s: State, x: nat, data: Bytes)
    requires s.cap > 0 && s.free != [] && s.free[|s.free| - 1] == x
    ensures InsertIds(s, data)[0] == x
  {
  }

  /** The blocks that a removal or an update gives up are taken again from the last one backwards. */
  lemma GivenUpTakenBack(s: State, l: Layout, x: nat, data: Bytes, next: Bytes)
    requires Inv(s, l) && IsRecord(s, x)
    ensures !Rooted(s.roots, x) ==>
              forall i :: 0 <= i < |InsertIds(Exec(s, l, Remove(x)), next)| && i <= |l[x]| ==>
                InsertIds(Exec(s, l, Remove(x)), next)[i] == ([x] + l[x])[|l[x]| - i]
    ensures forall i :: 0 <= i < |InsertIds(Exec(s, l, Op.Update(x, data)), next)| && i < |l[x]| ==>
              InsertIds(Exec(s, l, Op.Update(x, data)), next)[i] == l[x][|l[x]| - 1 - i]
  {
    hide FreeExact, TagsExact, PackedAs, DirectoryExact, Apply, Pieces;
    var free := s.free + [x] + l[x];
    assert free == s.free + ([x] + l[x]);
  }
}
