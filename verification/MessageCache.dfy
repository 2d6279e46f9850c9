/** Replaceable snapshots of one conversation, each under its own root of the conversation's store:
    one per fetched page and one for pending messages. */
module MessageCache {
  import opened Options
  import opened Codec
  import opened BlockTable
  import opened StoreSpec
  import opened Vault
  import opened LocalStorage
  import Directory

  const MESSAGE_TAG: nat := 2

  // ---- Root names -------------------------------------------------------------------------

  /** std::to_string of a number that is not negative. */
  function Decimal(n: nat): Directory.Name {
    if n < 10 then [48 + n as Byte] else Decimal(n / 10) + [48 + (n % 10) as Byte]
  }

  /** "pending-messages". */
  const PENDING: Directory.Name := [112, 101, 110, 100, 105, 110, 103, 45, 109, 101, 115, 115, 97, 103, 101, 115]

  datatype Slot = PageSlot(page: nat) | PendingSlot

  function RootOf(slot: Slot): Directory.Name {
    match slot
    case PageSlot(page) => Decimal(page)
    case PendingSlot => PENDING
  }

  lemma {:induction false} DecimalInjective(m: nat, n: nat)
    requires Decimal(m) == Decimal(n)
    ensures m == n
  {
    DecimalNotEmpty(m / 10);
    DecimalNotEmpty(n / 10);
    var a, b := Decimal(m), Decimal(n);
    assert a[|a| - 1] == b[|b| - 1];
    assert m % 10 == n % 10;
    if m >= 10 && n >= 10 {
      assert a[..|a| - 1] == Decimal(m / 10) && b[..|b| - 1] == Decimal(n / 10);
      DecimalInjective(m / 10, n / 10);
    }
  }

  function Number(digits: Directory.Name): int {
    if digits == [] then 0 else 10 * Number(digits[..|digits| - 1]) + (digits[|digits| - 1] as int - 48)
  }

  /** The digits of the number, highest first and without leading zeros. */
  lemma {:induction false} DecimalNumber(n: nat)
    ensures Number(Decimal(n)) == n && (n > 0 ==> Decimal(n)[0] != 48)
    ensures forall i :: 0 <= i < |Decimal(n)| ==> 48 <= Decimal(n)[i] <= 57
  {
    DecimalNotEmpty(n);
    if n >= 10 {
      DecimalNumber(n / 10);
      DecimalNotEmpty(n / 10);
      assert Decimal(n)[..|Decimal(n)| - 1] == Decimal(n / 10);
    } else {
      assert Decimal(n)[..0] == [];
    }
  }

  lemma {:induction false} DecimalNotEmpty(n: nat)
    ensures |Decimal(n)| >= 1 && 48 <= Decimal(n)[0] <= 57
  {
    if n >= 10 { DecimalNotEmpty(n / 10); }
  }

  /** Every page and the pending messages have a root of their own. */
  lemma RootOfInjective(a: Slot, b: Slot)
    requires RootOf(a) == RootOf(b)
    ensures a == b
  {
    if a.PageSlot? {
      DecimalNotEmpty(a.page);
      if b.PageSlot? { DecimalInjective(a.page, b.page); }
    } else if b.PageSlot? {
      DecimalNotEmpty(b.page);
    }
  }

  // ---- Snapshots ---------------------------------------------------------------------------

  function ReadSnapshot(v: Vault, root: Directory.Name): Option<Bytes> {
    if root in v.roots && v.roots[root] in v.records then Some(v.records[v.roots[root]].bytes) else None
  }

  /** No two roots share a record, and every root names a message record. */
  ghost predicate OwnRecords(v: Vault) {
    && (forall a :: a in v.roots ==> v.roots[a] in v.records && v.records[v.roots[a]].tag == MESSAGE_TAG)
    && (forall a, b :: a in v.roots && b in v.roots && a != b ==> v.roots[a] != v.roots[b])
  }

  ghost predicate OthersKept(v: Vault, v': Vault) {
    forall id :: (id in v.records && v.records[id].tag != MESSAGE_TAG) ==>
      id in v'.records && v'.records[id] == v.records[id]
  }

  /** saveSnapshot: a first save inserts a record and roots it, a later one updates it. */
  ghost predicate SavedUnder(v: Vault, root: Directory.Name, data: Bytes, v': Vault) {
    if root in v.roots then Step(v, Op.Update(v.roots[root], data), 0, v')
    else exists id, mid :: Step(v, Op.Insert(data, MESSAGE_TAG), id, mid) && Step(mid, Op.SetRoot(root, id), 0, v')
  }

  /** root names an id that is no record. */
  ghost predicate Stale(v: Vault, root: Directory.Name) { root in v.roots && v.roots[root] !in v.records }

  /** A save is read back under its root and changes nothing under any other. */
  lemma SavedReadsBack(v: Vault, root: Directory.Name, data: Bytes, v': Vault)
    requires OwnRecords(v) && SavedUnder(v, root, data, v')
    ensures OwnRecords(v') && OthersKept(v, v')
    ensures ReadSnapshot(v', root) == Some(data)
    ensures forall other :: other != root ==> ReadSnapshot(v', other) == ReadSnapshot(v, other)
  {
  }

  /** A record without a root, as a plain save or a save cut off before its root leaves it, shows
      nowhere. */
  lemma UnrootedInsert(v: Vault, data: Bytes, id: nat, v': Vault)
    requires OwnRecords(v) && Step(v, Op.Insert(data, MESSAGE_TAG), id, v')
    ensures OwnRecords(v') && OthersKept(v, v')
    ensures forall root :: ReadSnapshot(v', root) == ReadSnapshot(v, root)
  {
  }

  /** What is left when the listed records are removed one after the other. */
  ghost function WithoutRecords(v: Vault, ids: seq<nat>): Vault {
    Vault(map id | id in v.records && id !in ids :: v.records[id],
          map n | n in v.roots && v.roots[n] !in ids :: v.roots[n])
  }

  lemma WithoutNext(v: Vault, ids: seq<nat>, id: nat)
    requires id in WithoutRecords(v, ids).records
    ensures Step(WithoutRecords(v, ids), Op.Remove(id), 0, WithoutRecords(v, ids + [id]))
  {
    var before, after := WithoutRecords(v, ids), WithoutRecords(v, ids + [id]);
    assert forall x :: x in ids + [id] <==> x in ids || x == id;
    assert after.records == before.records - {id};
    assert after.roots == DropRoots(before.roots, id);
  }

  /** The ids of one tag, ascending. */
  ghost predicate Lists(v: Vault, tag: nat, ids: seq<nat>) {
    && (forall i, j :: 0 <= i < j < |ids| ==> ids[i] < ids[j])
    && forall id :: id in ids <==> id in v.records && v.records[id].tag == tag
  }

  ghost predicate ListsMessages(v: Vault, ids: seq<nat>) { Lists(v, MESSAGE_TAG, ids) }

  /** Removing every message record leaves no snapshot and every other record; stopping part way
      leaves each snapshot whole or gone. */
  lemma ClearedEmpties(v: Vault, ids: seq<nat>, k: nat)
    requires OwnRecords(v) && ListsMessages(v, ids) && k <= |ids|
    ensures OwnRecords(WithoutRecords(v, ids[..k])) && OthersKept(v, WithoutRecords(v, ids[..k]))
    ensures forall root :: ReadSnapshot(WithoutRecords(v, ids[..k]), root) in {None, ReadSnapshot(v, root)}
    ensures k == |ids| ==> forall root :: ReadSnapshot(WithoutRecords(v, ids[..k]), root) == None
  {
    assert forall id :: id in ids[..k] ==> id in ids;
    if k == |ids| { assert ids[..k] == ids; }
  }

  // ---- Runs of the cache ------------------------------------------------------------------------

  datatype Call = SaveTo(slot: Slot, data: Bytes) | Append(batch: Bytes) | Clear

  ghost predicate CallStep(v: Vault, c: Call, v': Vault) {
    match c
    case SaveTo(slot, data) => SavedUnder(v, RootOf(slot), data, v')
    case Append(batch) => exists id :: Step(v, Op.Insert(batch, MESSAGE_TAG), id, v')
    case Clear => exists ids :: ListsMessages(v, ids) && v' == WithoutRecords(v, ids)
  }

  ghost predicate Runs(vs: seq<Vault>, calls: seq<Call>) {
    |vs| == |calls| + 1 && forall i :: 0 <= i < |calls| ==> CallStep(vs[i], calls[i], vs[i + 1])
  }

  /** The last value saved under every slot since it was last cleared. */
  function LastSaved(calls: seq<Call>): map<Slot, Bytes> {
    if calls == [] then map[]
    else
      var before := LastSaved(calls[..|calls| - 1]);
      match calls[|calls| - 1]
      case SaveTo(slot, data) => before[slot := data]
      case Append(_) => before
      case Clear => map[]
  }

  ghost predicate Shows(v: Vault, m: map<Slot, Bytes>) {
    forall slot :: ReadSnapshot(v, RootOf(slot)) == if slot in m then Some(m[slot]) else None
  }

  lemma CallShows(v: Vault, c: Call, v': Vault, before: map<Slot, Bytes>, after: map<Slot, Bytes>)
    requires OwnRecords(v) && CallStep(v, c, v') && Shows(v, before)
    requires after == match c
                      case SaveTo(slot, data) => before[slot := data]
                      case Append(_) => before
                      case Clear => map[]
    ensures OwnRecords(v') && OthersKept(v, v') && Shows(v', after)
  {
    hide Step;
    match c
    case SaveTo(slot, data) =>
      SavedReadsBack(v, RootOf(slot), data, v');
      forall other ensures ReadSnapshot(v', RootOf(other)) == if other in after then Some(after[other]) else None {
        if other != slot && RootOf(other) == RootOf(slot) { RootOfInjective(other, slot); }
      }
    case Append(batch) =>
      var id :| Step(v, Op.Insert(batch, MESSAGE_TAG), id, v');
      UnrootedInsert(v, batch, id, v');
    case Clear =>
      var ids :| ListsMessages(v, ids) && v' == WithoutRecords(v, ids);
      ClearedEmpties(v, ids, |ids|);
      assert ids[..|ids|] == ids;
  }

  /** Over every run from an empty store, each page and the pending slot show exactly the last value
      saved there since the last clear. */
  lemma {:induction false} RunShowsLastSaved(vs: seq<Vault>, calls: seq<Call>)
    requires Runs(vs, calls) && vs[0] == Vault(map[], map[])
    ensures OwnRecords(vs[|calls|]) && Shows(vs[|calls|], LastSaved(calls))
    decreases |calls|
  {
    if calls != [] {
      var n := |calls| - 1;
      RunShowsLastSaved(vs[..n + 1], calls[..n]);
      assert vs[..n + 1][n] == vs[n];
      assert CallStep(vs[n], calls[n], vs[n + 1]);
      CallShows(vs[n], calls[n], vs[n + 1], LastSaved(calls[..n]), LastSaved(calls));
    }
  }

  // ---- The cache --------------------------------------------------------------------------------

  class MessageCache {
    const store: LocalStorage

    ghost predicate Valid()
      reads this, store
    {
      store.Valid()
    }

    ghost function Contents(): Vault
      reads this, store
      requires Valid()
    {
      store.Contents()
    }

    /** The blocks of the directory once root names id. */
    ghost function RootedSize(root: Directory.Name, id: nat): nat
      reads this, store
      requires store.cap > 0
    {
      |Pieces(Directory.Encode(store.roots[root := id]), store.cap)|
    }

    /** The file has room for a save of data under root. */
    ghost predicate RoomFor(root: Directory.Name, data: Bytes)
      reads this, store
      requires Valid()
    {
      && store.Room(|Pieces(data, store.cap)|)
      && forall id: nat :: store.Room(|Pieces(data, store.cap)| + RootedSize(root, id))
    }

    constructor (store: LocalStorage)
      requires store.Valid()
      ensures this.store == store && Valid()
    {
      this.store := store;
    }

    /** False, and no change, when the root has lost its record. */
    method SaveSnapshot(root: Directory.Name, data: Bytes) returns (ok: bool)
      requires Valid() && RoomFor(root, data)
      modifies store
      ensures Valid() && ok == !Stale(old(Contents()), root)
      ensures ok ==> SavedUnder(old(Contents()), root, data, Contents()) && ReadSnapshot(Contents(), root) == Some(data)
      ensures ok ==> store.Synced()
      ensures !ok ==> Contents() == old(Contents())
      ensures OwnRecords(old(Contents())) ==> ok && OwnRecords(Contents())
      ensures OwnRecords(old(Contents())) ==>
                forall other :: other != root ==>
                  ReadSnapshot(Contents(), other) == ReadSnapshot(old(Contents()), other)
    {
      hide Pieces, Directory.Encode, Exec, LayoutAfter, CrashRuns.Events, Inv, View, OwnRecords;
      ghost var v := Contents();
      OwnRootsLive(v);
      var id := store.Root(root);
      if id.None? {
        ghost var s, l := store.Now(), store.layout;
        var made := store.Insert(data, MESSAGE_TAG);
        InsertSize(s, l, data, MESSAGE_TAG);
        assert RootedSize(root, made.value) == old(RootedSize(root, made.value));
        ghost var mid := store.Contents();
        ok := store.SetRoot(root, made.value);
        assert Step(v, Op.Insert(data, MESSAGE_TAG), made.value, mid);
        assert Step(mid, Op.SetRoot(root, made.value), 0, Contents());
      } else {
        ok := store.Update(id.value, data);
        if !ok { return; }
      }
      store.SyncFile();
      if OwnRecords(v) { SavedReadsBack(v, root, data, Contents()); }
    }

    method SavePage(page: int, data: Bytes) returns (ok: bool)
      requires Valid() && (page >= 1 ==> RoomFor(Decimal(page), data))
      modifies store
      ensures Valid() && (page < 1 ==> !ok)
      ensures ok ==> CallStep(old(Contents()), SaveTo(PageSlot(page), data), Contents()) && store.Synced()
      ensures !ok ==> Contents() == old(Contents())
      ensures OwnRecords(old(Contents())) && page >= 1 ==> ok && OwnRecords(Contents())
    {
      hide Pieces, RootedSize, Inv, View, OwnRecords, ReadSnapshot, Step, SavedUnder;
      if page < 1 { return false; }
      ok := SaveSnapshot(Decimal(page), data);
    }

    method SavePending(data: Bytes) returns (ok: bool)
      requires Valid() && RoomFor(PENDING, data)
      modifies store
      ensures Valid()
      ensures ok ==> CallStep(old(Contents()), SaveTo(PendingSlot, data), Contents()) && store.Synced()
      ensures !ok ==> Contents() == old(Contents())
      ensures OwnRecords(old(Contents())) ==> ok && OwnRecords(Contents())
    {
      hide Pieces, RootedSize, Inv, View, OwnRecords, ReadSnapshot, Step, SavedUnder;
      ok := SaveSnapshot(PENDING, data);
    }

    method Save(batch: Bytes) returns (ok: bool)
      requires Valid() && store.Room(|Pieces(batch, store.cap)|)
      modifies store
      ensures Valid() && ok && CallStep(old(Contents()), Append(batch), Contents()) && store.Synced()
      ensures OwnRecords(old(Contents())) ==> OwnRecords(Contents())
    {
      hide Pieces, View, Exec, LayoutAfter, Inv, OwnRecords;
      ghost var v := Contents();
      var id := store.Insert(batch, MESSAGE_TAG);
      assert Step(v, Op.Insert(batch, MESSAGE_TAG), id.value, store.Contents());
      store.SyncFile();
      if OwnRecords(v) { UnrootedInsert(v, batch, id.value, Contents()); }
      ok := true;
    }

    /** A root that has lost its record may name the directory, whose text is then returned. */
    method ReadRoot(root: Directory.Name) returns (data: Option<Bytes>)
      requires Valid()
      ensures || (root in Contents().roots && Contents().roots[root] == store.dirId)
              || data == ReadSnapshot(Contents(), root)
      ensures OwnRecords(Contents()) ==> data == ReadSnapshot(Contents(), root)
    {
      hide Inv, View;
      var id := store.Root(root);
      if id.None? { return None; }
      DirectoryIsNoRecord(store.Now(), store.layout);
      data := store.Get(id.value);
    }

    method ReadPage(page: int) returns (data: Option<Bytes>)
      requires Valid()
      ensures page < 1 ==> data == None
      ensures page >= 1 && OwnRecords(Contents()) ==> data == ReadSnapshot(Contents(), RootOf(PageSlot(page)))
    {
      if page < 1 { return None; }
      data := ReadRoot(Decimal(page));
    }

    method ReadPending() returns (data: Option<Bytes>)
      requires Valid()
      ensures OwnRecords(Contents()) ==> data == ReadSnapshot(Contents(), RootOf(PendingSlot))
    {
      data := ReadRoot(PENDING);
    }

    /** The saved batches, in the order of their ids; one that is missing would fail the read. */
    method Read() returns (batches: Option<seq<Bytes>>, ghost ids: seq<nat>)
      requires Valid()
      ensures ListsMessages(Contents(), ids) && batches.Some? && |batches.value| == |ids|
      ensures forall i :: 0 <= i < |ids| ==> batches.value[i] == Contents().records[ids[i]].bytes
    {
      hide Inv, View, ListsMessages;
      var listed := MessageIds();
      ids := listed;
      ListedRecords(Contents(), ids);
      DirectoryIsNoRecord(store.Now(), store.layout);
      var out: seq<Bytes> := [];
      for i := 0 to |listed|
        invariant |out| == i && forall j :: 0 <= j < i ==> out[j] == Contents().records[listed[j]].bytes
      {
        var record := store.Get(listed[i]);
        if record.None? { return None, ids; }
        out := out + [record.value];
      }
      batches := Some(out);
    }

    /** k bounds the blocks of every directory that is written on the way. */
    method ClearAll(ghost k: nat) returns (ok: bool)
      requires Valid() && store.Room(Times(|Contents().records|, k))
      requires DirectoryBound(store.roots, store.cap, k)
      modifies store
      ensures Valid() && ok && CallStep(old(Contents()), Clear, Contents()) && store.Synced()
      ensures OwnRecords(old(Contents())) ==>
                OwnRecords(Contents()) && OthersKept(old(Contents()), Contents())
                && forall root :: ReadSnapshot(Contents(), root) == None
    {
      hide DirectoryBound, Inv, View, Step, OwnRecords, WithoutRecords, OthersKept, ReadSnapshot, ListsMessages, Times;
      ghost var v := Contents();
      ghost var start, all := store.nblocks, store.roots;
      var ids := MessageIds();
      AllListed(v, ids);
      var i := 0;
      while i < |ids|
        invariant 0 <= i <= |ids| && store.Valid() && store.Contents() == WithoutRecords(v, ids[..i])
        invariant store.nblocks <= start + Times(i, k) && store.roots.Keys <= all.Keys
      {
        MoreRoom(i, |v.records|, k);
        NextListed(v, ids, i);
        RemoveOne(ids[i], all, k);
        NextRemoved(v, ids, i, store.Contents());
        i := i + 1;
      }
      assert ids[..|ids|] == ids;
      if OwnRecords(v) { ClearedEmpties(v, ids, |ids|); }
      store.SyncFile();
      ok := true;
    }

    method MessageIds() returns (ids: seq<nat>)
      requires store.Valid()
      ensures ListsMessages(store.Contents(), ids)
    {
      hide Inv, View;
      ids := store.Ids(MESSAGE_TAG);
    }

    method RemoveOne(id: nat, ghost all: Directory.Roots, ghost k: nat)
      requires store.Valid() && store.Room(k) && id in store.Contents().records
      requires store.roots.Keys <= all.Keys && DirectoryBound(all, store.cap, k)
      modifies store
      ensures store.Valid() && Step(old(store.Contents()), Op.Remove(id), 0, store.Contents())
      ensures store.nblocks <= old(store.nblocks) + k && store.roots.Keys <= all.Keys
    {
      hide Pieces, Directory.Encode, LayoutAfter, CrashRuns.Events, Inv, View, DropRoots, Exec;
      RemoveRoom(store.Now(), store.layout, id, all, k);
      var found := store.Remove(id);
    }
  }

  /** No directory over these names takes more than k blocks. */
  ghost predicate DirectoryBound(roots: Directory.Roots, cap: nat, k: nat) {
    cap > 0 && forall r: Directory.Roots :: r.Keys <= roots.Keys ==> |Pieces(Directory.Encode(r), cap)| <= k
  }

  function Times(n: nat, k: nat): nat { if n == 0 then 0 else Times(n - 1, k) + k }

  lemma {:induction false} MoreRoom(i: nat, records: nat, k: nat)
    requires i < records
    ensures Times(i + 1, k) == Times(i, k) + k <= Times(records, k)
  {
    if i + 1 < records { MoreRoom(i, records - 1, k); }
  }

  lemma RemoveRoom(s: State, l: Layout, id: nat, all: Directory.Roots, k: nat)
    requires Inv(s, l) && id in View(s, l).records
    requires s.roots.Keys <= all.Keys && DirectoryBound(all, s.cap, k)
    ensures |Pieces(Directory.Encode(DropRoots(s.roots, id)), s.cap)| <= k
    ensures Exec(s, l, Op.Remove(id)).nblocks <= s.nblocks + k
    ensures Exec(s, l, Op.Remove(id)).roots.Keys <= all.Keys
  {
    hide Pieces, Directory.Encode, Exec, LayoutAfter, Inv, WithoutRecords;
    ViewKeys(s, l, id);
    ExecRefines(s, l, Op.Remove(id));
    RemoveFacts(s, l, id);
    assert DropRoots(s.roots, id).Keys <= all.Keys;
  }

  lemma AllListed(v: Vault, ids: seq<nat>)
    requires ListsMessages(v, ids)
    ensures |ids| <= |v.records| && v == WithoutRecords(v, ids[..0])
    ensures forall k: nat :: Times(0, k) == 0
  {
    assert ids[..0] == [];
    AscendingCount(ids, v.records.Keys);
  }

  lemma NextListed(v: Vault, ids: seq<nat>, i: nat)
    requires ListsMessages(v, ids) && i < |ids|
    ensures ids[i] in WithoutRecords(v, ids[..i]).records
  {
    assert ids[i] in ids && ids[i] in v.records;
  }

  lemma NextRemoved(v: Vault, ids: seq<nat>, i: nat, v': Vault)
    requires ListsMessages(v, ids) && i < |ids| && Step(WithoutRecords(v, ids[..i]), Op.Remove(ids[i]), 0, v')
    ensures v' == WithoutRecords(v, ids[..i + 1])
  {
    NextListed(v, ids, i);
    assert ids[..i] + [ids[i]] == ids[..i + 1];
    WithoutNext(v, ids[..i], ids[i]);
  }

  lemma OwnRootsLive(v: Vault)
    ensures OwnRecords(v) ==> forall a :: a in v.roots ==> v.roots[a] in v.records
  {
  }

  lemma ListedRecords(v: Vault, ids: seq<nat>)
    requires ListsMessages(v, ids)
    ensures forall i :: 0 <= i < |ids| ==> ids[i] in v.records
  {
  }

  lemma InsertSize(s: State, l: Layout, data: Bytes, tag: nat)
    requires Inv(s, l) && tag != DIRECTORY_TAG
    ensures Exec(s, l, Op.Insert(data, tag)).nblocks <= s.nblocks + |Pieces(data, s.cap)|
    ensures Exec(s, l, Op.Insert(data, tag)).roots == s.roots && Exec(s, l, Op.Insert(data, tag)).cap == s.cap
  {
  }

  lemma DirectoryIsNoRecord(s: State, l: Layout)
    requires Inv(s, l)
    ensures s.dirId !in View(s, l).records && View(s, l).roots == s.roots
  {
  }

  lemma {:induction false} AscendingCount(ids: seq<nat>, keys: set<nat>)
    requires forall i, j :: 0 <= i < j < |ids| ==> ids[i] < ids[j]
    requires forall i :: 0 <= i < |ids| ==> ids[i] in keys
    ensures |ids| <= |keys|
  {
    if ids != [] {
      var n := |ids| - 1;
      AscendingCount(ids[..n], keys - {ids[n]});
    }
  }
}
