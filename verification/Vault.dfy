/** The public operations of the store, and the plain map from ids to records that they refine. */
module Vault {
  import opened Codec
  import opened BlockTable
  import opened ChainWrite
  import opened StoreSpec
  import Directory

  datatype Op =
    | Insert(data: Bytes, tag: nat)
    | Update(id: nat, data: Bytes)
    | Remove(id: nat)
    | SetRoot(name: Directory.Name, id: nat)
    | RemoveRoot(name: Directory.Name)

  /** What a caller sees: every record but the directory, and the named roots. */
  datatype Vault = Vault(records: map<nat, Record>, roots: Directory.Roots)

  ghost function View(s: State, l: Layout): Vault
    requires Sound(s.table, l)
  {
    Vault(Records(s.table, l) - {s.dirId}, s.roots)
  }

  /** The guard of update, remove and setRoot. */
  predicate IsRecord(s: State, id: nat) {
    id != s.dirId && id in s.head
  }

  function WithRoot(s: State, name: Directory.Name, id: nat): State {
    s.(roots := s.roots[name := id])
  }

  function WithoutRoot(s: State, name: Directory.Name): State {
    s.(roots := s.roots - {name})
  }

  ghost predicate Rooted(roots: Directory.Roots, id: nat) {
    exists n :: n in roots && roots[n] == id
  }

  /** removeLocked: the record goes first, and the directory follows only if it named the record. */
  ghost function RemoveRecord(s: State, l: Layout, id: nat): State
    requires Inv(s, l) && IsRecord(s, id)
  {
    var mid := Unlink(s, l[id], id);
    if Rooted(s.roots, id) then SaveDirectory(mid, Without(l, id)) else mid
  }

  ghost function Exec(s: State, l: Layout, op: Op): State
    requires Inv(s, l)
  {
    match op
    case Insert(data, tag) => if tag == DIRECTORY_TAG then s else StoreSpec.Insert(s, data, tag)
    case Update(id, data) => if IsRecord(s, id) then StoreSpec.Update(s, l[id], id, data) else s
    case Remove(id) => if IsRecord(s, id) then RemoveRecord(s, l, id) else s
    case SetRoot(name, id) => if IsRecord(s, id) then SaveDirectory(WithRoot(s, name, id), l) else s
    case RemoveRoot(name) => if name in s.roots then SaveDirectory(WithoutRoot(s, name), l) else s
  }

  ghost function LayoutAfter(s: State, l: Layout, op: Op): Layout
    requires Inv(s, l)
  {
    match op
    case Insert(data, tag) =>
      if tag == DIRECTORY_TAG then l else l[InsertIds(s, data)[0] := InsertIds(s, data)[1..]]
    case Update(id, data) =>
      if IsRecord(s, id) then l[id := UpdateIds(s, id, data)[1..]] else l
    case Remove(id) =>
      if !IsRecord(s, id) then l
      else if Rooted(s.roots, id) then SaveDirectoryLayout(Unlink(s, l[id], id), Without(l, id))
      else Without(l, id)
    case SetRoot(name, id) =>
      if IsRecord(s, id) then SaveDirectoryLayout(WithRoot(s, name, id), l) else l
    case RemoveRoot(name) =>
      if name in s.roots then SaveDirectoryLayout(WithoutRoot(s, name), l) else l
  }

  // ---- Each operation keeps the invariant -------------------------------------------------

  /** Core and a single directory record, whose bytes may be out of date. */
  ghost predicate Unsaved(s: State, l: Layout) {
    Core(s, l) && OnlyDirectory(s.head, s.dirId)
  }

  lemma RootsChange(s: State, l: Layout, roots: Directory.Roots)
    requires Unsaved(s, l)
    ensures Unsaved(s.(roots := roots), l)
  {
  }

  lemma InsertInv(s: State, l: Layout, data: Bytes, tag: nat)
    requires Inv(s, l) && tag != DIRECTORY_TAG
    ensures Inv(StoreSpec.Insert(s, data, tag), l[InsertIds(s, data)[0] := InsertIds(s, data)[1..]])
  {
    hide Apply, Taken, Pieces, Records, Directory.Encode;
    InsertKeeps(s, l, data, tag);
  }

  lemma UpdateInv(s: State, l: Layout, id: nat, data: Bytes)
    requires Inv(s, l) && IsRecord(s, id)
    ensures Inv(StoreSpec.Update(s, l[id], id, data), l[id := UpdateIds(s, id, data)[1..]])
  {
    hide Apply, Taken, Pieces, Records, Directory.Encode;
    UpdateKeeps(s, l, id, data);
  }

  lemma UnlinkUnsaved(s: State, l: Layout, id: nat)
    requires Unsaved(s, l) && IsRecord(s, id)
    ensures Unsaved(Unlink(s, l[id], id), Without(l, id))
  {
    UnlinkKeeps(s, l, id);
  }

  lemma UnlinkDirectory(s: State, l: Layout, id: nat, s': State, m: Layout)
    requires Sound(s.table, l) && Sound(s'.table, m)
    requires HeadsExact(s, l) && DirectoryExact(s, l) && IsRecord(s, id) && !Rooted(s.roots, id)
    requires HeadsExact(s', m) && Records(s'.table, m) == Records(s.table, l) - {id}
    requires s'.head == s.head - {id} && s'.dirId == s.dirId && s'.roots == DropRoots(s.roots, id)
    ensures DirectoryExact(s', m)
  {
    hide Directory.Encode, Packed;
    NothingDropped(s.roots, id);
  }

  lemma NothingDropped(roots: Directory.Roots, id: nat)
    requires !Rooted(roots, id)
    ensures DropRoots(roots, id) == roots
  {
  }

  ghost function SavedRecord(roots: Directory.Roots): Record {
    Record(DIRECTORY_TAG, Directory.Encode(roots))
  }

  lemma FirstSave(s: State, l: Layout)
    requires Unsaved(s, l) && s.dirId == 0
    ensures var s', m := SaveDirectory(s, l), SaveDirectoryLayout(s, l);
            && Core(s', m) && OnlyDirectory(s'.head, s'.dirId) && s'.dirId != 0 && s'.dirId !in l
            && s'.roots == s.roots
            && Records(s'.table, m) == Records(s.table, l)[s'.dirId := SavedRecord(s.roots)]
  {
    var out := Directory.Encode(s.roots);
    InsertKeeps(s, l, out, DIRECTORY_TAG);
    InsertPlaced(s, l, out);
  }

  lemma LaterSave(s: State, l: Layout)
    requires Unsaved(s, l) && s.dirId != 0
    ensures var s', m := SaveDirectory(s, l), SaveDirectoryLayout(s, l);
            && Core(s', m) && OnlyDirectory(s'.head, s'.dirId) && s'.dirId == s.dirId
            && s'.roots == s.roots
            && Records(s'.table, m) == Records(s.table, l)[s'.dirId := SavedRecord(s.roots)]
  {
    hide Apply, Taken, Pieces, Records, Directory.Encode;
    UpdateKeeps(s, l, s.dirId, Directory.Encode(s.roots));
  }

  /** Saving writes the current roots to the one directory record, creating it if there is none. */
  lemma SaveInv(s: State, l: Layout)
    requires Unsaved(s, l)
    ensures Inv(SaveDirectory(s, l), SaveDirectoryLayout(s, l))
  {
    if s.dirId == 0 {
      FirstSave(s, l);
    } else {
      LaterSave(s, l);
    }
  }

  /** Block conservation, exact indexes and a faithful directory, after every operation. */
  lemma ExecInv(s: State, l: Layout, op: Op)
    requires Inv(s, l)
    ensures Inv(Exec(s, l, op), LayoutAfter(s, l, op))
  {
    hide StoreSpec.Insert, StoreSpec.Update, SaveDirectory, SaveDirectoryLayout, RemoveRecord;
    match op
    case Insert(data, tag) => if tag != DIRECTORY_TAG { InsertInv(s, l, data, tag); }
    case Update(id, data) => if IsRecord(s, id) { UpdateInv(s, l, id, data); }
    case Remove(id) => if IsRecord(s, id) { RemoveInv(s, l, id); }
    case SetRoot(name, id) =>
      if IsRecord(s, id) {
        RootsChange(s, l, s.roots[name := id]);
        SaveInv(WithRoot(s, name, id), l);
      }
    case RemoveRoot(name) =>
      if name in s.roots {
        RootsChange(s, l, s.roots - {name});
        SaveInv(WithoutRoot(s, name), l);
      }
  }

  lemma RemoveUnrootedInv(s: State, l: Layout, id: nat)
    requires Inv(s, l) && IsRecord(s, id) && !Rooted(s.roots, id)
    ensures Inv(Unlink(s, l[id], id), Without(l, id))
  {
    hide Apply, Records;
    UnlinkKeeps(s, l, id);
    UnlinkDirectory(s, l, id, Unlink(s, l[id], id), Without(l, id));
  }

  lemma RemoveInv(s: State, l: Layout, id: nat)
    requires Inv(s, l) && IsRecord(s, id)
    ensures Inv(RemoveRecord(s, l, id), LayoutAfter(s, l, Remove(id)))
  {
    hide Unlink, Without, SaveDirectory, SaveDirectoryLayout, Records;
    if Rooted(s.roots, id) {
      UnlinkUnsaved(s, l, id);
      SaveInv(Unlink(s, l[id], id), Without(l, id));
    } else {
      RemoveUnrootedInv(s, l, id);
    }
  }

  // ---- Refinement --------------------------------------------------------------------------

  /** The plain map the store stands for. id is the id an insert returns. */
  ghost predicate Step(v: Vault, op: Op, id: nat, v': Vault) {
    match op
    case Insert(data, tag) =>
      if tag == DIRECTORY_TAG then v' == v
      else id != 0 && id !in v.records && v' == v.(records := v.records[id := Record(tag, data)])
    case Update(i, data) =>
      v' == if i in v.records then v.(records := v.records[i := Record(v.records[i].tag, data)]) else v
    case Remove(i) =>
      v' == if i in v.records then Vault(v.records - {i}, DropRoots(v.roots, i)) else v
    case SetRoot(name, i) =>
      v' == if i in v.records then v.(roots := v.roots[name := i]) else v
    case RemoveRoot(name) =>
      v' == v.(roots := v.roots - {name})
  }

  ghost function NewId(s: State, op: Op): nat
    requires s.cap > 0
  {
    if op.Insert? then InsertIds(s, op.data)[0] else 0
  }

  lemma PutElsewhere(r: map<nat, Record>, id: nat, x: Record, dir: nat)
    requires id != dir
    ensures r[id := x] - {dir} == (r - {dir})[id := x]
  {
  }

  lemma PutHidden(r: map<nat, Record>, x: Record, dir: nat)
    ensures r[dir := x] - {dir} == r - {dir}
  {
  }

  lemma TakeElsewhere(r: map<nat, Record>, id: nat, dir: nat)
    ensures (r - {id}) - {dir} == (r - {dir}) - {id}
  {
  }

  lemma NoRecordZero(s: State, l: Layout)
    requires Sound(s.table, l)
    ensures Records(s.table, l) - {0} == Records(s.table, l)
  {
    assert 0 !in l;
  }

  ghost predicate Saved(s: State, l: Layout, s': State, m: Layout) {
    && Unsaved(s, l) && Core(s', m) && OnlyDirectory(s'.head, s'.dirId)
    && s'.dirId != 0 && s'.roots == s.roots
    && (if s.dirId == 0 then s'.dirId !in l else s'.dirId == s.dirId)
    && Records(s'.table, m) == Records(s.table, l)[s'.dirId := SavedRecord(s.roots)]
  }

  lemma SavedView(s: State, l: Layout, s': State, m: Layout)
    requires Saved(s, l, s', m)
    ensures View(s', m) == View(s, l)
  {
    var before := Records(s.table, l);
    PutHidden(before, SavedRecord(s.roots), s'.dirId);
    if s.dirId == 0 {
      NoRecordZero(s, l);
      TakeNothing(before, s'.dirId);
    }
  }

  lemma TakeNothing(r: map<nat, Record>, id: nat)
    requires id !in r
    ensures r - {id} == r
  {
  }

  lemma SaveDirectorySaves(s: State, l: Layout)
    requires Unsaved(s, l)
    ensures Saved(s, l, SaveDirectory(s, l), SaveDirectoryLayout(s, l))
  {
    if s.dirId == 0 {
      FirstSave(s, l);
    } else {
      LaterSave(s, l);
    }
  }

  lemma SaveKeepsView(s: State, l: Layout)
    requires Unsaved(s, l)
    ensures Sound(SaveDirectory(s, l).table, SaveDirectoryLayout(s, l))
    ensures View(SaveDirectory(s, l), SaveDirectoryLayout(s, l)) == View(s, l)
  {
    SaveDirectorySaves(s, l);
    SavedView(s, l, SaveDirectory(s, l), SaveDirectoryLayout(s, l));
  }

  lemma InsertRefines(s: State, l: Layout, data: Bytes, tag: nat)
    requires Inv(s, l) && tag != DIRECTORY_TAG
    ensures var ids, s' := InsertIds(s, data), StoreSpec.Insert(s, data, tag);
            && Sound(s'.table, l[ids[0] := ids[1..]])
            && Step(View(s, l), Insert(data, tag), ids[0], View(s', l[ids[0] := ids[1..]]))
  {
    InsertKeeps(s, l, data, tag);
    InsertPlaced(s, l, data);
    var id := InsertIds(s, data)[0];
    PutElsewhere(Records(s.table, l), id, Record(tag, data), s.dirId);
  }

  lemma UpdateRefines(s: State, l: Layout, id: nat, data: Bytes)
    requires Inv(s, l) && IsRecord(s, id)
    ensures var ids, s' := UpdateIds(s, id, data), StoreSpec.Update(s, l[id], id, data);
            && Sound(s'.table, l[id := ids[1..]])
            && Step(View(s, l), Update(id, data), 0, View(s', l[id := ids[1..]]))
  {
    UpdateKeeps(s, l, id, data);
    PutElsewhere(Records(s.table, l), id, Record(s.head[id].tag, data), s.dirId);
    assert Records(s.table, l)[id].tag == s.head[id].tag;
  }

  lemma UnlinkRefines(s: State, l: Layout, id: nat)
    requires Inv(s, l) && IsRecord(s, id)
    ensures var s' := Unlink(s, l[id], id);
            && Sound(s'.table, Without(l, id))
            && Step(View(s, l), Remove(id), 0, View(s', Without(l, id)))
  {
    UnlinkKeeps(s, l, id);
    TakeElsewhere(Records(s.table, l), id, s.dirId);
  }

  lemma RemoveRefines(s: State, l: Layout, id: nat)
    requires Inv(s, l) && IsRecord(s, id)
    ensures Sound(RemoveRecord(s, l, id).table, LayoutAfter(s, l, Remove(id)))
    ensures Step(View(s, l), Remove(id), 0, View(RemoveRecord(s, l, id), LayoutAfter(s, l, Remove(id))))
  {
    UnlinkRefines(s, l, id);
    if Rooted(s.roots, id) {
      UnlinkUnsaved(s, l, id);
      SaveKeepsView(Unlink(s, l[id], id), Without(l, id));
    }
  }

  lemma SaveRefines(s: State, l: Layout, roots: Directory.Roots)
    requires Inv(s, l)
    ensures var mid := s.(roots := roots);
            && Sound(SaveDirectory(mid, l).table, SaveDirectoryLayout(mid, l))
            && View(SaveDirectory(mid, l), SaveDirectoryLayout(mid, l)) == View(s, l).(roots := roots)
  {
    RootsChange(s, l, roots);
    SaveKeepsView(s.(roots := roots), l);
  }

  lemma SetRootRefines(s: State, l: Layout, name: Directory.Name, id: nat)
    requires Inv(s, l) && IsRecord(s, id)
    ensures Sound(Exec(s, l, SetRoot(name, id)).table, LayoutAfter(s, l, SetRoot(name, id)))
    ensures View(Exec(s, l, SetRoot(name, id)), LayoutAfter(s, l, SetRoot(name, id)))
         == View(s, l).(roots := s.roots[name := id])
  {
    hide StoreSpec.Insert, StoreSpec.Update, SaveDirectory, SaveDirectoryLayout, Records, FreeExact, Readable,
      TagsExact;
    SaveRefines(s, l, s.roots[name := id]);
  }

  /** The ids a caller can use are the heads other than the directory's. */
  lemma ViewKeys(s: State, l: Layout, id: nat)
    requires Inv(s, l)
    ensures id in View(s, l).records <==> IsRecord(s, id)
  {
    hide PackedAs, TagsExact, FreeExact, DirectoryExact, RecordAt;
  }

  lemma RemoveRootRefines(s: State, l: Layout, name: Directory.Name)
    requires Inv(s, l)
    ensures Sound(Exec(s, l, RemoveRoot(name)).table, LayoutAfter(s, l, RemoveRoot(name)))
    ensures View(Exec(s, l, RemoveRoot(name)), LayoutAfter(s, l, RemoveRoot(name)))
         == View(s, l).(roots := s.roots - {name})
  {
    hide StoreSpec.Insert, StoreSpec.Update, SaveDirectory, SaveDirectoryLayout, Records;
    if name in s.roots {
      SaveRefines(s, l, s.roots - {name});
    } else {
      assert s.roots - {name} == s.roots;
    }
  }

  /** One operation of the store is one step of the plain map. */
  lemma ExecRefines(s: State, l: Layout, op: Op)
    requires Inv(s, l)
    ensures Sound(Exec(s, l, op).table, LayoutAfter(s, l, op))
    ensures Step(View(s, l), op, NewId(s, op), View(Exec(s, l, op), LayoutAfter(s, l, op)))
  {
    hide StoreSpec.Insert, StoreSpec.Update, SaveDirectory, SaveDirectoryLayout, RemoveRecord, Records;
    match op
    case Insert(data, tag) => if tag != DIRECTORY_TAG { InsertRefines(s, l, data, tag); }
    case Update(id, data) => ViewKeys(s, l, id); if IsRecord(s, id) { UpdateRefines(s, l, id, data); }
    case Remove(id) => ViewKeys(s, l, id); if IsRecord(s, id) { RemoveRefines(s, l, id); }
    case SetRoot(name, id) => ViewKeys(s, l, id); if IsRecord(s, id) { SetRootRefines(s, l, name, id); }
    case RemoveRoot(name) => RemoveRootRefines(s, l, name);
  }

  // ---- Whole runs -----------------------------------------------------------------------

  ghost function Run(s: State, l: Layout, ops: seq<Op>): (r: (State, Layout))
    requires Inv(s, l)
    ensures Inv(r.0, r.1)
    decreases |ops|
  {
    if ops == [] then (s, l)
    else
      ExecInv(s, l, ops[0]);
      Run(Exec(s, l, ops[0]), LayoutAfter(s, l, ops[0]), ops[1..])
  }

  ghost predicate Follows(v: Vault, ops: seq<Op>, v': Vault)
    decreases |ops|
  {
    if |ops| == 0 then v' == v
    else exists id, mid :: Step(v, ops[0], id, mid) && Follows(mid, ops[1..], v')
  }

  /** Every run of the store is a run of the plain map. */
  lemma {:induction false} RunRefines(s: State, l: Layout, ops: seq<Op>)
    requires Inv(s, l)
    ensures Follows(View(s, l), ops, View(Run(s, l, ops).0, Run(s, l, ops).1))
    decreases |ops|
  {
    if ops != [] {
      ExecInv(s, l, ops[0]);
      ExecRefines(s, l, ops[0]);
      RunRefines(Exec(s, l, ops[0]), LayoutAfter(s, l, ops[0]), ops[1..]);
    }
  }

  ghost predicate Touches(op: Op, id: nat) {
    (op.Update? || op.Remove?) && op.id == id
  }

  /** A record keeps its last stored bytes through any run that neither updates nor removes it. */
  lemma {:induction false} UntouchedRecordStays(v: Vault, ops: seq<Op>, v': Vault, id: nat)
    requires Follows(v, ops, v') && id in v.records
    requires forall i :: 0 <= i < |ops| ==> !Touches(ops[i], id)
    ensures id in v'.records && v'.records[id] == v.records[id]
    decreases |ops|
  {
    if ops != [] {
      var x, mid :| Step(v, ops[0], x, mid) && Follows(mid, ops[1..], v');
      UntouchedRecordStays(mid, ops[1..], v', id);
    }
  }

  ghost predicate RootsLive(v: Vault) {
    forall n :: n in v.roots ==> v.roots[n] in v.records
  }

  /** Every root names a record, after any run. */
  lemma {:induction false} RootsStayLive(v: Vault, ops: seq<Op>, v': Vault)
    requires Follows(v, ops, v') && RootsLive(v)
    ensures RootsLive(v')
    decreases |ops|
  {
    if ops != [] {
      var x, mid :| Step(v, ops[0], x, mid) && Follows(mid, ops[1..], v');
      RootsStayLive(mid, ops[1..], v');
    }
  }
}
