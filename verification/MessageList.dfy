/** The rows of the open conversation, the change notifications a view replays, and the two
    reconciliations of a list with new data: the in-place refresh and deletion by row numbers. */
module MessageList {
  import opened Options

  datatype Content = Content(text: string, mediaUrl: string, localPath: string)

  datatype Message = Message(id: string, recipient: string, timestamp: string, content: Content)

  datatype Row = Row(message: Message, date: string, section: string)

  /** What the model tells its views. Inserted and changed rows carry what a view reads back. */
  datatype Note =
    | Inserted(first: nat, rows: seq<Row>)
    | Moved(source: nat, target: nat)
    | Removed(first: nat, count: nat)
    | Changed(at: nat, row: Row)
    | Reset(rows: seq<Row>)

  function InsertAt<T>(s: seq<T>, i: nat, xs: seq<T>): seq<T>
    requires i <= |s|
  {
    s[..i] + xs + s[i..]
  }

  function RemoveAt<T>(s: seq<T>, i: nat, n: nat): seq<T>
    requires i + n <= |s|
  {
    s[..i] + s[i + n..]
  }

  /** QList::move: take the element at source out and put it back at target. */
  function Move<T>(s: seq<T>, source: nat, target: nat): seq<T>
    requires source < |s| && target < |s|
  {
    var without := RemoveAt(s, source, 1);
    InsertAt(without, target, [s[source]])
  }

  /** One notification applied to a mirror; None when its row numbers are not valid there. */
  function Follow(mirror: seq<Row>, n: Note): Option<seq<Row>> {
    match n
    case Inserted(first, rows) => if first <= |mirror| && rows != [] then Some(InsertAt(mirror, first, rows)) else None
    case Moved(source, target) =>
      if source < |mirror| && target < |mirror| && source != target then Some(Move(mirror, source, target)) else None
    case Removed(first, count) =>
      if count > 0 && first + count <= |mirror| then Some(RemoveAt(mirror, first, count)) else None
    case Changed(at, row) => if at < |mirror| then Some(mirror[at := row]) else None
    case Reset(rows) => Some(rows)
  }

  function Replay(mirror: seq<Row>, notes: seq<Note>): Option<seq<Row>>
    decreases |notes|
  {
    if notes == [] then Some(mirror)
    else
      match Replay(mirror, notes[..|notes| - 1])
      case None => None
      case Some(rows) => Follow(rows, notes[|notes| - 1])
  }

  lemma ReplayOne(mirror: seq<Row>, notes: seq<Note>, n: Note)
    ensures Replay(mirror, notes + [n]) ==
      match Replay(mirror, notes) case None => None case Some(rows) => Follow(rows, n)
  {
    assert (notes + [n])[..|notes|] == notes;
  }

  // ---- The in-place refresh ---------------------------------------------------------

  function Find(rows: seq<Row>, id: string): (i: nat)
    ensures i <= |rows|
    ensures i < |rows| ==> rows[i].message.id == id
    ensures forall j :: 0 <= j < i ==> rows[j].message.id != id
  {
    if rows == [] || rows[0].message.id == id then 0 else 1 + Find(rows[1..], id)
  }

  /** A refreshed message keeps the local path it had, unless its media changed or it brings one. */
  function Merge(incoming: Message, previous: Message): Message {
    if incoming.content.localPath == "" && incoming.content.mediaUrl == previous.content.mediaUrl
    then incoming.(content := incoming.content.(localPath := previous.content.localPath))
    else incoming
  }

  function Settle(row: Row, previous: Option<Row>): Row {
    match previous
    case None => row
    case Some(p) => row.(message := Merge(row.message, p.message))
  }

  function FirstWith(rows: seq<Row>, id: string): Option<Row> {
    var i := Find(rows, id);
    if i < |rows| then Some(rows[i]) else None
  }

  function DropFirst(rows: seq<Row>, id: string): seq<Row> {
    var i := Find(rows, id);
    if i < |rows| then RemoveAt(rows, i, 1) else rows
  }

  /** The list a refresh leaves: each incoming row takes over from the first old row still
      unclaimed with its id. */
  function Reconciled(rows: seq<Row>, incoming: seq<Row>): seq<Row>
    decreases |incoming|
  {
    if incoming == [] then []
    else
      var id := incoming[0].message.id;
      [Settle(incoming[0], FirstWith(rows, id))] + Reconciled(DropFirst(rows, id), incoming[1..])
  }

  lemma {:induction false} ReconciledShape(rows: seq<Row>, incoming: seq<Row>, i: nat)
    requires i < |incoming|
    ensures |Reconciled(rows, incoming)| == |incoming|
    ensures var r := Reconciled(rows, incoming)[i];
            && r.message.id == incoming[i].message.id
            && r.date == incoming[i].date && r.section == incoming[i].section
    decreases |incoming|
  {
    var id := incoming[0].message.id;
    if i > 0 {
      ReconciledShape(DropFirst(rows, id), incoming[1..], i - 1);
    } else if |incoming| > 1 {
      ReconciledShape(DropFirst(rows, id), incoming[1..], 0);
    }
  }

  lemma {:induction false} ReconciledLength(rows: seq<Row>, incoming: seq<Row>)
    ensures |Reconciled(rows, incoming)| == |incoming|
    decreases |incoming|
  {
    if incoming != [] { ReconciledLength(DropFirst(rows, incoming[0].message.id), incoming[1..]); }
  }

  // Reference definition: the k-th row with an id takes over from the k-th old row with that id.

  function Nth(rows: seq<Row>, id: string, k: nat): Option<Row> {
    if rows == [] then None
    else if rows[0].message.id != id then Nth(rows[1..], id, k)
    else if k == 0 then Some(rows[0])
    else Nth(rows[1..], id, k - 1)
  }

  function CountWith(rows: seq<Row>, id: string): nat {
    if rows == [] then 0 else (if rows[0].message.id == id then 1 else 0) + CountWith(rows[1..], id)
  }

  lemma {:induction false} FirstIsNth(rows: seq<Row>, id: string)
    ensures FirstWith(rows, id) == Nth(rows, id, 0)
  {
    if rows != [] && rows[0].message.id != id {
      FirstIsNth(rows[1..], id);
    }
  }

  lemma DropLater(rows: seq<Row>, x: string)
    requires rows != [] && rows[0].message.id != x
    ensures var d := DropFirst(rows, x);
            d != [] && d[0] == rows[0] && d[1..] == DropFirst(rows[1..], x)
  {
    var i := Find(rows[1..], x);
    if i < |rows[1..]| {
      assert RemoveAt(rows, i + 1, 1) == [rows[0]] + RemoveAt(rows[1..], i, 1);
    }
  }

  lemma {:induction false} NthAfterDrop(rows: seq<Row>, x: string, id: string, k: nat)
    ensures Nth(DropFirst(rows, x), id, k) == Nth(rows, id, if id == x then k + 1 else k)
  {
    if rows != [] {
      if rows[0].message.id == x {
        assert DropFirst(rows, x) == rows[1..];
      } else {
        DropLater(rows, x);
        NthAfterDrop(rows[1..], x, id, k);
        if id == rows[0].message.id && k > 0 {
          NthAfterDrop(rows[1..], x, id, k - 1);
        }
      }
    }
  }

  /** Duplicate ids included: occurrence k of an id in the incoming list is merged with
      occurrence k of that id in the old list, and is new when there is none. */
  lemma {:induction false} ReconciledIsByOccurrence(rows: seq<Row>, incoming: seq<Row>, i: nat)
    requires i < |incoming|
    ensures |Reconciled(rows, incoming)| == |incoming|
    ensures var id := incoming[i].message.id;
            Reconciled(rows, incoming)[i] == Settle(incoming[i], Nth(rows, id, CountWith(incoming[..i], id)))
    decreases |incoming|
  {
    hide DropFirst, Settle, Nth;
    ReconciledShape(rows, incoming, i);
    var id, first := incoming[i].message.id, incoming[0].message.id;
    if i == 0 {
      FirstIsNth(rows, id);
    } else {
      ReconciledIsByOccurrence(DropFirst(rows, first), incoming[1..], i - 1);
      assert incoming[..i][1..] == incoming[1..][..i - 1];
      NthAfterDrop(rows, first, id, CountWith(incoming[1..][..i - 1], id));
    }
  }

  /** Nth finds the row with this id that has k rows with it in front. */
  lemma {:induction false} NthIsOccurrence(rows: seq<Row>, id: string, k: nat, j: nat)
    requires j < |rows| && rows[j].message.id == id && CountWith(rows[..j], id) == k
    ensures Nth(rows, id, k) == Some(rows[j])
  {
    if j > 0 {
      assert rows[..j][1..] == rows[1..][..j - 1];
      NthIsOccurrence(rows[1..], id, if rows[0].message.id == id then k - 1 else k, j - 1);
    }
  }

  lemma {:induction false} NthMissing(rows: seq<Row>, id: string, k: nat)
    requires forall j :: 0 <= j < |rows| && rows[j].message.id == id ==> CountWith(rows[..j], id) != k
    ensures Nth(rows, id, k) == None
  {
    if rows != [] {
      var less := if rows[0].message.id == id then k - 1 else k;
      if rows[0].message.id == id { assert CountWith(rows[..0], id) != k; }
      forall j | 0 <= j < |rows[1..]| && rows[1..][j].message.id == id ensures CountWith(rows[1..][..j], id) != less {
        assert rows[1..][j] == rows[j + 1] && rows[..j + 1][1..] == rows[1..][..j];
        assert CountWith(rows[..j + 1], id) != k;
      }
      NthMissing(rows[1..], id, less);
    }
  }

  /** Row j of the old list is the counterpart of incoming row i: the same id, and as many rows with that id
      in front. */
  predicate Counterpart(rows: seq<Row>, incoming: seq<Row>, i: nat, j: nat)
    requires i < |incoming| && j < |rows|
  {
    var id := incoming[i].message.id;
    rows[j].message.id == id && CountWith(rows[..j], id) == CountWith(incoming[..i], id)
  }

  /** A refreshed row is the incoming one in every field but the local path, which it takes from its
      counterpart when it brings none and the media are the same. */
  lemma ReconciledContent(rows: seq<Row>, incoming: seq<Row>, i: nat)
    requires i < |incoming|
    ensures |Reconciled(rows, incoming)| == |incoming|
    ensures var got, want := Reconciled(rows, incoming)[i].message, incoming[i].message;
            && got.id == want.id && got.recipient == want.recipient && got.timestamp == want.timestamp
            && got.content.text == want.content.text && got.content.mediaUrl == want.content.mediaUrl
    ensures var got, want := Reconciled(rows, incoming)[i].message.content, incoming[i].message.content;
            && (forall j :: 0 <= j < |rows| && Counterpart(rows, incoming, i, j) ==>
                  var old0 := rows[j].message.content;
                  got.localPath == if want.localPath == "" && want.mediaUrl == old0.mediaUrl then old0.localPath
                                   else want.localPath)
            && ((forall j :: 0 <= j < |rows| ==> !Counterpart(rows, incoming, i,
              j)) ==> got.localPath == want.localPath)
  {
    var id := incoming[i].message.id;
    var k := CountWith(incoming[..i], id);
    ReconciledIsByOccurrence(rows, incoming, i);
    forall j | 0 <= j < |rows| && Counterpart(rows, incoming, i, j) ensures Nth(rows, id, k) == Some(rows[j]) {
      NthIsOccurrence(rows, id, k, j);
    }
    if forall j :: 0 <= j < |rows| ==> !Counterpart(rows, incoming, i, j) {
      NthMissing(rows, id, k);
    }
  }

  // ---- Deletion by row numbers ----------------------------------------------------------

  /** The rows from i on whose numbers are not in gone, in order. */
  function Kept(rows: seq<Row>, gone: set<int>, i: nat): seq<Row>
    requires i <= |rows|
    decreases |rows| - i
  {
    if i == |rows| then [] else (if i in gone then [] else [rows[i]]) + Kept(rows, gone, i + 1)
  }

  /** kept are the rows from i on that are not gone, each once and in order: they stand at these places. */
  ghost predicate StandAt(kept: seq<Row>, rows: seq<Row>, gone: set<int>, i: nat, places: seq<nat>) {
    && |places| == |kept| && (forall k, m :: 0 <= k < m < |places| ==> places[k] < places[m])
    && (forall k :: 0 <= k < |places| ==> i <= places[k] < |rows| && kept[k] == rows[places[k]])
    && (forall j: nat :: j in places <==> i <= j < |rows| && j !in gone)
  }

  lemma {:induction false} KeptExactly(rows: seq<Row>, gone: set<int>, i: nat) returns (places: seq<nat>)
    requires i <= |rows|
    ensures StandAt(Kept(rows, gone, i), rows, gone, i, places)
    decreases |rows| - i
  {
    KeptFirst(rows, gone, i);
    if i == |rows| {
      places := [];
    } else {
      var rest := KeptExactly(rows, gone, i + 1);
      places := if i in gone then rest else [i] + rest;
      hide Kept;
      if i !in gone { StandInFront(Kept(rows, gone, i + 1), rows, gone, i, rest); }
    }
  }

  lemma StandInFront(kept: seq<Row>, rows: seq<Row>, gone: set<int>, i: nat, rest: seq<nat>)
    requires i < |rows| && i !in gone && StandAt(kept, rows, gone, i + 1, rest)
    ensures StandAt([rows[i]] + kept, rows, gone, i, [i] + rest)
  {
    forall j: nat ensures j in [i] + rest <==> i <= j < |rows| && j !in gone {
      assert j in [i] + rest <==> j == i || j in rest;
    }
  }

  lemma KeptFirst(rows: seq<Row>, gone: set<int>, i: nat)
    requires i <= |rows|
    ensures i == |rows| ==> Kept(rows, gone, i) == []
    ensures i < |rows| ==>
              Kept(rows, gone, i) == if i in gone then Kept(rows, gone, i + 1) else [rows[i]] + Kept(rows, gone, i + 1)
  {
    if i < |rows| && i in gone { assert [] + Kept(rows, gone, i + 1) == Kept(rows, gone, i + 1); }
  }

  predicate Descending(s: seq<int>) {
    forall i, j :: 0 <= i < j < |s| ==> s[i] > s[j]
  }

  function Place(sorted: seq<int>, x: int): seq<int> {
    if sorted == [] || x > sorted[0] then [x] + sorted
    else if x == sorted[0] then sorted
    else [sorted[0]] + Place(sorted[1..], x)
  }

  /** std::sort with std::greater, then std::unique. */
  function DescendingOnce(s: seq<int>): seq<int> {
    if s == [] then [] else Place(DescendingOnce(s[1..]), s[0])
  }

  lemma {:induction false} PlaceSorts(sorted: seq<int>, x: int)
    requires Descending(sorted)
    ensures Descending(Place(sorted, x))
    ensures forall y :: y in Place(sorted, x) <==> y in sorted || y == x
  {
    if sorted != [] && x < sorted[0] {
      PlaceSorts(sorted[1..], x);
      var placed := Place(sorted[1..], x);
      forall j | 0 <= j < |placed| ensures sorted[0] > placed[j] {
        assert placed[j] in placed;
      }
    }
  }

  lemma {:induction false} DescendingOnceSorts(s: seq<int>)
    ensures Descending(DescendingOnce(s)) && forall y :: y in DescendingOnce(s) <==> y in s
  {
    if s != [] {
      DescendingOnceSorts(s[1..]);
      PlaceSorts(DescendingOnce(s[1..]), s[0]);
    }
  }

  /** The last of the rows named: everything above it is kept as it is. */
  lemma {:induction false} KeptSkips(rows: seq<Row>, gone: set<int>, i: nat, j: nat)
    requires i <= j <= |rows| && forall k :: i <= k < j ==> k !in gone
    ensures Kept(rows, gone, i) == rows[i..j] + Kept(rows, gone, j)
    decreases j - i
  {
    var tail := Kept(rows, gone, j);
    if i < j {
      KeptSkips(rows, gone, i + 1, j);
      Cons(rows, i, j, tail);
    } else {
      assert rows[i..j] + tail == tail;
    }
  }

  lemma Cons(rows: seq<Row>, i: nat, j: nat, tail: seq<Row>)
    requires i < j <= |rows|
    ensures [rows[i]] + (rows[i + 1..j] + tail) == rows[i..j] + tail
  {
  }

  lemma {:induction false} KeptLength(rows: seq<Row>, gone: set<int>, i: nat)
    requires i <= |rows|
    ensures |Kept(rows, gone, i)| <= |rows| - i
    decreases |rows| - i
  {
    KeptFirst(rows, gone, i);
    hide Kept;
    if i < |rows| {
      KeptLength(rows, gone, i + 1);
    }
  }

  function Displaced<T>(s: seq<T>, source: nat, target: nat, i: nat): T
    requires target < source < |s| && i < |s|
  {
    if i < target || i > source then s[i] else if i == target then s[source] else s[i - 1]
  }

  /** Where a move towards the front leaves each element. */
  lemma MoveAt<T>(s: seq<T>, source: nat, target: nat)
    requires target < source < |s|
    ensures |Move(s, source, target)| == |s|
    ensures forall i :: 0 <= i < |s| ==> Move(s, source, target)[i] == Displaced(s, source, target, i)
  {
  }
}
