/** The conversation view model's list: three parallel lists changed in place, with the
    notifications each change emits. */
module MessagingModel {
  import opened Options
  import opened MessageList

  function Zip(messages: seq<Message>, dates: seq<string>, sections: seq<string>): (rows: seq<Row>)
    requires |messages| == |dates| == |sections|
    ensures |rows| == |messages|
    ensures forall i :: 0 <= i < |rows| ==> rows[i] == Row(messages[i], dates[i], sections[i])
  {
    seq(|messages|, i requires 0 <= i < |messages| => Row(messages[i], dates[i], sections[i]))
  }

  class MessagingModel {
    var messages: seq<Message>
    var displayDates: seq<string>
    var sections: seq<string>

    /** The rows at some moment, and every notification since. */
    ghost var start: seq<Row>
    ghost var notes: seq<Note>

    ghost predicate Aligned()
      reads this
    {
      |messages| == |displayDates| == |sections|
    }

    ghost function Rows(): seq<Row>
      reads this
      requires Aligned()
    {
      Zip(messages, displayDates, sections)
    }

    /** The lists are aligned, and a mirror that replays the notifications holds exactly their rows. */
    ghost predicate Valid()
      reads this
    {
      Aligned() && Replay(start, notes) == Some(Rows())
    }

    constructor ()
      ensures Valid() && Rows() == []
    {
      messages, displayDates, sections := [], [], [];
      start, notes := [], [];
    }

    ghost method Emit(n: Note, before: seq<Row>)
      requires Aligned() && Replay(start, notes) == Some(before) && Follow(before, n) == Some(Rows())
      modifies this`notes
      ensures Valid() && notes == old(notes) + [n]
    {
      ReplayOne(start, notes, n);
      notes := notes + [n];
    }

    // ---- The single steps of the loops ------------------------------------------------

    method InsertRow(at: nat, message: Message, date: string, section: string)
      requires Valid() && at <= |messages|
      modifies this`messages, this`displayDates, this`sections, this`notes
      ensures Valid() && Rows() == InsertAt(old(Rows()), at, [Row(message, date, section)])
      ensures notes == old(notes) + [Inserted(at, [Row(message, date, section)])]
    {
      hide Replay;
      messages := InsertAt(messages, at, [message]);
      displayDates := InsertAt(displayDates, at, [date]);
      sections := InsertAt(sections, at, [section]);
      assert Rows() == InsertAt(old(Rows()), at, [Row(message, date, section)]);
      Emit(Inserted(at, [Row(message, date, section)]), old(Rows()));
    }

    method MoveRow(source: nat, target: nat)
      requires Valid() && target < source < |messages|
      modifies this`messages, this`displayDates, this`sections, this`notes
      ensures Valid() && Rows() == Move(old(Rows()), source, target)
      ensures notes == old(notes) + [Moved(source, target)]
    {
      hide Replay;
      hide Move;
      MoveAt(messages, source, target);
      MoveAt(displayDates, source, target);
      MoveAt(sections, source, target);
      ghost var before := Rows();
      MoveAt(before, source, target);
      messages := Move(messages, source, target);
      displayDates := Move(displayDates, source, target);
      sections := Move(sections, source, target);
      forall i | 0 <= i < |before| ensures Rows()[i] == Move(before, source, target)[i] {
      }
      assert Rows() == Move(before, source, target);
      Emit(Moved(source, target), old(Rows()));
    }

    method ReplaceRow(at: nat, message: Message, date: string, section: string)
      requires Valid() && at < |messages|
      modifies this`messages, this`displayDates, this`sections, this`notes
      ensures Valid() && Rows() == old(Rows())[at := Row(message, date, section)]
      ensures notes == old(notes) + [Changed(at, Row(message, date, section))]
    {
      hide Replay;
      messages := messages[at := message];
      displayDates := displayDates[at := date];
      sections := sections[at := section];
      assert Rows() == old(Rows())[at := Row(message, date, section)];
      Emit(Changed(at, Row(message, date, section)), old(Rows()));
    }

    method RemoveRows(first: nat, count: nat)
      requires Valid() && count > 0 && first + count <= |messages|
      modifies this`messages, this`displayDates, this`sections, this`notes
      ensures Valid() && Rows() == RemoveAt(old(Rows()), first, count)
      ensures notes == old(notes) + [Removed(first, count)]
    {
      hide Replay;
      messages := RemoveAt(messages, first, count);
      displayDates := RemoveAt(displayDates, first, count);
      sections := RemoveAt(sections, first, count);
      assert Rows() == RemoveAt(old(Rows()), first, count);
      Emit(Removed(first, count), old(Rows()));
    }

    // ---- insertMessage, fetchNextMessage, deleteMessage, messageUpdated ------------------

    method Append(message: Message, date: string, section: string)
      requires Valid()
      modifies this`messages, this`displayDates, this`sections, this`notes
      ensures Valid() && Rows() == old(Rows()) + [Row(message, date, section)]
    {
      InsertRow(|messages|, message, date, section);
    }

    /** A page of older messages goes in front, with one notification; an empty page does nothing. */
    method Prepend(older: seq<Message>, dates: seq<string>, sects: seq<string>)
      requires Valid() && |older| == |dates| == |sects|
      modifies this`messages, this`displayDates, this`sections, this`notes
      ensures Valid() && Rows() == Zip(older, dates, sects) + old(Rows())
      ensures notes == old(notes) + if older == [] then [] else [Inserted(0, Zip(older, dates, sects))]
    {
      hide Replay;
      if |older| > 0 {
        messages, displayDates, sections := older + messages, dates + displayDates, sects + sections;
        assert Rows() == InsertAt(old(Rows()), 0, Zip(older, dates, sects));
        Emit(Inserted(0, Zip(older, dates, sects)), old(Rows()));
      }
    }

    /** Arbitrary, repeated and out-of-range row numbers: exactly the valid ones named go. */
    method Delete(rows: seq<int>)
      requires Valid()
      modifies this`messages, this`displayDates, this`sections, this`notes
      ensures Valid() && Rows() == Kept(old(Rows()), set r | r in rows, 0)
    {
      hide Replay;
      var order := DescendingOnce(rows);
      DescendingOnceSorts(rows);
      ghost var all, gone := Rows(), set r | r in rows;
      ghost var limit: nat := |all|;
      for k := 0 to |order|
        invariant Valid() && limit <= |all| && Rows() == all[..limit] + Kept(all, gone, limit)
        invariant forall j :: k <= j < |order| ==> order[j] < limit || order[j] >= |all|
        invariant forall r :: r in rows && 0 <= r < limit ==> r in order[k..]
      {
        var row := order[k];
        KeptLength(all, gone, limit);
        if 0 <= row < |messages| {
          SplitAtRow(all, gone, row, limit, order, k);
          RemoveRows(row, 1);
          limit := row;
        }
      }
      KeptSkips(all, gone, 0, limit);
    }

    /** The first row with this id and recipient takes the new content; no other field changes. */
    method UpdateContent(id: string, recipient: string, content: Content)
      requires Valid()
      modifies this`messages, this`displayDates, this`sections, this`notes
      ensures Valid() && Rows() == WithContent(old(Rows()), id, recipient, content)
    {
      hide Replay;
      var at := 0;
      while at < |messages|
        invariant at <= |messages| && Valid()
        invariant Rows() == old(Rows())
        invariant forall j :: 0 <= j < at ==> !Matches(Rows()[j], id, recipient)
      {
        var m := messages[at];
        if m.id == id && m.recipient == recipient {
          FirstMatchIs(Rows(), id, recipient, at);
          ReplaceRow(at, m.(content := content), displayDates[at], sections[at]);
          return;
        }
        at := at + 1;
      }
      FirstMatchIs(Rows(), id, recipient, at);
    }

    // ---- applyFetchedMessages ----------------------------------------------------------

    /** The labels of the fetched messages, computed before anything changes. */
    method Labels(incoming: seq<Message>, dateOf: string -> string, sectionOf: string -> string)
      returns (dates: seq<string>, sects: seq<string>)
      ensures |dates| == |sects| == |incoming|
      ensures forall i :: 0 <= i < |incoming| ==> dates[i] == dateOf(incoming[i].timestamp)
      ensures forall i :: 0 <= i < |incoming| ==> sects[i] == sectionOf(incoming[i].timestamp)
    {
      dates, sects := [], [];
      for i := 0 to |incoming|
        invariant |dates| == |sects| == i
        invariant forall j :: 0 <= j < i ==> dates[j] == dateOf(incoming[j].timestamp)
        invariant forall j :: 0 <= j < i ==> sects[j] == sectionOf(incoming[j].timestamp)
      {
        dates := dates + [dateOf(incoming[i].timestamp)];
        sects := sects + [sectionOf(incoming[i].timestamp)];
      }
    }

    /** The first row from at on with this id, or the end of the list. */
    method FindFrom(at: nat, id: string) returns (found: nat)
      requires Aligned() && at <= |messages|
      ensures found == at + Find(Rows()[at..], id)
    {
      found := at;
      while found < |messages| && messages[found].id != id
        invariant at <= found <= |messages|
        invariant found + Find(Rows()[found..], id) == at + Find(Rows()[at..], id)
      {
        assert Rows()[found..][1..] == Rows()[found + 1..];
        found := found + 1;
      }
    }

    /** One round of the refresh: row at becomes the incoming row, merged with the first row from
        there on that has its id; the other rows keep their order. */
    method RefreshRow(at: nat, incoming: Message, date: string, section: string)
      requires Valid() && at <= |messages|
      modifies this`messages, this`displayDates, this`sections, this`notes
      ensures Valid() && at < |messages|
      ensures Rows() == Round(old(Rows()), at, Row(incoming, date, section))
    {
      hide Replay, Find, Move, InsertAt, RemoveAt, Zip, Round, Merge;
      ghost var before, row := Rows(), Row(incoming, date, section);
      var found := FindFrom(at, incoming.id);
      if found == |messages| {
        InsertRow(at, incoming, date, section);
        RoundInserts(before, at, row);
      } else {
        if found != at {
          MoveRow(found, at);
        }
        MovedToFront(before, at, found - at);
        ghost var previous := before[at..][found - at];
        assert Rows()[at] == previous;
        var updated := Merge(incoming, messages[at]);
        ReplaceRow(at, updated, date, section);
        RoundReplaces(before, at, row, found - at);
      }
    }

    /** The refresh in place: the rows become the reconciliation of the old rows with the new. */
    method Refresh(incoming: seq<Message>, dates: seq<string>, sects: seq<string>)
      requires Valid() && |incoming| == |dates| == |sects|
      modifies this`messages, this`displayDates, this`sections, this`notes
      ensures Valid() && Rows() == Reconciled(old(Rows()), Zip(incoming, dates, sects))
    {
      hide Replay, Find, Round, DropFirst, FirstWith, Settle;
      ghost var all, target := Rows(), Zip(incoming, dates, sects);
      ghost var done: seq<Row> := [];
      for row := 0 to |incoming|
        invariant Valid() && |done| == row <= |messages| && Rows()[..row] == done
        invariant done + Reconciled(Rows()[row..], target[row..]) == Reconciled(all, target)
      {
        RoundAdvances(Rows(), target, row);
        RefreshRow(row, incoming[row], dates[row], sects[row]);
        done := done + [Rows()[row]];
      }
      assert target[|incoming|..] == [];
      if |messages| > |incoming| {
        RemoveRows(|incoming|, |messages| - |incoming|);
      }
    }

    /** A response to an older request is ignored; a first page replaces everything. */
    method ApplyFetched(incoming: seq<Message>, dateOf: string -> string, sectionOf: string -> string,
                        current: bool, refresh: bool)
      requires Valid()
      modifies this`messages, this`displayDates, this`sections, this`notes
      ensures Valid()
      ensures var fetched := Labelled(incoming, dateOf, sectionOf);
              Rows() == if !current then old(Rows()) else if refresh then Reconciled(old(Rows()), fetched) else fetched
      ensures current && !refresh ==> messages == incoming
      ensures current ==> |messages| == |incoming| && forall i :: 0 <= i < |incoming| ==>
                displayDates[i] == dateOf(incoming[i].timestamp) && sections[i] == sectionOf(incoming[i].timestamp)
    {
      hide Replay;
      if !current {
        return;
      }
      var dates, sects := Labels(incoming, dateOf, sectionOf);
      assert Zip(incoming, dates, sects) == Labelled(incoming, dateOf, sectionOf);
      if refresh {
        ghost var before := Rows();
        Refresh(incoming, dates, sects);
        forall i | 0 <= i < |incoming|
          ensures |messages| == |incoming| && displayDates[i] == dates[i] && sections[i] == sects[i]
        {
          ReconciledShape(before, Zip(incoming, dates, sects), i);
          assert Rows()[i] == Reconciled(before, Zip(incoming, dates, sects))[i];
        }
        ReconciledLength(before, Zip(incoming, dates, sects));
      } else {
        messages, displayDates, sections := incoming, dates, sects;
        Emit(Reset(Rows()), old(Rows()));
      }
    }
  }

  function Labelled(incoming: seq<Message>, dateOf: string -> string, sectionOf: string -> string): seq<Row> {
    seq(|incoming|, i requires 0 <= i < |incoming| =>
      Row(incoming[i], dateOf(incoming[i].timestamp), sectionOf(incoming[i].timestamp)))
  }

  predicate Matches(row: Row, id: string, recipient: string) {
    row.message.id == id && row.message.recipient == recipient
  }

  function FirstMatch(rows: seq<Row>, id: string, recipient: string): (i: nat)
    ensures i <= |rows|
  {
    if rows == [] || Matches(rows[0], id, recipient) then 0 else 1 + FirstMatch(rows[1..], id, recipient)
  }

  lemma {:induction false} FirstMatchIs(rows: seq<Row>, id: string, recipient: string, i: nat)
    requires i <= |rows| && forall j :: 0 <= j < i ==> !Matches(rows[j], id, recipient)
    requires i < |rows| ==> Matches(rows[i], id, recipient)
    ensures FirstMatch(rows, id, recipient) == i
  {
    if i > 0 {
      FirstMatchIs(rows[1..], id, recipient, i - 1);
    }
  }

  function WithContent(rows: seq<Row>, id: string, recipient: string, content: Content): seq<Row> {
    var i := FirstMatch(rows, id, recipient);
    if i < |rows| then rows[i := rows[i].(message := rows[i].message.(content := content))] else rows
  }

  /** The row that changes is the first with this id and recipient; its content changes and nothing else. */
  lemma ContentUpdated(rows: seq<Row>, id: string, recipient: string, content: Content)
    ensures |WithContent(rows, id, recipient, content)| == |rows|
    ensures forall i :: 0 <= i < |rows| ==>
              var m, r := rows[i].message, WithContent(rows, id, recipient, content)[i];
              if m.id == id && m.recipient == recipient
                 && (forall j :: 0 <= j < i ==> rows[j].message.id != id || rows[j].message.recipient != recipient)
              then r == Row(Message(id, recipient, m.timestamp, content), rows[i].date, rows[i].section)
              else r == rows[i]
  {
    var at := FirstMatching(rows, id, recipient);
    FirstMatchIs(rows, id, recipient, at);
  }

  lemma {:induction false} FirstMatching(rows: seq<Row>, id: string, recipient: string) returns (i: nat)
    ensures i <= |rows| && forall j :: 0 <= j < i ==> !Matches(rows[j], id, recipient)
    ensures i < |rows| ==> Matches(rows[i], id, recipient)
  {
    i := 0;
    if rows != [] && !Matches(rows[0], id, recipient) {
      var k := FirstMatching(rows[1..], id, recipient);
      i := k + 1;
      assert forall j :: 0 < j < |rows| ==> rows[j] == rows[1..][j - 1];
    }
  }

  lemma MovedToFront(rows: seq<Row>, at: nat, offset: nat)
    requires at + offset < |rows|
    ensures var rest := rows[at..];
            var moved := if offset == 0 then rows else Move(rows, at + offset, at);
            moved == rows[..at] + [rest[offset]] + RemoveAt(rest, offset, 1)
  {
    hide Move;
    var rest := rows[at..];
    var expected := rows[..at] + [rest[offset]] + RemoveAt(rest, offset, 1);
    if offset > 0 {
      MoveAt(rows, at + offset, at);
      var moved := Move(rows, at + offset, at);
      assert |moved| == |expected|;
      forall i | 0 <= i < |rows| ensures moved[i] == expected[i] {
      }
    } else {
      assert rows == expected;
    }
  }

  /** What one round of the refresh makes of the rows. */
  function Round(rows: seq<Row>, at: nat, row: Row): seq<Row>
    requires at <= |rows|
  {
    rows[..at] + [Settle(row, FirstWith(rows[at..], row.message.id))] + DropFirst(rows[at..], row.message.id)
  }

  lemma RoundReplaces(rows: seq<Row>, at: nat, row: Row, offset: nat)
    requires at + offset < |rows| && offset == Find(rows[at..], row.message.id)
    ensures var rest := rows[at..];
            var updated := row.(message := Merge(row.message, rest[offset].message));
            (rows[..at] + [rest[offset]] + RemoveAt(rest, offset, 1))[at := updated] == Round(rows, at, row)
  {
    hide RemoveAt, Find;
    var rest := rows[at..];
    var updated := row.(message := Merge(row.message, rest[offset].message));
    ReplacedAt(rows[..at], rest[offset], RemoveAt(rest, offset, 1), updated);
  }

  lemma ReplacedAt<T>(front: seq<T>, x: T, tail: seq<T>, y: T)
    ensures (front + [x] + tail)[|front| := y] == front + [y] + tail
  {
  }

  lemma RoundInserts(rows: seq<Row>, at: nat, row: Row)
    requires at <= |rows| && Find(rows[at..], row.message.id) == |rows| - at
    ensures InsertAt(rows, at, [row]) == Round(rows, at, row) && at < |Round(rows, at, row)|
  {
    hide Find;
  }

  lemma RoundAdvances(rows: seq<Row>, target: seq<Row>, at: nat)
    requires at < |target| && at <= |rows|
    ensures var after := Round(rows, at, target[at]);
            && at < |after| && after[..at] == rows[..at]
            && after[..at + 1] == rows[..at] + [after[at]]
            && Reconciled(rows[at..], target[at..]) == [after[at]] + Reconciled(after[at + 1..], target[at + 1..])
  {
    var after := Round(rows, at, target[at]);
    assert target[at..][1..] == target[at + 1..];
    assert after[at + 1..] == DropFirst(rows[at..], target[at].message.id);
  }

  lemma SplitAtRow(all: seq<Row>, gone: set<int>, row: nat, limit: nat, order: seq<int>, k: nat)
    requires row < limit <= |all| && k < |order| && order[k] == row && Descending(order) && row in gone
    requires forall r :: r in gone && 0 <= r < limit ==> r in order[k..]
    ensures RemoveAt(all[..limit] + Kept(all, gone, limit), row, 1) == all[..row] + Kept(all, gone, row)
  {
    forall j | row + 1 <= j < limit ensures j !in gone {
    }
    hide Descending, RemoveAt;
    KeptSkips(all, gone, row + 1, limit);
    assert Kept(all, gone, row) == Kept(all, gone, row + 1);
    var front := all[..limit];
    assert front[..row] == all[..row] && front[row + 1..] == all[row + 1..limit];
    RemovedInFront(front, Kept(all, gone, limit), row);
  }

  lemma RemovedInFront<T>(front: seq<T>, tail: seq<T>, row: nat)
    requires row < |front|
    ensures RemoveAt(front + tail, row, 1) == front[..row] + (front[row + 1..] + tail)
  {
  }
}
