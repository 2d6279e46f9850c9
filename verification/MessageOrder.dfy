/** The order in which fetched messages are shown: attachments of one batch put back into the order
    they were selected in, and then everything sorted by time. */
module MessageOrder {
  import opened Options
  import opened StableSort

  newtype Int64 = x: int | -0x8000_0000_0000_0000 <= x < 0x8000_0000_0000_0000

  /** index is the place within the batch, negative for none; time is the parsed timestamp, None
      when it is not a number. */
  datatype Message = Message(id: string, sender: string, batch: string, index: int, time: Option<Int64>, mine: bool)

  datatype Group = Group(sender: string, batch: string)

  predicate Batched(m: Message) { m.batch != "" && m.index >= 0 }

  function GroupOf(m: Message): Group { Group(m.sender, m.batch) }

  predicate In(m: Message, g: Group) { Batched(m) && GroupOf(m) == g }

  function Index(m: Message): int { m.index }

  // ---- Groups ---------------------------------------------------------------------------------

  /** The messages of a group, in order. */
  function Members(xs: seq<Message>, g: Group): seq<Message> {
    if xs == [] then []
    else Members(xs[..|xs| - 1], g) + (if In(xs[|xs| - 1], g) then [xs[|xs| - 1]] else [])
  }

  /** The positions of a group, ascending. */
  function Positions(xs: seq<Message>, g: Group): seq<nat> {
    if xs == [] then []
    else Positions(xs[..|xs| - 1], g) + (if In(xs[|xs| - 1], g) then [|xs| - 1] else [])
  }

  lemma {:induction false} PositionsExact(xs: seq<Message>, g: Group)
    ensures |Positions(xs, g)| == |Members(xs, g)|
    ensures forall k :: 0 <= k < |Positions(xs, g)| ==>
              Positions(xs, g)[k] < |xs| && xs[Positions(xs, g)[k]] == Members(xs, g)[k] && In(Members(xs, g)[k], g)
    ensures forall k, l :: 0 <= k < l < |Positions(xs, g)| ==> Positions(xs, g)[k] < Positions(xs, g)[l]
  {
    if xs != [] {
      PositionsExact(xs[..|xs| - 1], g);
    }
  }

  /** How many messages of its group stand before position i. */
  function Rank(xs: seq<Message>, i: nat): nat
    requires i < |xs|
  {
    |Members(xs[..i], GroupOf(xs[i]))|
  }

  lemma {:induction false} MembersPrefix(xs: seq<Message>, g: Group, i: nat)
    requires i <= |xs|
    ensures |Members(xs[..i], g)| <= |Members(xs, g)| && Members(xs, g)[..|Members(xs[..i], g)|] == Members(xs[..i], g)
    ensures |Positions(xs[..i], g)| <= |Positions(xs, g)|
    ensures Positions(xs, g)[..|Positions(xs[..i], g)|] == Positions(xs[..i], g)
  {
    if i == |xs| {
      assert xs[..i] == xs;
    } else {
      var most := xs[..|xs| - 1];
      MembersPrefix(most, g, i);
      assert most[..i] == xs[..i];
    }
  }

  lemma RankInGroup(xs: seq<Message>, i: nat)
    requires i < |xs| && Batched(xs[i])
    ensures var g := GroupOf(xs[i]);
            Rank(xs, i) < |Members(xs, g)| == |Positions(xs, g)|
            && Members(xs, g)[Rank(xs, i)] == xs[i] && Positions(xs, g)[Rank(xs, i)] == i
  {
    var g := GroupOf(xs[i]);
    assert xs[..i + 1][..i] == xs[..i];
    MembersPrefix(xs, g, i + 1);
    PositionsExact(xs, g);
    PositionsExact(xs[..i], g);
  }

  // ---- The reordering, told without an order on the groups ---------------------------------------

  function SortedMembers(xs: seq<Message>, g: Group): seq<Message> { Sort(Members(xs, g), Index) }

  /** A message outside a batch stays; a batched position gets the message of its rank in the sorted
      group. */
  function Restored(xs: seq<Message>, i: nat): Message
    requires i < |xs|
  {
    var sorted := SortedMembers(xs, GroupOf(xs[i]));
    if Batched(xs[i]) && Rank(xs, i) < |sorted| then sorted[Rank(xs, i)] else xs[i]
  }

  function Reordered(xs: seq<Message>): seq<Message> {
    seq(|xs|, i requires 0 <= i < |xs| => Restored(xs, i))
  }

  lemma SortedGroup(xs: seq<Message>, g: Group)
    ensures |SortedMembers(xs, g)| == |Members(xs, g)|
    ensures forall k :: 0 <= k < |SortedMembers(xs, g)| ==> In(SortedMembers(xs, g)[k], g)
  {
    var sorted := SortedMembers(xs, g);
    SortIsStable(Members(xs, g), Index);
    PositionsExact(xs, g);
    forall k | 0 <= k < |sorted| ensures In(sorted[k], g) {
      assert sorted[k] in multiset(sorted);
      assert sorted[k] in Members(xs, g);
    }
  }

  /** Every message outside a batch keeps its position, and every group keeps its positions. */
  lemma PlacesKept(xs: seq<Message>, i: nat)
    requires i < |xs|
    ensures Batched(Reordered(xs)[i]) == Batched(xs[i])
    ensures Batched(xs[i]) ==> GroupOf(Reordered(xs)[i]) == GroupOf(xs[i])
    ensures Batched(xs[i]) ==> Rank(xs, i) < |SortedMembers(xs, GroupOf(xs[i]))|
                               && Reordered(xs)[i] == SortedMembers(xs, GroupOf(xs[i]))[Rank(xs, i)]
    ensures !Batched(xs[i]) ==> Reordered(xs)[i] == xs[i]
  {
    if Batched(xs[i]) {
      SortedGroup(xs, GroupOf(xs[i]));
      RankInGroup(xs, i);
    }
  }

  lemma MembersLast(xs: seq<Message>, g: Group, k: nat)
    requires 0 < k <= |xs|
    ensures Members(xs[..k], g) == Members(xs[..k - 1], g) + (if In(xs[k - 1], g) then [xs[k - 1]] else [])
  {
    assert xs[..k][..k - 1] == xs[..k - 1];
  }

  lemma RankIn(xs: seq<Message>, g: Group, i: nat)
    requires i < |xs|
    ensures In(Reordered(xs)[i], g) <==> In(xs[i], g)
    ensures In(xs[i], g) ==> Rank(xs, i) == |Members(xs[..i], g)| < |SortedMembers(xs, g)|
                             && Reordered(xs)[i] == SortedMembers(xs, g)[Rank(xs, i)]
  {
    hide Members, SortedMembers, Restored;
    PlacesKept(xs, i);
  }

  lemma {:induction false} PrefixSorted(xs: seq<Message>, g: Group, k: nat)
    requires k <= |xs|
    ensures |Members(xs[..k], g)| <= |SortedMembers(xs, g)|
    ensures Members(Reordered(xs)[..k], g) == SortedMembers(xs, g)[..|Members(xs[..k], g)|]
  {
    hide Restored, Sort, GroupOf;
    SortedGroup(xs, g);
    MembersPrefix(xs, g, k);
    if k > 0 {
      PrefixSorted(xs, g, k - 1);
      MembersLast(xs, g, k);
      MembersLast(Reordered(xs), g, k);
      RankIn(xs, g, k - 1);
      hide Members, SortedMembers, Reordered, Rank, In, Batched;
      var sorted, m := SortedMembers(xs, g), |Members(xs[..k - 1], g)|;
      if In(xs[k - 1], g) {
        assert sorted[..m + 1] == sorted[..m] + [sorted[m]];
      }
    }
  }

  /** Within its own positions every group is stably sorted by attachment index. */
  lemma GroupsSorted(xs: seq<Message>, g: Group)
    ensures Members(Reordered(xs), g) == Sort(Members(xs, g), Index)
    ensures StablySorted(Members(xs, g), Members(Reordered(xs), g), Index)
    ensures Positions(Reordered(xs), g) == Positions(xs, g)
  {
    PrefixSorted(xs, g, |xs|);
    SortedGroup(xs, g);
    assert xs[..|xs|] == xs && Reordered(xs)[..|xs|] == Reordered(xs);
    SortIsStable(Members(xs, g), Index);
    forall i | 0 <= i < |xs| ensures In(xs[i], g) <==> In(Reordered(xs)[i], g) {
      PlacesKept(xs, i);
    }
    SamePositions(xs, Reordered(xs), g);
  }

  lemma {:induction false} SamePositions(xs: seq<Message>, ys: seq<Message>, g: Group)
    requires |xs| == |ys| && forall i :: 0 <= i < |xs| ==> (In(xs[i], g) <==> In(ys[i], g))
    ensures Positions(xs, g) == Positions(ys, g)
  {
    if xs != [] {
      SamePositions(xs[..|xs| - 1], ys[..|ys| - 1], g);
    }
  }

  lemma {:induction false} CountInGroup(xs: seq<Message>, m: Message)
    requires Batched(m)
    ensures multiset(xs)[m] == multiset(Members(xs, GroupOf(m)))[m]
  {
    if xs != [] {
      CountInGroup(xs[..|xs| - 1], m);
      assert xs == xs[..|xs| - 1] + [xs[|xs| - 1]];
    }
  }

  lemma {:induction false} CountOutside(xs: seq<Message>, ys: seq<Message>, m: Message)
    requires !Batched(m) && |xs| == |ys|
    requires forall i :: 0 <= i < |xs| ==> (xs[i] == m <==> ys[i] == m)
    ensures multiset(xs)[m] == multiset(ys)[m]
  {
    if xs != [] {
      CountOutside(xs[..|xs| - 1], ys[..|ys| - 1], m);
      assert xs == xs[..|xs| - 1] + [xs[|xs| - 1]] && ys == ys[..|ys| - 1] + [ys[|ys| - 1]];
    }
  }

  /** Nothing is lost or doubled. */
  lemma ReorderedIsPermutation(xs: seq<Message>)
    ensures multiset(Reordered(xs)) == multiset(xs)
  {
    var ys := Reordered(xs);
    forall m ensures multiset(ys)[m] == multiset(xs)[m] {
      if Batched(m) {
        var g := GroupOf(m);
        CountInGroup(xs, m);
        CountInGroup(ys, m);
        GroupsSorted(xs, g);
        SortIsStable(Members(xs, g), Index);
      } else {
        forall i | 0 <= i < |xs| ensures xs[i] == m <==> ys[i] == m {
          PlacesKept(xs, i);
        }
        CountOutside(xs, ys, m);
      }
    }
  }

  /** Reordering a reordered list changes nothing. */
  lemma ReorderIdempotent(xs: seq<Message>)
    ensures Reordered(Reordered(xs)) == Reordered(xs)
  {
    var ys := Reordered(xs);
    forall i | 0 <= i < |ys| ensures Reordered(ys)[i] == ys[i] {
      PlacesKept(ys, i);
      if Batched(ys[i]) {
        var g := GroupOf(ys[i]);
        GroupsSorted(xs, g);
        SortIdempotent(Members(ys, g), Index);
        RankInGroup(ys, i);
      }
    }
  }

  lemma RankGrows(xs: seq<Message>, i: nat, j: nat)
    requires i < j < |xs| && Batched(xs[i]) && Batched(xs[j]) && GroupOf(xs[i]) == GroupOf(xs[j])
    ensures Rank(xs, i) < Rank(xs, j) < |Members(xs, GroupOf(xs[i]))|
  {
    var g := GroupOf(xs[i]);
    RankInGroup(xs, i);
    RankInGroup(xs, j);
    PositionsExact(xs, g);
  }

  /** Within a group the attachment index never falls from one position to a later one. */
  lemma IndexRises(xs: seq<Message>, i: nat, j: nat, g: Group)
    requires i < j < |xs| && In(Reordered(xs)[i], g) && In(Reordered(xs)[j], g)
    ensures Reordered(xs)[i].index <= Reordered(xs)[j].index
  {
    var ys := Reordered(xs);
    RankGrows(ys, i, j);
    RankInGroup(ys, i);
    RankInGroup(ys, j);
    GroupsSorted(xs, g);
    assert Index(Members(ys, g)[Rank(ys, i)]) <= Index(Members(ys, g)[Rank(ys, j)]);
  }

  predicate Attachment(m: Message, sender: string, batch: string) {
    m.sender == sender && m.batch == batch && batch != "" && m.index >= 0
  }

  /** Positions keep the sender and batch of an attachment, a message that is none stays, and from one
      attachment of a batch to a later one the index never falls. */
  lemma ReorderedExactly(xs: seq<Message>, i: nat, j: nat, sender: string, batch: string)
    requires i < j < |xs|
    ensures Attachment(Reordered(xs)[i], sender, batch) <==> Attachment(xs[i], sender, batch)
    ensures xs[i].batch == "" || xs[i].index < 0 ==> Reordered(xs)[i] == xs[i]
    ensures Attachment(xs[i], sender, batch) && Attachment(xs[j], sender, batch) ==>
              Reordered(xs)[i].index <= Reordered(xs)[j].index
  {
    PlacesKept(xs, i);
    PlacesKept(xs, j);
    if Attachment(xs[i], sender, batch) && Attachment(xs[j], sender, batch) {
      IndexRises(xs, i, j, Group(sender, batch));
    }
  }

  // ---- The loops --------------------------------------------------------------------------------

  method Batches(xs: seq<Message>) returns (batches: map<Group, seq<nat>>)
    ensures forall g :: g in batches <==> Positions(xs, g) != []
    ensures forall g :: g in batches ==> batches[g] == Positions(xs, g)
  {
    batches := map[];
    var i := 0;
    while i < |xs|
      invariant 0 <= i <= |xs|
      invariant forall g :: g in batches <==> Positions(xs[..i], g) != []
      invariant forall g :: g in batches ==> batches[g] == Positions(xs[..i], g)
    {
      assert xs[..i + 1][..i] == xs[..i];
      if xs[i].batch != "" && xs[i].index >= 0 {
        var g := GroupOf(xs[i]);
        batches := batches[g := (if g in batches then batches[g] else []) + [i]];
      }
      i := i + 1;
    }
    assert xs[..i] == xs;
  }

  /** The groups are taken in any order, as a hash table yields them. */
  method Reorder(xs: seq<Message>) returns (msg: seq<Message>)
    ensures msg == Reordered(xs)
  {
    var batches := Batches(xs);
    msg := xs;
    var left := batches.Keys;
    forall i | 0 <= i < |xs| && Batched(xs[i]) ensures GroupOf(xs[i]) in left {
      RankInGroup(xs, i);
    }
    while left != {}
      invariant left <= batches.Keys && |msg| == |xs|
      invariant forall i :: 0 <= i < |xs| ==>
                  msg[i] == if Batched(xs[i]) && GroupOf(xs[i]) !in left then Restored(xs, i) else xs[i]
    {
      var g :| g in left;
      msg := ReorderGroup(xs, g, batches[g], msg);
      left := left - {g};
    }
    forall i | 0 <= i < |xs| ensures msg[i] == Restored(xs, i) { }
  }

  method ReorderGroup(ghost xs: seq<Message>, ghost g: Group, positions: seq<nat>, before: seq<Message>)
    returns (msg: seq<Message>)
    requires positions == Positions(xs, g) && |before| == |xs|
    requires forall i :: 0 <= i < |xs| && In(xs[i], g) ==> before[i] == xs[i]
    ensures |msg| == |xs|
    ensures forall i :: 0 <= i < |xs| ==> msg[i] == if In(xs[i], g) then Restored(xs, i) else before[i]
  {
    hide Members, Positions, Sort, Rank;
    PositionsExact(xs, g);
    SortedGroup(xs, g);
    var chosen := Choose(before, positions);
    assert chosen == Members(xs, g);
    var ordered := Sort(chosen, Index);
    msg := PutBack(before, positions, ordered);
    forall i | 0 <= i < |xs| ensures msg[i] == if In(xs[i], g) then Restored(xs, i) else before[i] {
      if In(xs[i], g) {
        RankInGroup(xs, i);
        assert msg[positions[Rank(xs, i)]] == ordered[Rank(xs, i)];
      }
    }
  }

  method Choose(msg: seq<Message>, positions: seq<nat>) returns (chosen: seq<Message>)
    requires forall k :: 0 <= k < |positions| ==> positions[k] < |msg|
    ensures |chosen| == |positions|
    ensures forall k :: 0 <= k < |positions| ==> chosen[k] == msg[positions[k]]
  {
    chosen := [];
    for k := 0 to |positions|
      invariant |chosen| == k && forall l :: 0 <= l < k ==> chosen[l] == msg[positions[l]]
    {
      chosen := chosen + [msg[positions[k]]];
    }
  }

  method PutBack(before: seq<Message>, positions: seq<nat>, ordered: seq<Message>) returns (msg: seq<Message>)
    requires |positions| == |ordered|
    requires forall k :: 0 <= k < |positions| ==> positions[k] < |before|
    requires forall k, l :: 0 <= k < l < |positions| ==> positions[k] < positions[l]
    ensures |msg| == |before|
    ensures forall k :: 0 <= k < |positions| ==> msg[positions[k]] == ordered[k]
    ensures forall i :: 0 <= i < |before| && i !in positions ==> msg[i] == before[i]
  {
    msg := before;
    for k := 0 to |positions|
      invariant |msg| == |before|
      invariant forall l :: 0 <= l < k ==> msg[positions[l]] == ordered[l]
      invariant forall i :: 0 <= i < |before| && i !in positions ==> msg[i] == before[i]
    {
      msg := msg[positions[k] := ordered[k]];
    }
  }

  // ---- Sorting by time ----------------------------------------------------------------------------

  /** The comparator of the display sort. */
  predicate Earlier(left: Message, right: Message) {
    if left.time.Some? != right.time.Some? then left.time.Some?
    else if left.time.None? then false
    else left.time.value < right.time.value
  }

  const NO_TIME: int := 0x8000_0000_0000_0000

  function TimeKey(m: Message): int { if m.time.Some? then m.time.value as int else NO_TIME }

  /** The comparator is a strict weak order: it compares keys, and invalid times share the last. */
  lemma ComparatorIsKeyOrder(a: Message, b: Message)
    ensures Earlier(a, b) <==> TimeKey(a) < TimeKey(b)
    ensures TimeKey(a) == NO_TIME <==> a.time.None?
  {
  }

  function Strip(id: string): string {
    if id == "" then "" else (if id[0] == '-' then "" else [id[0]]) + Strip(id[1..])
  }

  function Mark(m: Message, me: string): Message { m.(mine := Strip(m.sender) == me) }

  function Marked(xs: seq<Message>, me: string): seq<Message> {
    seq(|xs|, i requires 0 <= i < |xs| => Mark(xs[i], me))
  }

  /** What the screen shows of a fetched page. */
  function Shown(xs: seq<Message>, me: string): seq<Message> { Sort(Marked(Reordered(xs), me), TimeKey) }

  method Execute(fetched: seq<Message>, me: string) returns (messages: seq<Message>)
    ensures messages == Shown(fetched, me)
  {
    hide Reordered, Sort, Mark;
    messages := Reorder(fetched);
    ghost var reordered := messages;
    var i := 0;
    while i < |messages|
      invariant 0 <= i <= |messages| == |reordered|
      invariant messages == Marked(reordered[..i], me) + reordered[i..]
    {
      messages := messages[i := Mark(messages[i], me)];
      i := i + 1;
    }
    assert messages == Marked(reordered, me);
    messages := Sort(messages, TimeKey);
  }

  /** Valid times ascend, invalid ones come last, and messages of equal or no time keep the order the
      reordering left them in. */
  lemma ShownInTimeOrder(xs: seq<Message>, me: string, i: nat, j: nat)
    requires i < j < |Shown(xs, me)|
    ensures !Earlier(Shown(xs, me)[j], Shown(xs, me)[i])
    ensures forall c :: WithKey(Shown(xs, me), TimeKey, c) == WithKey(Marked(Reordered(xs), me), TimeKey, c)
    ensures |Shown(xs, me)| == |xs| && multiset(Shown(xs, me)) == multiset(Marked(Reordered(xs), me))
  {
    var marked := Marked(Reordered(xs), me);
    SortIsStable(marked, TimeKey);
    assert TimeKey(Shown(xs, me)[i]) <= TimeKey(Shown(xs, me)[j]);
    ComparatorIsKeyOrder(Shown(xs, me)[j], Shown(xs, me)[i]);
  }

  /** The attachments of a batch were timed, and not against their selection order. */
  ghost predicate TimesFollow(xs: seq<Message>, g: Group) {
    forall a, b :: a in xs && b in xs && In(a, g) && In(b, g) && a.index < b.index ==>
      a.time.Some? && b.time.Some? && a.time.value <= b.time.value
  }

  lemma ShownComesFrom(xs: seq<Message>, me: string, m: Message)
    requires m in Shown(xs, me)
    ensures exists x :: x in xs && m == Mark(x, me)
  {
    var reordered := Reordered(xs);
    var marked := Marked(reordered, me);
    SortIsStable(marked, TimeKey);
    ReorderedIsPermutation(xs);
    assert m in multiset(Shown(xs, me)) && m in marked;
    var i :| 0 <= i < |marked| && marked[i] == m;
    assert reordered[i] in multiset(reordered) && reordered[i] in xs;
  }

  /** End to end: a batch whose times do not run against its selection is shown in selection order. */
  lemma BatchShownInOrder(xs: seq<Message>, me: string, g: Group, i: nat, j: nat)
    requires TimesFollow(xs, g) && i < j < |Shown(xs, me)|
    requires In(Shown(xs, me)[i], g) && In(Shown(xs, me)[j], g)
    ensures Shown(xs, me)[i].index <= Shown(xs, me)[j].index
  {
    hide Sort, Reordered, WithKey, StablySorted;
    var out, marked := Shown(xs, me), Marked(Reordered(xs), me);
    var a, b := out[i], out[j];
    if a.index > b.index {
      ShownInTimeOrder(xs, me, i, j);
      ShownComesFrom(xs, me, a);
      ShownComesFrom(xs, me, b);
      assert TimeKey(a) == TimeKey(b);
      SortIsStable(marked, TimeKey);
      EqualKeysKeepOrder(marked, out, TimeKey, i, j);
      var p, q :| 0 <= p < q < |marked| && marked[p] == a && marked[q] == b;
      IndexRises(xs, p, q, g);
    }
  }

  // ---- What is shown, message by message ------------------------------------------------------------

  /** Strip takes the dashes out: it goes through a text piece by piece and leaves other text alone. */
  lemma StripExactly(a: string, b: string)
    ensures Strip(a + b) == Strip(a) + Strip(b)
    ensures ('-' !in a ==> Strip(a) == a) && Strip("-") == ""
  {
    StripConcat(a, b);
    if '-' !in a { StripKeeps(a); }
    StripFirst('-', "");
  }

  lemma {:induction false} StripConcat(a: string, b: string)
    ensures Strip(a + b) == Strip(a) + Strip(b)
    decreases |a|
  {
    if a == "" {
      assert a + b == b;
    } else {
      var rest := a[1..];
      StripConcat(rest, b);
      StripFirst(a[0], rest);
      StripFirst(a[0], rest + b);
      assert a == [a[0]] + rest && a + b == [a[0]] + (rest + b);
      hide Strip;
    }
  }

  lemma {:induction false} StripKeeps(a: string)
    requires '-' !in a
    ensures Strip(a) == a
    decreases |a|
  {
    if a != "" {
      StripKeeps(a[1..]);
      StripFirst(a[0], a[1..]);
      assert a == [a[0]] + a[1..];
      hide Strip;
    }
  }

  lemma StripFirst(c: char, rest: string)
    ensures Strip([c] + rest) == (if c == '-' then "" else [c]) + Strip(rest)
  {
    assert ([c] + rest)[1..] == rest;
  }

  lemma TakenOut(ys: seq<Message>, i: nat)
    requires i < |ys|
    ensures multiset(ys) == multiset(ys[..i] + ys[i + 1..]) + multiset{ys[i]}
  {
    assert ys == ys[..i] + [ys[i]] + ys[i + 1..];
  }

  lemma SameLength(xs: seq<Message>, ys: seq<Message>)
    requires multiset(xs) == multiset(ys)
    ensures |xs| == |ys| && forall x :: x in multiset(xs) ==> x in ys
  {
    assert |multiset(xs)| == |xs| && |multiset(ys)| == |ys|;
  }

  lemma CancelOne(a: multiset<Message>, b: multiset<Message>, x: Message)
    requires a + multiset{x} == b + multiset{x}
    ensures a == b
  {
    assert a == (a + multiset{x}) - multiset{x} && b == (b + multiset{x}) - multiset{x};
  }

  lemma MarkedTakenOut(ys: seq<Message>, i: nat, me: string)
    requires i < |ys|
    ensures multiset(Marked(ys, me)) == multiset(Marked(ys[..i] + ys[i + 1..], me)) + multiset{Mark(ys[i], me)}
  {
    var marked := Marked(ys, me);
    TakenOut(marked, i);
    assert Marked(ys[..i] + ys[i + 1..], me) == marked[..i] + marked[i + 1..];
  }

  lemma RestPermutes(xs: seq<Message>, ys: seq<Message>) returns (i: nat)
    requires multiset(xs) == multiset(ys) && xs != []
    ensures i < |ys| && ys[i] == xs[0] && multiset(xs[..0] + xs[1..]) == multiset(ys[..i] + ys[i + 1..])
  {
    SameLength(xs, ys);
    assert xs[0] in multiset(xs);
    i :| 0 <= i < |ys| && ys[i] == xs[0];
    TakenOut(xs, 0);
    TakenOut(ys, i);
    CancelOne(multiset(xs[..0] + xs[1..]), multiset(ys[..i] + ys[i + 1..]), xs[0]);
  }

  lemma {:induction false} MarkedPermutes(xs: seq<Message>, ys: seq<Message>, me: string)
    requires multiset(xs) == multiset(ys)
    ensures multiset(Marked(xs, me)) == multiset(Marked(ys, me))
    decreases |xs|
  {
    SameLength(xs, ys);
    if xs != [] {
      var i := RestPermutes(xs, ys);
      MarkedTakenOut(xs, 0, me);
      MarkedTakenOut(ys, i, me);
      hide Marked, Mark;
      MarkedPermutes(xs[..0] + xs[1..], ys[..i] + ys[i + 1..], me);
    }
  }

  /** The fetched messages, each once, with nothing changed but the mark: mine are those whose sender without
      dashes is the user. Valid times never fall, and invalid ones come last. */
  lemma ShownExactly(xs: seq<Message>, me: string)
    ensures multiset(Shown(xs, me)) == multiset(Marked(xs, me)) && |Marked(xs, me)| == |xs|
    ensures forall i :: 0 <= i < |xs| ==>
              var x := xs[i];
              Marked(xs, me)[i] == Message(x.id, x.sender, x.batch, x.index, x.time, Strip(x.sender) == me)
    ensures forall i, j :: 0 <= i < j < |Shown(xs, me)| ==>
              var a, b := Shown(xs, me)[i].time, Shown(xs, me)[j].time;
              if a.None? then b.None? else b.Some? ==> a.value <= b.value
  {
    SortIsStable(Marked(Reordered(xs), me), TimeKey);
    ReorderedIsPermutation(xs);
    MarkedPermutes(Reordered(xs), xs, me);
    hide Shown, Marked, Reordered;
    forall i, j | 0 <= i < j < |Shown(xs, me)|
      ensures var a, b := Shown(xs, me)[i].time, Shown(xs, me)[j].time;
              if a.None? then b.None? else b.Some? ==> a.value <= b.value
    {
      ShownInTimeOrder(xs, me, i, j);
    }
  }
}
