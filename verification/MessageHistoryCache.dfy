/** The cache of one conversation: fetched pages, and live messages kept aside until a page carries
    them, so that a page requested before a message arrived does not erase it. */
module MessageHistoryCache {
  import opened Options

  datatype Item = Item(id: string, messageId: string, content: string)

  datatype Page = Page(messages: seq<Item>, page: int, totalPages: int, total: int)

  predicate SameMessage(a: Item, b: Item) {
    (a.messageId != "" && a.messageId == b.messageId) || (a.id != "" && a.id == b.id)
  }

  predicate Carries(ms: seq<Item>, m: Item) {
    exists i :: 0 <= i < |ms| && SameMessage(ms[i], m)
  }

  /** SameMessage is transitive from the messages that are saved live into those and the fetched ones. */
  ghost predicate Consistent(saved: iset<Item>, fetched: iset<Item>) {
    forall a, b, c :: a in saved && b in saved && c in saved + fetched && SameMessage(a, b) && SameMessage(b, c) ==>
      SameMessage(a, c)
  }

  /** How the repository builds a live message: one identity under both names, or none. */
  predicate Identified(m: Item) { m.id == m.messageId }

  /** Live messages that are built so are consistent with whatever the server sends. */
  lemma IdentifiedConsistent(saved: iset<Item>, fetched: iset<Item>)
    requires forall m :: m in saved ==> Identified(m)
    ensures Consistent(saved, fetched)
  {
  }

  ghost predicate AllIn(ms: seq<Item>, items: iset<Item>) {
    forall i :: 0 <= i < |ms| ==> ms[i] in items
  }

  lemma CarriesSame(ms: seq<Item>, a: Item, b: Item, saved: iset<Item>, fetched: iset<Item>)
    requires Consistent(saved, fetched) && a in saved && b in saved && AllIn(ms, saved + fetched) && SameMessage(a, b)
    ensures Carries(ms, a) == Carries(ms, b)
  {
    if i :| 0 <= i < |ms| && SameMessage(ms[i], a) {
      assert SameMessage(b, a) && SameMessage(a, ms[i]);
      assert SameMessage(ms[i], b);
    }
    if i :| 0 <= i < |ms| && SameMessage(ms[i], b) {
      assert SameMessage(b, ms[i]);
      assert SameMessage(ms[i], a);
    }
  }

  lemma CarriesAppend(ms: seq<Item>, x: Item, m: Item)
    ensures Carries(ms + [x], m) == (Carries(ms, m) || SameMessage(x, m))
  {
    var all := ms + [x];
    if Carries(ms, m) {
      var i :| 0 <= i < |ms| && SameMessage(ms[i], m);
      assert SameMessage(all[i], m);
    }
    if SameMessage(x, m) {
      assert SameMessage(all[|ms|], m);
    }
  }

  // ---- The stored state --------------------------------------------------------------------

  datatype History = History(pages: map<int, Page>, pending: Option<Page>)

  /** A snapshot that is missing or stored for another page number reads as an empty page. */
  function PageAt(h: History, page: int): Page {
    if page >= 1 && page in h.pages && h.pages[page].page == page then h.pages[page] else Page([], page, 0, 0)
  }

  function Live(h: History): Page {
    if h.pending.Some? && h.pending.value.page == 1 then h.pending.value else Page([], 1, 0, 0)
  }

  // ---- Reading ----------------------------------------------------------------------------

  /** ms with each message of live added that is not in it yet. */
  function Merge(ms: seq<Item>, live: seq<Item>): seq<Item>
    decreases |live|
  {
    if live == [] then ms
    else Merge(if Carries(ms, live[0]) then ms else ms + [live[0]], live[1..])
  }

  function Shown(h: History): seq<Item> { Merge(PageAt(h, 1).messages, Live(h).messages) }

  /** What read returns. */
  function ReadPage(h: History, page: int): Page {
    var p := PageAt(h, page);
    if page != 1 then p
    else
      var all := Shown(h);
      p.(messages := all, total := p.total + |all| - |p.messages|,
         totalPages := if all != [] && p.totalPages < 1 then 1 else p.totalPages)
  }

  /** Merging keeps the fetched messages first and in place. */
  lemma {:induction false} MergeExtends(ms: seq<Item>, live: seq<Item>)
    ensures |ms| <= |Merge(ms, live)| && Merge(ms, live)[..|ms|] == ms
    decreases |live|
  {
    if live != [] {
      var next := if Carries(ms, live[0]) then ms else ms + [live[0]];
      MergeExtends(next, live[1..]);
      assert ms == next[..|ms|] == Merge(ms, live)[..|next|][..|ms|];
    }
  }

  /** A merged message matches nothing before it, whatever the identities are. */
  lemma {:induction false} MergeAddsNoDuplicate(ms: seq<Item>, live: seq<Item>, i: nat, j: nat)
    requires i < j < |Merge(ms, live)| && |ms| <= j
    ensures !SameMessage(Merge(ms, live)[i], Merge(ms, live)[j])
    decreases |live|
  {
    if live != [] {
      var next := if Carries(ms, live[0]) then ms else ms + [live[0]];
      if |next| <= j {
        MergeAddsNoDuplicate(next, live[1..], i, j);
      } else {
        MergeExtends(next, live[1..]);
        assert Merge(ms, live)[i] == next[i] && Merge(ms, live)[j] == next[j] == live[0];
        assert next[i] == ms[i];
      }
    }
  }

  /** What the merge carries is what either list carries. */
  lemma {:induction false} MergeCarries(ms: seq<Item>, live: seq<Item>, m: Item, saved: iset<Item>, fetched: iset<Item>)
    requires Consistent(saved, fetched) && m in saved && AllIn(live, saved) && AllIn(ms, saved + fetched)
    ensures Carries(Merge(ms, live), m) == (Carries(ms, m) || Carries(live, m))
    decreases |live|
  {
    hide Consistent, SameMessage;
    if live != [] {
      var x := live[0];
      var next := if Carries(ms, x) then ms else ms + [x];
      MergeCarries(next, live[1..], m, saved, fetched);
      CarriesAppend(ms, x, m);
      assert live == [x] + live[1..];
      CarriesCons(x, live[1..], m);
      if SameMessage(x, m) {
        CarriesSame(ms, x, m, saved, fetched);
      }
    }
  }

  /** A live message that nothing before it stands for is shown as it was saved. */
  lemma {:induction false} MergeShowsLive(ms: seq<Item>, live: seq<Item>, k: nat)
    requires k < |live| && !Carries(ms, live[k]) && forall j :: 0 <= j < k ==> !SameMessage(live[j], live[k])
    ensures live[k] in Merge(ms, live)
    decreases |live|
  {
    var x := live[0];
    var next := if Carries(ms, x) then ms else ms + [x];
    if k == 0 {
      MergeExtends(next, live[1..]);
      assert next[|ms|] == x && Merge(ms, live)[..|next|][|ms|] == x;
    } else {
      CarriesAppend(ms, x, live[k]);
      assert live[1..][k - 1] == live[k];
      MergeShowsLive(next, live[1..], k - 1);
    }
  }

  // ---- Saving -----------------------------------------------------------------------------

  /** The live messages a response does not carry. */
  function Unacknowledged(live: seq<Item>, response: seq<Item>): seq<Item>
    decreases |live|
  {
    if live == [] then []
    else (if Carries(response, live[0]) then [] else [live[0]]) + Unacknowledged(live[1..], response)
  }

  lemma {:induction false} UnacknowledgedAppend(live: seq<Item>, x: Item, response: seq<Item>)
    ensures Unacknowledged(live + [x], response)
            == Unacknowledged(live, response) + (if Carries(response, x) then [] else [x])
    decreases |live|
  {
    if live == [] {
      assert live + [x] == [x];
    } else {
      assert (live + [x])[1..] == live[1..] + [x];
      UnacknowledgedAppend(live[1..], x, response);
    }
  }

  /** m put in the place of its first match, or at the end. */
  function Stored(live: seq<Item>, m: Item): seq<Item>
    decreases |live|
  {
    if live == [] then [m]
    else if SameMessage(live[0], m) then [m] + live[1..]
    else [live[0]] + Stored(live[1..], m)
  }

  function WritePage(h: History, response: Page): History {
    if response.page < 1 then h else h.(pages := h.pages[response.page := response])
  }

  function Acknowledge(h: History, response: Page): History {
    var live := Live(h);
    var rest := Unacknowledged(live.messages, response.messages);
    if |rest| == |live.messages| then h else h.(pending := Some(live.(messages := rest)))
  }

  function StoreMessage(h: History, m: Item): History {
    h.(pending := Some(Live(h).(messages := Stored(Live(h).messages, m))))
  }

  /** A call and how far its writes went: savePage writes the page and then what is left pending,
      and stops at the first write that fails or at a crash. */
  datatype Event = SavesPage(response: Page, writes: nat) | SavesMessage(m: Item, written: bool)

  function Step(h: History, e: Event): History {
    match e
    case SavesPage(response, writes) =>
      if writes == 0 || response.page < 1 then h
      else if writes == 1 then WritePage(h, response)
      else Acknowledge(WritePage(h, response), response)
    case SavesMessage(m, written) => if written then StoreMessage(h, m) else h
  }

  // ---- What the stored lists keep ------------------------------------------------------------

  ghost predicate HistoryIn(h: History, saved: iset<Item>, fetched: iset<Item>) {
    AllIn(Live(h).messages, saved) && forall p :: p in h.pages ==> AllIn(h.pages[p].messages, fetched)
  }

  ghost predicate EventIn(e: Event, saved: iset<Item>, fetched: iset<Item>) {
    match e
    case SavesPage(response, _) => AllIn(response.messages, fetched)
    case SavesMessage(m, _) => m in saved
  }

  lemma CarriesCons(x: Item, ms: seq<Item>, m: Item)
    ensures Carries([x] + ms, m) == (SameMessage(x, m) || Carries(ms, m))
  {
    var all := [x] + ms;
    if SameMessage(x, m) { assert SameMessage(all[0], m); }
    if Carries(ms, m) {
      var i :| 0 <= i < |ms| && SameMessage(ms[i], m);
      assert SameMessage(all[i + 1], m);
    }
    if Carries(all, m) && !SameMessage(x, m) {
      var i :| 0 <= i < |all| && SameMessage(all[i], m);
      assert SameMessage(ms[i - 1], m);
    }
  }

  lemma {:induction false} StoredKeeps(live: seq<Item>, m: Item, x: Item, saved: iset<Item>, fetched: iset<Item>)
    requires Consistent(saved, fetched) && AllIn(live, saved) && m in saved && x in saved
    ensures AllIn(Stored(live, m), saved)
    ensures Carries(Stored(live, m), x) == (Carries(live, x) || SameMessage(m, x))
    decreases |live|
  {
    if live == [] {
      CarriesAppend([], m, x);
      assert [] + [m] == [m];
    } else {
      CarriesCons(live[0], live[1..], x);
      assert live == [live[0]] + live[1..];
      if SameMessage(live[0], m) {
        assert SameMessage(m, live[0]);
        CarriesCons(m, live[1..], x);
      } else {
        StoredKeeps(live[1..], m, x, saved, fetched);
        CarriesCons(live[0], Stored(live[1..], m), x);
      }
    }
  }

  lemma {:induction false} UnacknowledgedKeeps(live: seq<Item>, response: seq<Item>, x: Item,
                                              saved: iset<Item>, fetched: iset<Item>)
    requires Consistent(saved, fetched) && AllIn(live, saved) && AllIn(response, fetched) && x in saved
    ensures Carries(Unacknowledged(live, response), x) == (Carries(live, x) && !Carries(response, x))
    decreases |live|
  {
    if live != [] {
      var y, rest := live[0], live[1..];
      UnacknowledgedKeeps(rest, response, x, saved, fetched);
      assert live == [y] + rest;
      CarriesCons(y, rest, x);
      CarriesCons(y, Unacknowledged(rest, response), x);
      if SameMessage(y, x) { CarriesSame(response, y, x, saved, fetched); }
      if Carries(response, y) {
        assert Unacknowledged(live, response) == Unacknowledged(rest, response);
      }
    }
  }

  lemma {:induction false} UnacknowledgedWhole(live: seq<Item>, response: seq<Item>)
    ensures |Unacknowledged(live, response)| <= |live|
    ensures |Unacknowledged(live, response)| == |live| ==> Unacknowledged(live, response) == live
    ensures forall y :: y in Unacknowledged(live, response) ==> y in live
    decreases |live|
  {
    if live != [] {
      UnacknowledgedWhole(live[1..], response);
      assert live == [live[0]] + live[1..];
    }
  }

  lemma StepKeeps(h: History, e: Event, saved: iset<Item>, fetched: iset<Item>)
    requires Consistent(saved, fetched) && HistoryIn(h, saved, fetched) && EventIn(e, saved, fetched)
    ensures HistoryIn(Step(h, e), saved, fetched)
  {
    hide Consistent;
    var live := Live(h).messages;
    match e
    case SavesPage(response, writes) =>
      UnacknowledgedWhole(live, response.messages);
      var rest := Unacknowledged(live, response.messages);
      forall i | 0 <= i < |rest| ensures rest[i] in saved {
        assert rest[i] in live;
      }
    case SavesMessage(m, written) =>
      StoredKeeps(live, m, m, saved, fetched);
  }

  // ---- One message followed over a run ---------------------------------------------------------

  /** Where one message stands: kept aside, and on the stored first page. */
  datatype Trace = Trace(pending: bool, onPage: bool)

  ghost function TraceOf(h: History, m: Item): Trace {
    Trace(Carries(Live(h).messages, m), Carries(PageAt(h, 1).messages, m))
  }

  /** How one call moves one message, told without the stored lists. */
  ghost function TraceStep(t: Trace, e: Event, m: Item): Trace {
    match e
    case SavesPage(response, writes) =>
      if writes == 0 || response.page < 1 then t
      else
        Trace(t.pending && (writes == 1 || !Carries(response.messages, m)),
              if response.page == 1 then Carries(response.messages, m) else t.onPage)
    case SavesMessage(x, written) => if written && SameMessage(x, m) then t.(pending := true) else t
  }

  lemma StepTraced(h: History, e: Event, m: Item, saved: iset<Item>, fetched: iset<Item>)
    requires Consistent(saved, fetched) && HistoryIn(h, saved, fetched) && EventIn(e, saved, fetched) && m in saved
    ensures TraceOf(Step(h, e), m) == TraceStep(TraceOf(h, m), e, m)
  {
    hide Consistent;
    var live := Live(h).messages;
    match e
    case SavesPage(response, writes) =>
      UnacknowledgedWhole(live, response.messages);
      UnacknowledgedKeeps(live, response.messages, m, saved, fetched);
    case SavesMessage(x, written) =>
      StoredKeeps(live, x, m, saved, fetched);
  }

  /** The first page shows a message exactly when it is kept aside or on the stored page. */
  lemma ShownExactly(h: History, m: Item, saved: iset<Item>, fetched: iset<Item>)
    requires Consistent(saved, fetched) && HistoryIn(h, saved, fetched) && m in saved
    ensures Carries(ReadPage(h, 1).messages, m) == (TraceOf(h, m).pending || TraceOf(h, m).onPage)
  {
    MergeCarries(PageAt(h, 1).messages, Live(h).messages, m, saved, fetched);
  }

  function Run(h: History, es: seq<Event>): History
    decreases |es|
  {
    if es == [] then h else Run(Step(h, es[0]), es[1..])
  }

  ghost function TraceRun(t: Trace, es: seq<Event>, m: Item): Trace
    decreases |es|
  {
    if es == [] then t else TraceRun(TraceStep(t, es[0], m), es[1..], m)
  }

  ghost predicate EventsIn(es: seq<Event>, saved: iset<Item>, fetched: iset<Item>) {
    forall i :: 0 <= i < |es| ==> EventIn(es[i], saved, fetched)
  }

  /** Over every run, with any write cut off, the first page shows exactly the messages that their
      own history puts there. */
  lemma {:induction false} RunShowsExactly(h: History, es: seq<Event>, m: Item, saved: iset<Item>, fetched: iset<Item>)
    requires Consistent(saved, fetched) && HistoryIn(h, saved, fetched) && EventsIn(es, saved, fetched) && m in saved
    ensures HistoryIn(Run(h, es), saved, fetched)
    ensures var t := TraceRun(TraceOf(h, m), es, m);
      TraceOf(Run(h, es), m) == t && Carries(ReadPage(Run(h, es), 1).messages, m) == (t.pending || t.onPage)
    decreases |es|
  {
    hide Consistent, HistoryIn, EventIn;
    if es == [] {
      ShownExactly(h, m, saved, fetched);
    } else {
      StepKeeps(h, es[0], saved, fetched);
      StepTraced(h, es[0], m, saved, fetched);
      RunShowsExactly(Step(h, es[0]), es[1..], m, saved, fetched);
    }
  }

  /** No page among the saves stands for m. */
  ghost predicate NoPageCarries(es: seq<Event>, m: Item) {
    forall i :: 0 <= i < |es| ==> es[i].SavesPage? ==> !Carries(es[i].response.messages, m)
  }

  lemma {:induction false} PendingStays(t: Trace, es: seq<Event>, m: Item)
    requires t.pending && NoPageCarries(es, m)
    ensures TraceRun(t, es, m).pending
    decreases |es|
  {
    if es != [] {
      PendingStays(TraceStep(t, es[0], m), es[1..], m);
    }
  }

  lemma ConsistentKeeps(h: History, m: Item, es: seq<Event>, saved: iset<Item>, fetched: iset<Item>)
    requires Consistent(saved, fetched) && HistoryIn(h, saved, fetched) && EventsIn(es, saved, fetched)
    requires m in saved && SameMessage(m, m) && NoPageCarries(es, m)
    ensures Carries(ReadPage(Run(StoreMessage(h, m), es), 1).messages, m)
  {
    hide Consistent, HistoryIn, NoPageCarries;
    var e := SavesMessage(m, true);
    StepKeeps(h, e, saved, fetched);
    StepTraced(h, e, m, saved, fetched);
    RunShowsExactly(StoreMessage(h, m), es, m, saved, fetched);
    PendingStays(TraceOf(StoreMessage(h, m), m), es, m);
  }

  // ---- Exactly when no live message is lost -----------------------------------------------------

  const EMPTY := History(map[], None)

  /** Every message that is saved live under some identity, in whatever run of saves, is shown from then
      on for as long as no page that is saved stands for it. */
  ghost predicate KeepsLive(saved: iset<Item>, fetched: iset<Item>) {
    forall before, m, after ::
      EventsIn(before, saved, fetched) && EventsIn(after, saved, fetched)
      && m in saved && SameMessage(m, m) && NoPageCarries(after, m)
      ==> Carries(ReadPage(Run(StoreMessage(Run(EMPTY, before), m), after), 1).messages, m)
  }

  /** Three messages on which SameMessage is not transitive: saving b replaces a, and then c, saved or
      on a page, replaces b without standing for a. */
  ghost function LosingRun(b: Item, c: Item, live: bool): seq<Event> {
    [SavesMessage(b, true), if live then SavesMessage(c, true) else SavesPage(Page([c], 1, 1, 1), 2)]
  }

  lemma OneStored(h: History, x: Item, y: Item)
    requires Live(h).messages == [x] && SameMessage(x, y)
    ensures Live(Step(h, SavesMessage(y, true))).messages == [y] && Step(h, SavesMessage(y, true)).pages == h.pages
  {
    assert Stored([x], y) == [y];
  }

  lemma OneAcknowledged(h: History, x: Item, y: Item)
    requires Live(h).messages == [x] && SameMessage(x, y)
    ensures var g := Step(h, SavesPage(Page([y], 1, 1, 1), 2)); Live(g).messages == [] && PageAt(g, 1).messages == [y]
  {
    assert SameMessage([y][0], x);
    assert Unacknowledged([x], [y]) == [];
  }

  lemma OnlyShown(h: History, x: Item)
    requires || (Live(h).messages == [x] && PageAt(h, 1).messages == [])
             || (Live(h).messages == [] && PageAt(h, 1).messages == [x])
    ensures ReadPage(h, 1).messages == [x]
  {
    assert [x][1..] == [] && [] + [x] == [x];
    assert Merge([], [x]) == Merge([x], []) == [x];
  }

  lemma LosingRunLoses(a: Item, b: Item, c: Item, live: bool)
    requires SameMessage(a, b) && SameMessage(b, c) && !SameMessage(a, c)
    ensures !Carries(ReadPage(Run(StoreMessage(EMPTY, a), LosingRun(b, c, live)), 1).messages, a)
    ensures NoPageCarries(LosingRun(b, c, live), a) && SameMessage(a, a)
  {
    var es := LosingRun(b, c, live);
    var h1 := StoreMessage(EMPTY, a);
    assert Live(h1).messages == [a] && h1.pages == map[];
    var h2 := Step(h1, es[0]);
    OneStored(h1, a, b);
    var h3 := Step(h2, es[1]);
    if live { OneStored(h2, b, c); } else { OneAcknowledged(h2, b, c); }
    OnlyShown(h3, c);
    assert es[1..][1..] == [];
    assert Run(h1, es) == Run(h2, es[1..]) == Run(h3, es[1..][1..]) == h3;
    hide Step, ReadPage;
    assert forall i :: 0 <= i < |[c]| ==> [c][i] == c;
    assert !Carries([c], a);
  }

  lemma InconsistentLoses(a: Item, b: Item, c: Item, saved: iset<Item>, fetched: iset<Item>)
    requires a in saved && b in saved && c in saved + fetched
    requires SameMessage(a, b) && SameMessage(b, c) && !SameMessage(a, c)
    ensures !KeepsLive(saved, fetched)
  {
    var before, after: seq<Event> := [], LosingRun(b, c, c in saved);
    LosingRunLoses(a, b, c, c in saved);
    assert Run(EMPTY, before) == EMPTY;
    assert EventsIn(before, saved, fetched) && EventsIn(after, saved, fetched);
    hide Run, StoreMessage, ReadPage, SameMessage, LosingRun;
  }

  /** Over the messages that are saved and the messages that pages bring, no live message is ever lost
      if and only if SameMessage is transitive from the saved ones. */
  lemma LiveMessagesKeptExactly(saved: iset<Item>, fetched: iset<Item>)
    ensures KeepsLive(saved, fetched) <==> Consistent(saved, fetched)
  {
    if Consistent(saved, fetched) {
      forall before, m, after | EventsIn(before, saved, fetched) && EventsIn(after, saved, fetched)
        && m in saved && SameMessage(m, m) && NoPageCarries(after, m)
        ensures Carries(ReadPage(Run(StoreMessage(Run(EMPTY, before), m), after), 1).messages, m)
      {
        RunShowsExactly(EMPTY, before, m, saved, fetched);
        ConsistentKeeps(Run(EMPTY, before), m, after, saved, fetched);
      }
    } else {
      var a, b, c :| a in saved && b in saved && c in saved + fetched
                     && SameMessage(a, b) && SameMessage(b, c) && !SameMessage(a, c);
      InconsistentLoses(a, b, c, saved, fetched);
    }
  }

  /** As the repository builds live messages none is lost, whatever the pages bring. */
  lemma LiveMessageKept(saved: iset<Item>, fetched: iset<Item>)
    requires forall m :: m in saved ==> Identified(m)
    ensures KeepsLive(saved, fetched)
  {
    IdentifiedConsistent(saved, fetched);
    LiveMessagesKeptExactly(saved, fetched);
  }

  /** Whatever message has both names: once a message with only its id is saved before it, one with only its
      messageId, saved or on a page, makes the first one disappear. */
  lemma UnidentifiedMessageLost(b: Item, first: string, last: string)
    requires b.id != "" && b.messageId != ""
    ensures var a, c := Item(b.id, "", first), Item("", b.messageId, last);
            !KeepsLive(iset{a, b, c}, iset{}) && !KeepsLive(iset{a, b}, iset{c})
  {
    hide KeepsLive;
    var a, c := Item(b.id, "", first), Item("", b.messageId, last);
    InconsistentLoses(a, b, c, iset{a, b, c}, iset{});
    InconsistentLoses(a, b, c, iset{a, b}, iset{c});
  }

  lemma {:induction false} StoredHolds(live: seq<Item>, m: Item)
    ensures exists k :: 0 <= k < |Stored(live, m)| && Stored(live, m)[k] == m
                        && forall j :: 0 <= j < k ==> !SameMessage(Stored(live, m)[j], m)
    decreases |live|
  {
    if live == [] || SameMessage(live[0], m) {
      assert Stored(live, m)[0] == m;
    } else {
      StoredHolds(live[1..], m);
      var rest := Stored(live[1..], m);
      var k :| 0 <= k < |rest| && rest[k] == m && forall j :: 0 <= j < k ==> !SameMessage(rest[j], m);
      assert Stored(live, m)[k + 1] == m;
    }
  }

  /** Until a page stands for it, any message that was just saved is shown with its latest content. */
  lemma SavedMessageShown(h: History, m: Item)
    ensures Carries(PageAt(h, 1).messages, m) || m in ReadPage(StoreMessage(h, m), 1).messages
  {
    var live := Stored(Live(h).messages, m);
    StoredHolds(Live(h).messages, m);
    var k :| 0 <= k < |live| && live[k] == m && forall j :: 0 <= j < k ==> !SameMessage(live[j], m);
    if !Carries(PageAt(h, 1).messages, m) {
      MergeShowsLive(PageAt(h, 1).messages, live, k);
    }
  }

  // ---- What a run leaves, told from the calls alone --------------------------------------------------

  /** picked are the elements of items at these places, in order. */
  ghost predicate PickedAt(picked: seq<Item>, items: seq<Item>, places: seq<nat>) {
    && |places| == |picked| && (forall k, m :: 0 <= k < m < |places| ==> places[k] < places[m])
    && forall k :: 0 <= k < |places| ==> places[k] < |items| && picked[k] == items[places[k]]
  }

  lemma PickRest(picked: seq<Item>, items: seq<Item>, places: seq<nat>, first: bool) returns (all: seq<nat>)
    requires items != [] && PickedAt(picked, items[1..], places)
    ensures PickedAt((if first then [items[0]] else []) + picked, items, all)
    ensures forall j: nat :: j in all <==> (first && j == 0) || (j > 0 && j - 1 in places)
  {
    var later := seq(|places|, k requires 0 <= k < |places| => places[k] + 1);
    all := (if first then [0] else []) + later;
    forall j: nat ensures j in all <==> (first && j == 0) || (j > 0 && j - 1 in places) {
      if j > 0 && j - 1 in places {
        var k :| 0 <= k < |places| && places[k] == j - 1;
        assert later[k] == j;
      }
      assert j in all <==> (first && j == 0) || j in later;
    }
  }

  /** A live message is added to the page exactly when neither the page nor an added one before it is the
      same; what is added keeps its order. */
  lemma {:induction false} MergeExactly(ms: seq<Item>, live: seq<Item>) returns (places: seq<nat>)
    ensures |ms| <= |Merge(ms, live)| && Merge(ms, live)[..|ms|] == ms
    ensures PickedAt(Merge(ms, live)[|ms|..], live, places)
    ensures forall j: nat :: j in places <==>
              j < |live| && !Carries(ms, live[j])
              && forall i: nat :: i < j && i in places ==> !SameMessage(live[i], live[j])
    decreases |live|
  {
    MergeExtends(ms, live);
    if live == [] {
      places := [];
    } else {
      var x := live[0];
      var first := !Carries(ms, x);
      var next := if first then ms + [x] else ms;
      var rest := MergeExactly(next, live[1..]);
      var all := Merge(ms, live);
      assert all == Merge(next, live[1..]);
      assert all[|ms|..] == (if first then [x] else []) + all[|next|..];
      places := PickRest(all[|next|..], live, rest, first);
      hide Merge, PickedAt, Carries, SameMessage;
      MergePlaces(ms, live, rest, places);
    }
  }

  lemma MergePlaces(ms: seq<Item>, live: seq<Item>, rest: seq<nat>, places: seq<nat>)
    requires live != []
    requires var first := !Carries(ms, live[0]);
             forall j: nat :: j in places <==> (first && j == 0) || (j > 0 && j - 1 in rest)
    requires var next := if Carries(ms, live[0]) then ms else ms + [live[0]];
             forall j: nat :: j in rest <==>
               j < |live[1..]| && !Carries(next, live[1..][j])
               && forall i: nat :: i < j && i in rest ==> !SameMessage(live[1..][i], live[1..][j])
    ensures forall j: nat :: j in places <==>
              j < |live| && !Carries(ms, live[j])
              && forall i: nat :: i < j && i in places ==> !SameMessage(live[i], live[j])
  {
    forall j: nat
      ensures j in places <==>
        j < |live| && !Carries(ms, live[j]) && forall i: nat :: i < j && i in places ==> !SameMessage(live[i], live[j])
    {
      if 0 < j < |live| {
        CarriesAppend(ms, live[0], live[j]);
        assert live[1..][j - 1] == live[j];
        assert forall i: nat :: 0 < i < j ==> (i in places <==> i - 1 in rest) && live[1..][i - 1] == live[i];
        if j - 1 in rest {
          forall i: nat | i < j && i in places ensures !SameMessage(live[i], live[j]) {
            if i > 0 { assert i - 1 in rest && live[1..][i - 1] == live[i]; }
          }
        }
        if !Carries(ms, live[j]) && forall i: nat :: i < j && i in places ==> !SameMessage(live[i], live[j]) {
          forall i: nat | i < j - 1 && i in rest ensures !SameMessage(live[1..][i], live[1..][j - 1]) {
            assert i + 1 in places && live[1..][i] == live[i + 1];
          }
        }
      }
    }
  }

  /** Exactly the live messages that the response carries go. */
  lemma {:induction false} UnacknowledgedExactly(live: seq<Item>, response: seq<Item>) returns (places: seq<nat>)
    ensures PickedAt(Unacknowledged(live, response), live, places)
    ensures forall j: nat :: j in places <==> j < |live| && !Carries(response, live[j])
    decreases |live|
  {
    if live == [] {
      places := [];
    } else {
      var rest := UnacknowledgedExactly(live[1..], response);
      places := PickRest(Unacknowledged(live[1..], response), live, rest, !Carries(response, live[0]));
    }
  }

  /** The pending messages after a page was saved. */
  lemma PendingAfterPage(h: History, response: Page, writes: nat) returns (places: seq<nat>)
    ensures var live, now := Live(h).messages, Live(Step(h, SavesPage(response, writes))).messages;
            && PickedAt(now, live, places)
            && forall j: nat :: j in places <==>
                 j < |live| && !(writes >= 2 && response.page >= 1 && Carries(response.messages, live[j]))
  {
    var live := Live(h).messages;
    LiveAfterPage(h, response, writes);
    hide Step, Live, PickedAt, Carries, Unacknowledged;
    if writes >= 2 && response.page >= 1 {
      places := UnacknowledgedExactly(live, response.messages);
    } else {
      places := PickAll(live);
    }
  }

  lemma LiveAfterPage(h: History, response: Page, writes: nat)
    ensures var live, now := Live(h).messages, Live(Step(h, SavesPage(response, writes))).messages;
            now == if writes >= 2 && response.page >= 1 then Unacknowledged(live, response.messages) else live
  {
    UnacknowledgedWhole(Live(h).messages, response.messages);
  }

  lemma PickAll(items: seq<Item>) returns (places: seq<nat>)
    ensures PickedAt(items, items, places) && forall j: nat :: j in places <==> j < |items|
  {
    places := seq(|items|, k requires 0 <= k < |items| => k);
    forall j: nat ensures j in places <==> j < |items| {
      if j < |items| { assert places[j] == j; }
    }
  }

  /** And after a message was: it takes the place of the first that is the same, or the last place. */
  lemma PendingAfterMessage(h: History, m: Item, written: bool)
    ensures var live, now := Live(h).messages, Live(Step(h, SavesMessage(m, written))).messages;
            if !written then now == live
            else if Carries(live, m) then
              |now| == |live| && forall j :: 0 <= j < |live| ==>
                now[j] == if SameMessage(live[j], m) && (forall i :: 0 <= i < j ==> !SameMessage(live[i], m)) then m
                          else live[j]
            else now == live + [m]
  {
    var live := Live(h).messages;
    var at := FirstSame(live, m);
    StoredAt(live, m, at);
  }

  lemma {:induction false} FirstSame(ms: seq<Item>, m: Item) returns (at: nat)
    ensures at <= |ms| && (at < |ms| ==> SameMessage(ms[at], m)) && forall i :: 0 <= i < at ==> !SameMessage(ms[i], m)
  {
    at := 0;
    if ms != [] && !SameMessage(ms[0], m) {
      var k := FirstSame(ms[1..], m);
      at := k + 1;
      assert forall j :: 0 < j < |ms| ==> ms[j] == ms[1..][j - 1];
    }
  }

  /** The call writes page p. */
  predicate Stores(e: Event, p: int) { e.SavesPage? && e.writes > 0 && e.response.page == p && p >= 1 }

  /** What read shows of page p when the last stored answer to its request was response, or there was none. */
  ghost predicate ShownFrom(shown: Page, p: int, response: Page) {
    && shown.page == p && |response.messages| <= |shown.messages|
    && shown.messages[..|response.messages|] == response.messages
    && shown.total == response.total + (|shown.messages| - |response.messages|)
    && (p != 1 ==> shown == response)
    && (p == 1 ==> shown.totalPages == if shown.messages == []
      || response.totalPages >= 1 then response.totalPages else 1)
  }

  lemma {:induction false} StoredPage(h: History, es: seq<Event>, i: nat, p: int)
    requires i < |es| && Stores(es[i], p) && forall j :: i < j < |es| ==> !Stores(es[j], p)
    ensures p in Run(h, es).pages && Run(h, es).pages[p] == es[i].response
    decreases |es|
  {
    if i > 0 {
      StoredPage(Step(h, es[0]), es[1..], i - 1, p);
    } else {
      var g := Step(h, es[0]);
      assert p in g.pages && g.pages[p] == es[0].response;
      PageUntouched(g, es[1..], p);
    }
  }

  lemma {:induction false} PageUntouched(h: History, es: seq<Event>, p: int)
    requires forall j :: 0 <= j < |es| ==> !Stores(es[j], p)
    ensures p in Run(h, es).pages <==> p in h.pages
    ensures p in h.pages ==> Run(h, es).pages[p] == h.pages[p]
    decreases |es|
  {
    if es != [] { PageUntouched(Step(h, es[0]), es[1..], p); }
  }

  /** Over every run each page shows the last response stored for it, the first page with the pending
      messages after it. */
  lemma RunShowsLastResponse(es: seq<Event>, i: nat, p: int)
    requires i < |es| && Stores(es[i], p) && forall j :: i < j < |es| ==> !Stores(es[j], p)
    ensures ShownFrom(ReadPage(Run(EMPTY, es), p), p, es[i].response)
  {
    StoredPage(EMPTY, es, i, p);
    MergeExtends(es[i].response.messages, Live(Run(EMPTY, es)).messages);
  }

  /** And a page for which none was stored is empty but for those. */
  lemma RunShowsNoResponse(es: seq<Event>, p: int)
    requires forall j :: 0 <= j < |es| ==> !Stores(es[j], p)
    ensures ShownFrom(ReadPage(Run(EMPTY, es), p), p, Page([], p, 0, 0))
  {
    PageUntouched(EMPTY, es, p);
  }

  // ---- The cache --------------------------------------------------------------------------------

  /** The snapshots of one conversation file. A write may fail and then changes nothing. */
  class MessageHistoryCache {
    var pages: map<int, Page>
    var pending: Option<Page>

    function Contents(): History
      reads this
    {
      History(pages, pending)
    }

    constructor ()
      ensures Contents() == EMPTY
    {
      pages, pending := map[], None;
    }

    /** written is how the write turns out, if it is reached. */
    method WriteSnapshot(response: Page, live: bool, written: bool) returns (ok: bool)
      modifies this
      ensures ok <==> written && (live || response.page >= 1)
      ensures Contents() == if !ok then old(Contents())
                            else if live then old(Contents()).(pending := Some(response))
                            else WritePage(old(Contents()), response)
    {
      ok := written && (live || response.page >= 1);
      if ok {
        if live { pending := Some(response); } else { pages := pages[response.page := response]; }
      }
    }

    method Find(ms: seq<Item>, m: Item) returns (at: nat)
      ensures at <= |ms| && (at < |ms| ==> SameMessage(ms[at], m))
      ensures forall i :: 0 <= i < at ==> !SameMessage(ms[i], m)
    {
      at := 0;
      while at < |ms| && !SameMessage(ms[at], m)
        invariant at <= |ms| && forall i :: 0 <= i < at ==> !SameMessage(ms[i], m)
      {
        at := at + 1;
      }
    }

    method Read(page: int) returns (result: Page)
      ensures result == ReadPage(Contents(), page)
    {
      result := PageAt(Contents(), page);
      if page == 1 {
        var live := Live(Contents()).messages;
        var i := 0;
        while i < |live|
          invariant 0 <= i <= |live|
          invariant Merge(result.messages, live[i..]) == Shown(Contents())
          invariant result == PageAt(Contents(), 1).(
            messages := result.messages,
            total := PageAt(Contents(), 1).total + |result.messages| - |PageAt(Contents(), 1).messages|)
        {
          var at := Find(result.messages, live[i]);
          if at == |result.messages| {
            result := result.(messages := result.messages + [live[i]], total := result.total + 1);
          }
          i := i + 1;
        }
        if result.messages != [] {
          result := result.(totalPages := if result.totalPages < 1 then 1 else result.totalPages);
        }
      }
    }

    /** True exactly when the page is written, and then the rest of the pending messages if one of them is
        acknowledged. */
    method SavePage(response: Page, pageWritten: bool, restWritten: bool) returns (ok: bool)
      modifies this
      ensures Contents() == Step(old(Contents()),
                                 SavesPage(response, if !pageWritten then 0 else if !restWritten then 1 else 2))
      ensures ok <==> response.page >= 1 && pageWritten
                      && (restWritten || forall i :: 0 <= i < |Live(old(Contents())).messages| ==>
                            !Carries(response.messages, Live(old(Contents())).messages[i]))
    {
      ghost var before := Contents();
      ok := WriteSnapshot(response, false, pageWritten);
      if !ok { return; }
      ghost var written := Contents();
      assert written == Step(before, SavesPage(response, 1));
      assert Step(before, SavesPage(response, 2)) == Acknowledge(written, response);
      var live := Live(Contents());
      assert live == Live(before);
      var rest: seq<Item> := [];
      var i := 0;
      while i < |live.messages|
        invariant 0 <= i <= |live.messages|
        invariant Contents() == written
        invariant rest == Unacknowledged(live.messages[..i], response.messages)
      {
        var at := Find(response.messages, live.messages[i]);
        UnacknowledgedAppend(live.messages[..i], live.messages[i], response.messages);
        assert live.messages[..i] + [live.messages[i]] == live.messages[..i + 1];
        if at == |response.messages| { rest := rest + [live.messages[i]]; }
        i := i + 1;
      }
      assert live.messages[..i] == live.messages;
      AllUnacknowledged(live.messages, response.messages);
      if |rest| != |live.messages| {
        ok := WriteSnapshot(live.(messages := rest), true, restWritten);
      }
    }

    method SaveMessage(m: Item, written: bool) returns (ok: bool)
      modifies this
      ensures Contents() == Step(old(Contents()), SavesMessage(m, written)) && ok == written
    {
      var live := Live(Contents());
      var at := Find(live.messages, m);
      StoredAt(live.messages, m, at);
      var messages := if at == |live.messages| then live.messages + [m] else live.messages[at := m];
      ok := WriteSnapshot(live.(messages := messages), true, written);
    }
  }

  lemma {:induction false} AllUnacknowledged(live: seq<Item>, response: seq<Item>)
    ensures |Unacknowledged(live, response)| == |live| <==>
              forall i :: 0 <= i < |live| ==> !Carries(response, live[i])
    decreases |live|
  {
    if live != [] {
      AllUnacknowledged(live[1..], response);
      UnacknowledgedWhole(live[1..], response);
      assert forall i :: 0 < i < |live| ==> live[i] == live[1..][i - 1];
    }
  }

  lemma {:induction false} StoredAt(live: seq<Item>, m: Item, at: nat)
    requires at <= |live| && (at < |live| ==> SameMessage(live[at], m))
    requires forall i :: 0 <= i < at ==> !SameMessage(live[i], m)
    ensures Stored(live, m) == if at == |live| then live + [m] else live[at := m]
    decreases |live|
  {
    if at > 0 {
      StoredAt(live[1..], m, at - 1);
      hide SameMessage;
      assert live == [live[0]] + live[1..];
      assert at < |live| ==> live[at := m] == [live[0]] + live[1..][at - 1 := m];
    }
  }
}
