/** The most recently used stores kept open by the message cache, at most eight of them. */
module OpenStores {
  import opened Options

  type Path = string

  /** A store is told apart from any other by its number. */
  datatype Entry = Entry(path: Path, store: nat)

  const MAX_OPEN: nat := 8

  // ---- Recency, told from the uses alone ---------------------------------------------------

  function Except(ps: seq<Path>, p: Path): seq<Path> {
    if ps == [] then []
    else (if ps[0] == p then [] else [ps[0]]) + Except(ps[1..], p)
  }

  /** Every path used so far, once, the latest use first. */
  function Recent(uses: seq<Path>): seq<Path> {
    if uses == [] then []
    else
      var p := uses[|uses| - 1];
      [p] + Except(Recent(uses[..|uses| - 1]), p)
  }

  function FirstOf(ps: seq<Path>, k: nat): seq<Path> { if |ps| <= k then ps else ps[..k] }

  predicate Distinct(ps: seq<Path>) {
    forall i, j :: 0 <= i < j < |ps| ==> ps[i] != ps[j]
  }

  lemma {:induction false} ExceptMembers(ps: seq<Path>, p: Path)
    ensures forall q :: q in Except(ps, p) <==> q in ps && q != p
    ensures Distinct(ps) ==> Distinct(Except(ps, p))
  {
    if ps != [] {
      ExceptMembers(ps[1..], p);
      assert ps == [ps[0]] + ps[1..];
      if Distinct(ps) {
        assert Distinct(ps[1..]);
        assert ps[0] !in ps[1..];
      }
    }
  }

  lemma {:induction false} ExceptAbsent(ps: seq<Path>, p: Path)
    requires p !in ps
    ensures Except(ps, p) == ps
  {
    if ps != [] {
      ExceptAbsent(ps[1..], p);
    }
  }

  lemma {:induction false} ExceptAt(ps: seq<Path>, i: nat)
    requires i < |ps| && Distinct(ps)
    ensures Except(ps, ps[i]) == ps[..i] + ps[i + 1..]
  {
    if i == 0 {
      ExceptAbsent(ps[1..], ps[0]);
    } else {
      assert Distinct(ps[1..]);
      ExceptAt(ps[1..], i - 1);
      assert ps[1..][..i - 1] == ps[1..i] && ps[..i] == [ps[0]] + ps[1..i];
    }
  }

  lemma {:induction false} RecentDistinct(uses: seq<Path>)
    ensures Distinct(Recent(uses))
    ensures forall q :: q in Recent(uses) <==> q in uses
  {
    if uses != [] {
      var p, before := uses[|uses| - 1], uses[..|uses| - 1];
      assert uses == before + [p];
      RecentDistinct(before);
      ExceptMembers(Recent(before), p);
      var rest := Except(Recent(before), p);
      forall j | 0 <= j < |rest| ensures rest[j] != p { assert rest[j] in rest; }
    }
  }

  /** The position of the last use of a path, counted from 1; 0 for none. */
  function LastUse(uses: seq<Path>, p: Path): nat {
    if uses == [] then 0
    else if uses[|uses| - 1] == p then |uses|
    else LastUse(uses[..|uses| - 1], p)
  }

  lemma {:induction false} LastUseBound(uses: seq<Path>, p: Path)
    ensures LastUse(uses, p) <= |uses|
  {
    if uses != [] && uses[|uses| - 1] != p { LastUseBound(uses[..|uses| - 1], p); }
  }

  lemma {:induction false} ExceptOrdered(ps: seq<Path>, p: Path, uses: seq<Path>)
    requires forall i, j :: 0 <= i < j < |ps| ==> LastUse(uses, ps[i]) > LastUse(uses, ps[j])
    ensures forall i, j :: 0 <= i < j < |Except(ps, p)| ==>
              LastUse(uses, Except(ps, p)[i]) > LastUse(uses, Except(ps, p)[j])
  {
    if ps != [] {
      ExceptOrdered(ps[1..], p, uses);
      ExceptMembers(ps[1..], p);
      var rest := Except(ps[1..], p);
      forall j | 0 <= j < |rest| ensures LastUse(uses, ps[0]) > LastUse(uses, rest[j]) {
        assert rest[j] in ps[1..];
        var k :| 0 <= k < |ps[1..]| && ps[1..][k] == rest[j];
        assert ps[k + 1] == rest[j];
      }
    }
  }

  /** The list goes strictly backwards in the last use of each path. */
  lemma {:induction false} RecentOrdered(uses: seq<Path>, i: nat, j: nat)
    requires i < j < |Recent(uses)|
    ensures LastUse(uses, Recent(uses)[i]) > LastUse(uses, Recent(uses)[j])
  {
    var p, before := uses[|uses| - 1], uses[..|uses| - 1];
    var earlier := Recent(before);
    forall a, b | 0 <= a < b < |earlier| ensures LastUse(before, earlier[a]) > LastUse(before, earlier[b]) {
      RecentOrdered(before, a, b);
    }
    ExceptOrdered(earlier, p, before);
    ExceptMembers(earlier, p);
    var rest := Except(earlier, p);
    assert rest[j - 1] in rest && rest[j - 1] != p;
    LastUseBound(before, rest[j - 1]);
    if i > 0 {
      assert rest[i - 1] in rest && rest[i - 1] != p;
    }
  }

  // ---- One use of the list -------------------------------------------------------------------

  function Paths(es: seq<Entry>): seq<Path> {
    seq(|es|, i requires 0 <= i < |es| => es[i].path)
  }

  /** Every entry holds the store that was opened for its path. */
  predicate Own(es: seq<Entry>, made: seq<Path>) {
    forall i :: 0 <= i < |es| ==> es[i].store < |made| && made[es[i].store] == es[i].path
  }

  lemma EntryTaken(es: seq<Entry>, made: seq<Path>, at: nat)
    requires Own(es, made) && at < |es|
    ensures Own(es[..at] + es[at + 1..], made) && Own(es[..at], made) && Own([es[at]] + (es[..at] + es[at + 1..]), made)
    ensures Paths(es[..at] + es[at + 1..]) == Paths(es)[..at] + Paths(es)[at + 1..]
    ensures Paths(es[..at]) == Paths(es)[..at] && |Paths(es)| == |es|
    ensures es[at].store < |made| && made[es[at].store] == es[at].path
  {
  }

  lemma EntryPushed(e: Entry, es: seq<Entry>, made: seq<Path>)
    requires Own(es, made)
    ensures Paths([e] + es) == [e.path] + Paths(es)
    ensures e.store == |made| ==> Own([e] + es, made + [e.path])
  {
  }

  /** The paths after p was used: p first, the eighth other path dropped. */
  function Used(ps: seq<Path>, p: Path): seq<Path> {
    [p] + FirstOf(Except(ps, p), MAX_OPEN - 1)
  }

  lemma CutKeepsExcept(all: seq<Path>, p: Path)
    requires Distinct(all) && p in all
    ensures FirstOf(Except(FirstOf(all, MAX_OPEN), p), MAX_OPEN - 1) == FirstOf(Except(all, p), MAX_OPEN - 1)
  {
    var kept := FirstOf(all, MAX_OPEN);
    var i :| 0 <= i < |all| && all[i] == p;
    ExceptAt(all, i);
    if i < |kept| {
      assert kept[i] == p && Distinct(kept);
      ExceptAt(kept, i);
    } else {
      assert forall j :: 0 <= j < |kept| ==> kept[j] == all[j] != p;
      ExceptAbsent(kept, p);
    }
  }

  lemma CutKeepsAbsent(all: seq<Path>, p: Path)
    requires p !in all
    ensures FirstOf(Except(FirstOf(all, MAX_OPEN), p), MAX_OPEN - 1) == FirstOf(Except(all, p), MAX_OPEN - 1)
  {
    ExceptAbsent(all, p);
    ExceptAbsent(FirstOf(all, MAX_OPEN), p);
  }

  /** Using a path turns the eight most recent paths into the eight most recent paths. */
  lemma UsedIsRecent(uses: seq<Path>, p: Path)
    ensures Used(FirstOf(Recent(uses), MAX_OPEN), p) == FirstOf(Recent(uses + [p]), MAX_OPEN)
  {
    var all := Recent(uses);
    assert (uses + [p])[..|uses|] == uses;
    RecentDistinct(uses);
    if p in all { CutKeepsExcept(all, p); } else { CutKeepsAbsent(all, p); }
    var rest := Except(all, p);
    assert Recent(uses + [p]) == [p] + rest;
    assert FirstOf([p] + rest, MAX_OPEN) == [p] + FirstOf(rest, MAX_OPEN - 1);
  }

  // ---- The list --------------------------------------------------------------------------------

  class OpenStores {
    var entries: seq<Entry>

    /** The path every store was opened for, by its number. */
    var openedFor: seq<Path>

    /** The uses since the list was last empty or lost an entry otherwise than by age. */
    ghost var uses: seq<Path>
    ghost var clean: bool

    ghost predicate Valid()
      reads this
    {
      && |entries| <= MAX_OPEN
      && Distinct(Paths(entries))
      && Own(entries, openedFor)
      && (clean ==> Paths(entries) == FirstOf(Recent(uses), MAX_OPEN))
    }

    constructor ()
      ensures Valid() && clean && uses == [] && entries == [] && openedFor == []
    {
      entries, openedFor, uses, clean := [], [], [], true;
    }

    /** clear(), after an error and on logout. */
    method CloseAll()
      requires Valid()
      modifies this
      ensures Valid() && clean && uses == [] && entries == [] && openedFor == old(openedFor)
    {
      entries, uses, clean := [], [], true;
    }

    method Find(path: Path) returns (at: nat)
      ensures at <= |entries| == |Paths(entries)|
      ensures at < |entries| ==> entries[at].path == path && Paths(entries)[at] == path
      ensures at == |entries| ==> path !in Paths(entries)
    {
      at := 0;
      while at < |entries| && entries[at].path != path
        invariant at <= |entries| && forall i :: 0 <= i < at ==> entries[i].path != path
      {
        at := at + 1;
      }
    }

    /** present says whether the file is there, opens whether the constructor succeeds; None is its
        exception. */
    method OpenStore(path: Path, present: bool, opens: bool) returns (store: Option<nat>)
      requires Valid()
      modifies this
      ensures Valid()
      ensures store.Some? ==> entries != [] && entries[0] == Entry(path, store.value)
                              && store.value < |openedFor| && openedFor[store.value] == path
      ensures store.Some? ==> Paths(entries) == Used(old(Paths(entries)), path) && uses == old(uses) + [path]
      ensures store.None? <==> !opens && (path !in old(Paths(entries)) || !present)
      ensures store.None? ==>
                Paths(entries) == if present then old(Paths(entries)) else Except(old(Paths(entries)), path)
      ensures clean == (old(clean) && (present || path !in old(Paths(entries))))
      ensures openedFor == if store.None? || (path in old(Paths(entries)) && present) then old(openedFor)
                           else old(openedFor) + [path]
    {
      hide FirstOf, Recent, Except, Used, Distinct, Paths, Own;
      ghost var ps := Paths(entries);
      var at := Find(path);
      UsedIsRecent(uses, path);
      UsedKeepsDistinct(ps, path);
      if at < |entries| {
        ExceptAt(ps, at);
        EntryTaken(entries, openedFor, at);
        var entry := entries[at];
        entries := entries[..at] + entries[at + 1..];
        if present {
          UsedWithRoom(ps, path);
          EntryPushed(entry, entries, openedFor);
          entries := [entry] + entries;
          uses := uses + [path];
          return Some(entry.store);
        }
        clean := false;
      } else {
        ExceptAbsent(ps, path);
      }
      if !opens {
        return None;
      }
      if |entries| >= MAX_OPEN {
        EntryTaken(entries, openedFor, |entries| - 1);
        entries := entries[..|entries| - 1];
      }
      PushedIsUsed(ps, path, Paths(entries));
      EntryPushed(Entry(path, |openedFor|), entries, openedFor);
      entries := [Entry(path, |openedFor|)] + entries;
      store := Some(|openedFor|);
      openedFor := openedFor + [path];
      uses := uses + [path];
    }
  }

  lemma UsedKeepsDistinct(ps: seq<Path>, p: Path)
    requires Distinct(ps) && |ps| <= MAX_OPEN
    ensures Distinct(Used(ps, p)) && |Used(ps, p)| <= MAX_OPEN && Distinct(Except(ps, p))
    ensures |Except(ps, p)| <= |ps|
  {
    var rest := Except(ps, p);
    ExceptMembers(ps, p);
    ExceptShorter(ps, p);
    forall j | 0 <= j < |rest| ensures rest[j] != p { assert rest[j] in rest; }
  }

  lemma {:induction false} ExceptShorter(ps: seq<Path>, p: Path)
    ensures |Except(ps, p)| <= |ps| && (p in ps ==> |Except(ps, p)| < |ps|)
  {
    if ps != [] {
      ExceptShorter(ps[1..], p);
      assert ps == [ps[0]] + ps[1..];
    }
  }

  lemma UsedWithRoom(ps: seq<Path>, p: Path)
    requires p in ps && |ps| <= MAX_OPEN
    ensures Used(ps, p) == [p] + Except(ps, p)
  {
    ExceptShorter(ps, p);
  }

  lemma PushedIsUsed(ps: seq<Path>, p: Path, kept: seq<Path>)
    requires |Except(ps, p)| <= MAX_OPEN
    requires kept == if |Except(ps, p)| >= MAX_OPEN then Except(ps, p)[..|Except(ps, p)| - 1] else Except(ps, p)
    ensures Used(ps, p) == [p] + kept
  {
  }
}
