/** The saved login: an index file naming the active snapshot, one snapshot per account, and older
    fixed-name snapshots, changed only by whole-file commits. */
module AuthStorage {
  import opened Options

  datatype Session = Session(username: string, userId: string, payload: string)

  /** The hashed file name of an account: equal only for equal name and secret. */
  datatype Name = Name(username: string, secret: string)

  /** None is the exception for a session without identity. */
  function NameOf(s: Session): Option<Name> {
    if s.username == "" || s.userId == "" then None else Some(Name(s.username, s.userId + s.username))
  }

  lemma NameIdentifiesAccount(a: Session, b: Session)
    requires NameOf(a).Some? && NameOf(a) == NameOf(b)
    ensures a.username == b.username && a.userId == b.userId && a.username != "" && a.userId != ""
  {
    var x, y := a.userId + a.username, b.userId + b.username;
    assert x[..|a.userId|] == a.userId && y[..|b.userId|] == b.userId;
  }

  /** The index file: not there, not readable as a name, empty, or naming a snapshot. */
  datatype Index = Absent | Garbage | LoggedOut | Active(name: Name)

  /** A snapshot file: not there, not readable as one auth record, or holding a session. */
  datatype Snapshot = Missing | Unreadable | Holds(session: Session)

  datatype Files = Files(index: Index, snapshots: map<Name, Snapshot>, legacy: seq<Snapshot>)

  /** One atomic change to the directory. */
  datatype Commit =
    | PutSnapshot(name: Name, session: Session)
    | PutIndex(index: Index)
    | DropSnapshot(gone: Name)
    | DropLegacy(at: nat)

  function Apply(f: Files, c: Commit): Files {
    match c
    case PutSnapshot(name, session) => f.(snapshots := f.snapshots[name := Holds(session)])
    case PutIndex(index) => f.(index := index)
    case DropSnapshot(gone) => f.(snapshots := f.snapshots - {gone})
    case DropLegacy(at) => if at < |f.legacy| then f.(legacy := f.legacy[at := Missing]) else f
  }

  predicate Removal(c: Commit) { c.DropSnapshot? || c.DropLegacy? }

  /** g can be left by issuing cs in order. The result of a removal is never looked at, so each may
      fail; unless all is set, the run may also be cut off between two commits. */
  ghost predicate Executes(f: Files, cs: seq<Commit>, all: bool, g: Files)
    decreases |cs|
  {
    if cs == [] then g == f
    else
      || (!all && g == f)
      || Executes(Apply(f, cs[0]), cs[1..], all, g)
      || (Removal(cs[0]) && Executes(f, cs[1..], all, g))
  }

  lemma {:induction false} CompletedIsPartial(f: Files, cs: seq<Commit>, g: Files)
    requires Executes(f, cs, true, g)
    ensures Executes(f, cs, false, g)
    decreases |cs|
  {
    if cs != [] {
      if Executes(Apply(f, cs[0]), cs[1..], true, g) {
        CompletedIsPartial(Apply(f, cs[0]), cs[1..], g);
      } else {
        CompletedIsPartial(f, cs[1..], g);
      }
    }
  }

  function SnapshotAt(f: Files, name: Name): Snapshot {
    if name in f.snapshots then f.snapshots[name] else Missing
  }

  // ---- Reading -------------------------------------------------------------------------

  /** The first fixed-name snapshot, in order; an unreadable one before it is an exception. */
  function FirstLegacy(legacy: seq<Snapshot>): Snapshot {
    if legacy == [] then Missing
    else if legacy[0].Missing? then FirstLegacy(legacy[1..])
    else legacy[0]
  }

  function ActiveSession(f: Files, name: Name): Option<Session> {
    match SnapshotAt(f, name)
    case Holds(s) => if NameOf(s) == Some(name) then Some(s) else None
    case _ => None
  }

  /** What read returns when its migration can write; an exception is caught there and reads as
      no session. */
  function ReadResult(f: Files): Option<Session> {
    match f.index
    case Garbage => None
    case LoggedOut => None
    case Active(name) => ActiveSession(f, name)
    case Absent =>
      match FirstLegacy(f.legacy)
      case Holds(s) => if NameOf(s).Some? then Some(s) else None
      case _ => None
  }

  // ---- The commits of each call -------------------------------------------------------------

  function DropAllLegacy(n: nat): seq<Commit> { seq(n, i requires 0 <= i => DropLegacy(i)) }

  /** What one look at the index can give: an index that is there may fail to open for once, or to be read,
      which gives the empty name of the logout marker. */
  predicate Looks(f: Files, seen: Index) {
    seen == f.index || (f.index != Absent && (seen == Garbage || seen == LoggedOut))
  }

  /** How one look at the index turns out. */
  datatype Look = Opens | FailsToOpen | FailsToRead

  function Seen(f: Files, look: Look): (seen: Index)
    ensures Looks(f, seen)
  {
    if f.index == Absent then Absent
    else match look case Opens => f.index case FailsToOpen => Garbage case FailsToRead => LoggedOut
  }

  /** What a save removes once its session is the one read; seen is the index it saw at its start. */
  function TidyUp(f: Files, seen: Index, name: Name): seq<Commit> {
    (if seen.Active? && seen.name != name then [DropSnapshot(seen.name)] else []) + DropAllLegacy(|f.legacy|)
  }

  function SwitchCommits(f: Files, seen: Index, name: Name): seq<Commit> {
    if seen == Active(name) then TidyUp(f, seen, name) else [PutIndex(Active(name))] + TidyUp(f, seen, name)
  }

  function SaveCommits(f: Files, seen: Index, s: Session): seq<Commit>
    requires NameOf(s).Some?
  {
    [PutSnapshot(NameOf(s).value, s)] + SwitchCommits(f, seen, NameOf(s).value)
  }

  /** A save that reports failure: its snapshot not written, or written and, when the index write
      failed, taken back if the removal went through. */
  ghost predicate SaveFails(f: Files, seen: Index, s: Session, g: Files) {
    || g == f
    || (NameOf(s).Some? && seen != Active(NameOf(s).value)
        && Executes(f, [PutSnapshot(NameOf(s).value, s), DropSnapshot(NameOf(s).value)], false, g))
  }

  /** The commits with which read moves a fixed-name snapshot to its account's name. */
  function MigrationCommits(f: Files): seq<Commit> {
    if f.index.Absent? && ReadResult(f).Some? then SaveCommits(f, Absent, ReadResult(f).value) else []
  }

  /** seen is the index that clear saw at its start. */
  function ClearTail(f: Files, seen: Index): seq<Commit> {
    (if seen.Active? then [DropSnapshot(seen.name)] else []) + DropAllLegacy(|f.legacy|)
  }

  /** clear gives up when the index is not a name. */
  function ClearCommits(f: Files, seen: Index): seq<Commit> {
    if seen.Garbage? then [] else [PutIndex(LoggedOut)] + ClearTail(f, seen)
  }

  /** update reads, with its migration, and then saves what the callback made of the session. */
  ghost predicate Updates(f: Files, modified: Option<Session>, all: bool, g: Files) {
    || Executes(f, MigrationCommits(f), all && modified.None?, g)
    || (modified.Some? && ReadResult(f).Some? && NameOf(modified.value).Some?
        && exists m, seen :: Looks(m, seen) && Executes(f, MigrationCommits(f), true, m)
                           && Executes(m, SaveCommits(m, seen, modified.value), all, g))
  }

  // ---- Crashes between commits -------------------------------------------------------------

  /** Dropping other snapshots and the fixed-name ones leaves the active session as it is. */
  predicate Tidies(c: Commit, name: Name) {
    (c.DropSnapshot? && c.gone != name) || c.DropLegacy?
  }

  lemma {:induction false} TidyingKeepsActive(f: Files, cs: seq<Commit>, all: bool, g: Files, name: Name)
    requires Executes(f, cs, all, g)
    requires f.index == Active(name) && forall i :: 0 <= i < |cs| ==> Tidies(cs[i], name)
    ensures g.index == Active(name) && SnapshotAt(g, name) == SnapshotAt(f, name)
    decreases |cs|
  {
    if cs != [] {
      if Executes(Apply(f, cs[0]), cs[1..], all, g) {
        TidyingKeepsActive(Apply(f, cs[0]), cs[1..], all, g, name);
      } else if Executes(f, cs[1..], all, g) {
        TidyingKeepsActive(f, cs[1..], all, g, name);
      }
    }
  }

  /** The files of a save, completed or cut off anywhere. */
  lemma SaveImage(f: Files, seen: Index, s: Session, all: bool, g: Files)
    requires NameOf(s).Some? && Looks(f, seen) && Executes(f, SaveCommits(f, seen, s), all, g)
    ensures var name := NameOf(s).value;
      || (g.index == Active(name) && SnapshotAt(g, name) == Holds(s))
      || (!all && g == f)
      || (!all && f.index != Active(name) && g == Apply(f, PutSnapshot(name, s)))
  {
    var name := NameOf(s).value;
    var put, rest, tidy := PutSnapshot(name, s), SwitchCommits(f, seen, name), TidyUp(f, seen, name);
    assert ([put] + rest)[1..] == rest;
    if all || g != f {
      var f1 := Apply(f, put);
      assert Executes(f1, rest, all, g);
      if seen == Active(name) {
        TidyingKeepsActive(f1, tidy, all, g, name);
      } else if all || g != f1 {
        var switch := PutIndex(Active(name));
        assert ([switch] + tidy)[1..] == tidy;
        TidyingKeepsActive(Apply(f1, switch), tidy, all, g, name);
      }
    }
  }

  /** A save that completes is read back; one cut off between any two of its commits, with any of
      its removals failing, leaves the old session or the new one. */
  lemma SaveIsAtomic(f: Files, seen: Index, s: Session, all: bool, g: Files)
    requires NameOf(s).Some? && Looks(f, seen) && Executes(f, SaveCommits(f, seen, s), all, g)
    ensures ReadResult(g) == Some(s) || (!all && ReadResult(g) == ReadResult(f))
  {
    SaveImage(f, seen, s, all, g);
  }

  /** The save did not see that its own account is the active one. */
  predicate MissesOwn(f: Files, seen: Index, s: Session) {
    NameOf(s).Some? && f.index == Active(NameOf(s).value) && seen != f.index
  }

  lemma FailedImage(f: Files, seen: Index, s: Session, g: Files)
    requires SaveFails(f, seen, s, g)
    ensures g.index == f.index
    ensures g == f || (NameOf(s).Some? && (g == Apply(f, PutSnapshot(NameOf(s).value, s))
              || g == Apply(Apply(f, PutSnapshot(NameOf(s).value, s)), DropSnapshot(NameOf(s).value))))
  {
    if g != f {
      var name := NameOf(s).value;
      var put, drop := PutSnapshot(name, s), DropSnapshot(name);
      var f1 := Apply(f, put);
      assert [put, drop][1..] == [drop] && [drop][1..] == [];
      assert Executes(f1, [drop], false, g);
      assert g == f1 || Executes(Apply(f1, drop), [], false, g) || Executes(f1, [], false, g);
    }
  }

  /** A save that reports failure changes neither the index nor the session that is read, unless it
      missed that its account is the active one. */
  lemma FailedSaveChangesNothing(f: Files, seen: Index, s: Session, g: Files)
    requires SaveFails(f, seen, s, g) && Looks(f, seen) && !MissesOwn(f, seen, s)
    ensures g.index == f.index && ReadResult(g) == ReadResult(f)
  {
    FailedImage(f, seen, s, g);
  }

  /** Failing saves spare the session that is read if and only if the save sees its own account's name
      whenever that is the active one: otherwise a failed index write takes the active snapshot away. */
  lemma FailedSaveSparesExactly(f: Files, seen: Index, s: Session)
    requires Looks(f, seen)
    ensures (forall g :: SaveFails(f, seen, s, g) ==> ReadResult(g) == ReadResult(f)) <==> !MissesOwn(f, seen, s)
  {
    if MissesOwn(f, seen, s) {
      var name := NameOf(s).value;
      var put, drop := PutSnapshot(name, s), DropSnapshot(name);
      var f1 := Apply(f, put);
      var f2 := Apply(f1, drop);
      assert [put, drop][1..] == [drop] && [drop][1..] == [];
      assert Executes(f1, [drop], false, f1) && Executes(f2, [], false, f2) && Executes(f1, [drop], false, f2);
      assert SaveFails(f, seen, s, f1) && ReadResult(f1) == Some(s);
      assert SaveFails(f, seen, s, f2) && ReadResult(f2) == None;
    } else {
      forall g | SaveFails(f, seen, s, g) ensures ReadResult(g) == ReadResult(f) {
        FailedSaveChangesNothing(f, seen, s, g);
      }
    }
  }

  /** A migration cut off anywhere, or failing, leaves the same session to read. */
  lemma MigrationIsAtomic(f: Files, all: bool, g: Files)
    requires Executes(f, MigrationCommits(f), all, g)
    ensures ReadResult(g) == ReadResult(f)
  {
    if f.index.Absent? && ReadResult(f).Some? {
      SaveIsAtomic(f, Absent, ReadResult(f).value, all, g);
    }
  }

  /** An update, completed or cut off anywhere, leaves the session as it was or as modified. */
  lemma UpdateIsAtomic(f: Files, modified: Option<Session>, all: bool, g: Files)
    requires Updates(f, modified, all, g)
    ensures ReadResult(g) == ReadResult(f) || (modified.Some? && ReadResult(g) == modified)
  {
    if Executes(f, MigrationCommits(f), all && modified.None?, g) {
      MigrationIsAtomic(f, all && modified.None?, g);
    } else {
      var m, seen :| Looks(m, seen) && Executes(f, MigrationCommits(f), true, m)
                     && Executes(m, SaveCommits(m, seen, modified.value), all, g);
      MigrationIsAtomic(f, true, m);
      SaveIsAtomic(m, seen, modified.value, all, g);
    }
  }

  lemma {:induction false} RemovalsKeepIndex(f: Files, cs: seq<Commit>, all: bool, g: Files)
    requires Executes(f, cs, all, g) && forall i :: 0 <= i < |cs| ==> Removal(cs[i])
    ensures g.index == f.index
    decreases |cs|
  {
    if cs != [] {
      if Executes(Apply(f, cs[0]), cs[1..], all, g) {
        RemovalsKeepIndex(Apply(f, cs[0]), cs[1..], all, g);
      } else if Executes(f, cs[1..], all, g) {
        RemovalsKeepIndex(f, cs[1..], all, g);
      }
    }
  }

  /** A clear leaves everything as it was or the logout marker in place, never something between. */
  lemma ClearImage(f: Files, seen: Index, all: bool, g: Files)
    requires Looks(f, seen) && Executes(f, ClearCommits(f, seen), all, g)
    ensures g.index == LoggedOut || (g == f && (all ==> seen.Garbage?))
  {
    if !seen.Garbage? && (all || g != f) {
      var mark, tail := PutIndex(LoggedOut), ClearTail(f, seen);
      assert ([mark] + tail)[1..] == tail;
      RemovalsKeepIndex(Apply(f, mark), tail, all, g);
    }
  }

  // ---- Runs without a save ---------------------------------------------------------------

  /** A call that ended or was cut off by a crash; a save among them reported failure. */
  datatype Call =
    | Reads
    | FailingSaves(attempt: Session, seen: Index)
    | Clears(look: Index)
    | UpdatesTo(modified: Option<Session>)

  ghost predicate Happens(f: Files, c: Call, g: Files) {
    match c
    case Reads => Executes(f, MigrationCommits(f), false, g)
    case FailingSaves(s, seen) => Looks(f, seen) && SaveFails(f, seen, s, g)
    case Clears(seen) => Looks(f, seen) && Executes(f, ClearCommits(f, seen), false, g)
    case UpdatesTo(modified) => Updates(f, modified, false, g)
  }

  ghost predicate Runs(states: seq<Files>, calls: seq<Call>) {
    && |states| == |calls| + 1
    && forall i :: 0 <= i < |calls| ==> Happens(states[i], calls[i], states[i + 1])
  }

  /** After the logout marker is committed no read returns a session until a save succeeds, whatever
      snapshots and fixed-name files are left, over every run of reads, updates, clears, failed
      saves and crashes. */
  lemma {:induction false} LoggedOutStays(states: seq<Files>, calls: seq<Call>, k: nat)
    requires Runs(states, calls) && k < |states| && states[0].index == LoggedOut
    ensures states[k].index == LoggedOut && ReadResult(states[k]) == None
  {
    if k > 0 {
      LoggedOutStays(states, calls, k - 1);
      var f, c, g := states[k - 1], calls[k - 1], states[k];
      assert Happens(f, c, g);
      match c
      case Reads =>
      case FailingSaves(s, seen) => FailedImage(f, seen, s, g);
      case Clears(seen) => ClearImage(f, seen, false, g);
      case UpdatesTo(modified) =>
    }
  }

  // ---- Calls with given answers -----------------------------------------------------------------

  /** How the files answer during one call: the look at the index, whether the stores that are opened for
      reading open, the two kinds of writes, and the removals that fail. */
  datatype Answers = Answers(look: Look, storesOpen: bool, snapshotWritten: bool, indexWritten: bool,
    stuck: set<Commit>)

  /** All of the commits are issued; of the removals, those that are stuck have no effect. */
  function Issue(f: Files, cs: seq<Commit>, stuck: set<Commit>): Files
    decreases |cs|
  {
    if cs == [] then f
    else Issue(if Removal(cs[0]) && cs[0] in stuck then f else Apply(f, cs[0]), cs[1..], stuck)
  }

  lemma {:induction false} IssueExecutes(f: Files, cs: seq<Commit>, stuck: set<Commit>)
    ensures Executes(f, cs, true, Issue(f, cs, stuck))
    decreases |cs|
  {
    if cs != [] {
      IssueExecutes(if Removal(cs[0]) && cs[0] in stuck then f else Apply(f, cs[0]), cs[1..], stuck);
    }
  }

  lemma {:induction false} IssueConcat(f: Files, a: seq<Commit>, b: seq<Commit>, stuck: set<Commit>)
    ensures Issue(f, a + b, stuck) == Issue(Issue(f, a, stuck), b, stuck)
    decreases |a|
  {
    if a == [] {
      assert a + b == b;
    } else {
      assert (a + b)[0] == a[0] && (a + b)[1..] == a[1..] + b;
      IssueConcat(if Removal(a[0]) && a[0] in stuck then f else Apply(f, a[0]), a[1..], b, stuck);
    }
  }

  lemma IssueOne(f: Files, c: Commit, stuck: set<Commit>)
    ensures Issue(f, [c], stuck) == if Removal(c) && c in stuck then f else Apply(f, c)
  {
    assert [c][1..] == [];
  }

  /** What is left of the fixed-name snapshots. */
  function Left(legacy: seq<Snapshot>, stuck: set<Commit>): seq<Snapshot> {
    seq(|legacy|, i requires 0 <= i < |legacy| => if DropLegacy(i) in stuck then legacy[i] else Missing)
  }

  lemma {:induction false} LegacyIssued(f: Files, n: nat, stuck: set<Commit>)
    requires n <= |f.legacy|
    ensures Issue(f, DropAllLegacy(n), stuck) == f.(legacy := Left(f.legacy, stuck)[..n] + f.legacy[n..])
  {
    if n == 0 {
      assert f.legacy == Left(f.legacy, stuck)[..0] + f.legacy[0..];
    } else {
      LegacyIssued(f, n - 1, stuck);
      var before := Issue(f, DropAllLegacy(n - 1), stuck);
      assert DropAllLegacy(n) == DropAllLegacy(n - 1) + [DropLegacy(n - 1)];
      IssueConcat(f, DropAllLegacy(n - 1), [DropLegacy(n - 1)], stuck);
      IssueOne(before, DropLegacy(n - 1), stuck);
    }
  }

  lemma AllLegacyIssued(f: Files, stuck: set<Commit>)
    ensures Issue(f, DropAllLegacy(|f.legacy|), stuck) == f.(legacy := Left(f.legacy, stuck))
  {
    LegacyIssued(f, |f.legacy|, stuck);
    assert Left(f.legacy, stuck)[..|f.legacy|] + f.legacy[|f.legacy|..] == Left(f.legacy, stuck);
  }

  function DroppedUnlessStuck(snapshots: map<Name, Snapshot>, gone: Name, stuck: set<Commit>): map<Name, Snapshot> {
    if DropSnapshot(gone) in stuck then snapshots else snapshots - {gone}
  }

  lemma TidiedUp(f: Files, seen: Index, name: Name, stuck: set<Commit>)
    ensures Issue(f, TidyUp(f, seen, name), stuck)
         == f.(snapshots := if seen.Active? && seen.name != name then DroppedUnlessStuck(f.snapshots, seen.name, stuck)
                            else f.snapshots,
               legacy := Left(f.legacy, stuck))
  {
    if seen.Active? && seen.name != name {
      IssueConcat(f, [DropSnapshot(seen.name)], DropAllLegacy(|f.legacy|), stuck);
      IssueOne(f, DropSnapshot(seen.name), stuck);
      AllLegacyIssued(Issue(f, [DropSnapshot(seen.name)], stuck), stuck);
    } else {
      assert [] + DropAllLegacy(|f.legacy|) == DropAllLegacy(|f.legacy|);
      AllLegacyIssued(f, stuck);
    }
  }

  /** The files after a save: its snapshot and its name are there, the snapshot it saw as active before is
      not, nor are the fixed-name ones, but for removals that failed, and nothing else changed. */
  lemma SaveLeaves(f: Files, seen: Index, s: Session, stuck: set<Commit>)
    requires NameOf(s).Some? && Looks(f, seen)
    ensures var name := NameOf(s).value;
            var put := f.snapshots[name := Holds(s)];
            Issue(f, SaveCommits(f, seen, s), stuck)
            == Files(Active(name),
                     if seen.Active? && seen.name != name then DroppedUnlessStuck(put, seen.name, stuck) else put,
                     Left(f.legacy, stuck))
  {
    var name := NameOf(s).value;
    var put := PutSnapshot(name, s);
    var f1 := Apply(f, put);
    IssueConcat(f, [put], SwitchCommits(f, seen, name), stuck);
    IssueOne(f, put, stuck);
    if seen == Active(name) {
      TidiedUp(f1, seen, name, stuck);
    } else {
      var switch := PutIndex(Active(name));
      IssueConcat(f1, [switch], TidyUp(f, seen, name), stuck);
      IssueOne(f1, switch, stuck);
      TidiedUp(Apply(f1, switch), seen, name, stuck);
    }
  }

  /** A save that sees its own account's name does not write the index. */
  lemma SameAccountKeepsIndex(f: Files, s: Session)
    requires NameOf(s).Some?
    ensures var cs := SaveCommits(f, Active(NameOf(s).value), s); forall i :: 0 <= i < |cs| ==> !cs[i].PutIndex?
  {
  }

  /** The files after a clear: the marker is there, and the snapshot it saw as active and the fixed-name ones
      are not, but for removals that failed. */
  lemma ClearLeaves(f: Files, seen: Index, stuck: set<Commit>)
    requires !seen.Garbage?
    ensures Issue(f, ClearCommits(f, seen), stuck)
         == Files(LoggedOut, if seen.Active? then DroppedUnlessStuck(f.snapshots, seen.name, stuck) else f.snapshots,
                  Left(f.legacy, stuck))
  {
    var mark := PutIndex(LoggedOut);
    var f1 := Apply(f, mark);
    IssueConcat(f, [mark], ClearTail(f, seen), stuck);
    IssueOne(f, mark, stuck);
    if seen.Active? {
      IssueConcat(f1, [DropSnapshot(seen.name)], DropAllLegacy(|f.legacy|), stuck);
      IssueOne(f1, DropSnapshot(seen.name), stuck);
      AllLegacyIssued(Issue(f1, [DropSnapshot(seen.name)], stuck), stuck);
    } else {
      assert [] + DropAllLegacy(|f.legacy|) == DropAllLegacy(|f.legacy|);
      AllLegacyIssued(f1, stuck);
    }
  }

  /** The session that is read: that of the active snapshot if it belongs there, or without an index that of
      the first fixed-name snapshot there is. */
  lemma ReadExactly(f: Files, s: Session)
    ensures ReadResult(f) == Some(s) <==>
      NameOf(s).Some? &&
      (|| (f.index == Active(NameOf(s).value) && NameOf(s).value in f.snapshots
           && f.snapshots[NameOf(s).value] == Holds(s))
       || (f.index == Absent && exists i :: 0 <= i < |f.legacy| && f.legacy[i] == Holds(s)
                                        && forall j :: 0 <= j < i ==> f.legacy[j] == Missing))
  {
    FirstLegacyExactly(f.legacy, s);
  }

  lemma {:induction false} FirstLegacyExactly(legacy: seq<Snapshot>, s: Session)
    ensures FirstLegacy(legacy) == Holds(s) <==>
      exists i :: 0 <= i < |legacy| && legacy[i] == Holds(s) && forall j :: 0 <= j < i ==> legacy[j] == Missing
  {
    if legacy != [] && legacy[0].Missing? {
      FirstLegacyExactly(legacy[1..], s);
      if FirstLegacy(legacy[1..]) == Holds(s) {
        var i :| 0 <= i < |legacy[1..]| && legacy[1..][i] == Holds(s)
                 && forall j :: 0 <= j < i ==> legacy[1..][j] == Missing;
        assert legacy[i + 1] == Holds(s) && forall j :: 0 < j < i + 1 ==> legacy[j] == legacy[1..][j - 1];
      }
      if i :| 0 <= i < |legacy| && legacy[i] == Holds(s) && forall j :: 0 <= j < i ==> legacy[j] == Missing {
        assert legacy[1..][i - 1] == Holds(s) && forall j :: 0 <= j < i - 1 ==> legacy[1..][j] == legacy[j + 1];
      }
    }
  }

  /** The writes of a save that saw this index go through. */
  predicate Goes(s: Session, seen: Index, a: Answers) {
    NameOf(s).Some? && a.snapshotWritten && (seen == Active(NameOf(s).value) || a.indexWritten)
  }

  /** The files after a save: all of its commits, or, when the index could not be written, the snapshot put
      and taken away. */
  function Saved(f: Files, s: Session, a: Answers): Files {
    if Goes(s, Seen(f, a.look), a) then Issue(f, SaveCommits(f, Seen(f, a.look), s), a.stuck)
    else if NameOf(s).Some? && a.snapshotWritten then
      Issue(f, [PutSnapshot(NameOf(s).value, s), DropSnapshot(NameOf(s).value)], a.stuck)
    else f
  }

  /** A read moves a fixed-name snapshot that it finds. */
  predicate Migrates(f: Files, a: Answers) { f.index == Absent && a.storesOpen && ReadResult(f).Some? }

  /** The index can be looked at, the stores open, and a migration, if one is due, is written. */
  predicate Answered(f: Files, a: Answers) {
    && (f.index == Absent || a.look == Opens) && a.storesOpen
    && (Migrates(f, a) ==> Goes(ReadResult(f).value, Absent, a))
  }

  function AfterRead(f: Files, a: Answers): Files {
    if Migrates(f, a) then Saved(f, ReadResult(f).value, a) else f
  }

  lemma SavedFails(f: Files, s: Session, a: Answers)
    requires !Goes(s, Seen(f, a.look), a)
    ensures SaveFails(f, Seen(f, a.look), s, Saved(f, s, a)) && Saved(f, s, a).index == f.index
    ensures !MissesOwn(f, Seen(f, a.look), s) ==> ReadResult(Saved(f, s, a)) == ReadResult(f)
  {
    if NameOf(s).Some? && a.snapshotWritten {
      var put, drop := PutSnapshot(NameOf(s).value, s), DropSnapshot(NameOf(s).value);
      IssueExecutes(f, [put, drop], a.stuck);
      CompletedIsPartial(f, [put, drop], Saved(f, s, a));
    }
    FailedImage(f, Seen(f, a.look), s, Saved(f, s, a));
  }

  lemma SavedGoes(f: Files, s: Session, a: Answers)
    requires Goes(s, Seen(f, a.look), a)
    ensures Executes(f, SaveCommits(f, Seen(f, a.look), s), true, Saved(f, s, a))
            && ReadResult(Saved(f, s, a)) == Some(s)
  {
    IssueExecutes(f, SaveCommits(f, Seen(f, a.look), s), a.stuck);
    SaveIsAtomic(f, Seen(f, a.look), s, true, Saved(f, s, a));
  }

  // ---- The storage ----------------------------------------------------------------------

  /** The directory of the saved login. A file write that fails changes nothing; a removal that fails is not
      looked at again. */
  class AuthStorage {
    var index: Index
    var snapshots: map<Name, Snapshot>
    var legacy: seq<Snapshot>

    ghost function Contents(): Files
      reads this
    {
      Files(index, snapshots, legacy)
    }

    constructor (files: Files)
      ensures Contents() == files
    {
      index, snapshots, legacy := files.index, files.snapshots, files.legacy;
    }

    method RemoveSnapshot(name: Name, stuck: set<Commit>)
      modifies this
      ensures Contents() == Issue(old(Contents()), [DropSnapshot(name)], stuck)
    {
      IssueOne(Contents(), DropSnapshot(name), stuck);
      if DropSnapshot(name) !in stuck { snapshots := snapshots - {name}; }
    }

    method RemoveLegacy(stuck: set<Commit>)
      modifies this
      ensures Contents() == Issue(old(Contents()), DropAllLegacy(|old(legacy)|), stuck)
    {
      ghost var before := Contents();
      var i := 0;
      while i < |legacy|
        invariant 0 <= i <= |legacy| == |old(legacy)|
        invariant Contents() == Issue(before, DropAllLegacy(i), stuck)
      {
        ghost var here := Contents();
        if DropLegacy(i) !in stuck { legacy := legacy[i := Missing]; }
        IssueOne(here, DropLegacy(i), stuck);
        IssueConcat(before, DropAllLegacy(i), [DropLegacy(i)], stuck);
        assert DropAllLegacy(i) + [DropLegacy(i)] == DropAllLegacy(i + 1);
        i := i + 1;
      }
    }

    /** Removes the snapshot if there is one to remove, and then the fixed-name ones. */
    method Remove(name: Option<Name>, stuck: set<Commit>)
      modifies this
      ensures var drops := if name.Some? then [DropSnapshot(name.value)] else [];
              Contents() == Issue(old(Contents()), drops + DropAllLegacy(|old(legacy)|), stuck)
    {
      ghost var before, drops := Contents(), DropAllLegacy(|legacy|);
      if name.Some? {
        IssueConcat(before, [DropSnapshot(name.value)], drops, stuck);
        IssueOne(before, DropSnapshot(name.value), stuck);
        RemoveSnapshot(name.value, stuck);
      } else {
        assert [] + drops == drops;
      }
      RemoveLegacy(stuck);
    }

    method ReadActiveName(look: Look) returns (seen: Index)
      ensures seen == Seen(Contents(), look)
    {
      if index == Absent { return Absent; }
      match look
      case Opens => return index;
      case FailsToOpen => return Garbage;
      case FailsToRead => return LoggedOut;
    }

    /** writeSession: snapshot, index, then what is no longer needed. True exactly when the writes it takes
        go through. */
    method Save(s: Session, a: Answers) returns (ok: bool)
      modifies this
      ensures ok <==> NameOf(s).Some? && a.snapshotWritten
                      && (a.indexWritten || (a.look == Opens && old(index) == Active(NameOf(s).value)))
      ensures Contents() == Saved(old(Contents()), s, a)
      ensures ok ==> ReadResult(Contents()) == Some(s)
      ensures !ok ==> index == old(index)
      ensures !ok && !MissesOwn(old(Contents()), Seen(old(Contents()), a.look), s) ==>
                ReadResult(Contents()) == ReadResult(old(Contents()))
    {
      ghost var before := Contents();
      if Goes(s, Seen(before, a.look), a) { SavedGoes(before, s, a); } else { SavedFails(before, s, a); }
      if NameOf(s).None? { return false; }
      var name := NameOf(s).value;
      var previous := ReadActiveName(a.look);
      if !a.snapshotWritten { return false; }
      snapshots := snapshots[name := Holds(s)];
      ghost var put := Contents();
      IssueOne(before, PutSnapshot(name, s), a.stuck);
      if previous != Active(name) {
        if !a.indexWritten {
          IssueConcat(before, [PutSnapshot(name, s)], [DropSnapshot(name)], a.stuck);
          RemoveSnapshot(name, a.stuck);
          assert [PutSnapshot(name, s)] + [DropSnapshot(name)] == [PutSnapshot(name, s), DropSnapshot(name)];
          return false;
        }
        index := Active(name);
        IssueOne(put, PutIndex(Active(name)), a.stuck);
        IssueConcat(put, [PutIndex(Active(name))], TidyUp(before, previous, name), a.stuck);
      }
      Remove(if previous.Active? && previous.name != name then Some(previous.name) else None, a.stuck);
      IssueConcat(before, [PutSnapshot(name, s)], SwitchCommits(before, previous, name), a.stuck);
      return true;
    }

    /** readSession with read's handler: the session whenever the files answer, and None for no session and
        for every exception. */
    method Read(a: Answers) returns (found: Option<Session>)
      modifies this
      ensures found == if Answered(old(Contents()), a) then ReadResult(old(Contents())) else None
      ensures a.storesOpen && (if old(index) == Absent then a.snapshotWritten
              && a.indexWritten else a.look == Opens) ==>
                found == ReadResult(old(Contents()))
      ensures Contents() == AfterRead(old(Contents()), a)
      ensures found.Some? ==> NameOf(found.value).Some? && index == Active(NameOf(found.value).value)
                              && SnapshotAt(Contents(), NameOf(found.value).value) == Holds(found.value)
      ensures ReadResult(Contents()) == ReadResult(old(Contents()))
    {
      ghost var before := Contents();
      MigrationReads(before, a);
      var active := ReadActiveName(a.look);
      match active
      case Garbage => return None;
      case LoggedOut => return None;
      case Active(name) =>
        if a.storesOpen && name in snapshots && snapshots[name].Holds?
          && NameOf(snapshots[name].session) == Some(name) {
          return Some(snapshots[name].session);
        }
        return None;
      case Absent =>
        var i := 0;
        while i < |legacy| && legacy[i].Missing?
          invariant 0 <= i <= |legacy| && Contents() == before
          invariant FirstLegacy(legacy) == FirstLegacy(legacy[i..])
        {
          i := i + 1;
        }
        if i == |legacy| || !a.storesOpen || !legacy[i].Holds? { return None; }
        var s := legacy[i].session;
        if NameOf(s).Some? { SaveLeaves(before, Absent, s, a.stuck); }
        var ok := Save(s, a);
        return if ok then Some(s) else None;
    }

    /** True exactly when the marker is written over an index that is not garbage. */
    method Clear(a: Answers) returns (ok: bool)
      modifies this
      ensures ok <==> a.indexWritten
                      && (old(index) == Absent || a.look == FailsToRead || (a.look == Opens && old(index) != Garbage))
      ensures var seen := Seen(old(Contents()), a.look);
              Contents() == if ok then Issue(old(Contents()), ClearCommits(old(Contents()), seen), a.stuck)
                            else old(Contents())
      ensures ok ==> index == LoggedOut && ReadResult(Contents()) == None
    {
      ghost var before := Contents();
      var previous := ReadActiveName(a.look);
      if previous.Garbage? || !a.indexWritten { return false; }
      ClearLeaves(before, previous, a.stuck);
      index := LoggedOut;
      IssueOne(before, PutIndex(LoggedOut), a.stuck);
      IssueConcat(before, [PutIndex(LoggedOut)], ClearTail(before, previous), a.stuck);
      Remove(if previous.Active? then Some(previous.name) else None, a.stuck);
      return true;
    }

    /** The callback refuses by returning None. The read and the save have answers of their own. */
    method Update(callback: Session -> Option<Session>, a: Answers, b: Answers) returns (ok: bool)
      modifies this
      ensures var f, session := old(Contents()), ReadResult(old(Contents()));
              var m := AfterRead(f, a);
              if Answered(f, a) && session.Some? && callback(session.value).Some? then
                && (ok <==> Goes(callback(session.value).value, Seen(m, b.look), b))
                && (NameOf(callback(session.value).value).Some? && b.snapshotWritten && b.indexWritten ==> ok)
                && Contents() == Saved(m, callback(session.value).value, b)
                && (ok ==> ReadResult(Contents()) == callback(session.value))
                && (!ok && !MissesOwn(m, Seen(m, b.look), callback(session.value).value) ==>
                      ReadResult(Contents()) == session)
              else !ok && Contents() == m && ReadResult(m) == session
    {
      var session := Read(a);
      if session.None? { return false; }
      var modified := callback(session.value);
      if modified.None? { return false; }
      ok := Save(modified.value, b);
    }
  }

  /** A migration, written or not, leaves the session that is read. */
  lemma MigrationReads(f: Files, a: Answers)
    ensures ReadResult(AfterRead(f, a)) == ReadResult(f)
  {
    if Migrates(f, a) {
      var s := ReadResult(f).value;
      if Goes(s, Seen(f, a.look), a) { SavedGoes(f, s, a); } else { SavedFails(f, s, a); }
    }
  }
}
