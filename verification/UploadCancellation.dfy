/** Cancellation of one upload: the mutex-guarded sections as an object, and every interleaving of
    the calls that threads make on it. */
module UploadCancellation {

  type FutureId = nat

  datatype Shared = Shared(canceled: bool, committed: bool, cancelers: seq<FutureId>)

  // ---- The sections that hold the mutex --------------------------------------------------

  function Track(s: Shared, f: FutureId): Shared {
    if s.canceled || s.committed then s else s.(cancelers := s.cancelers + [f])
  }

  function Cancel(s: Shared): Shared {
    if s.committed || s.canceled then s else s.(canceled := true, cancelers := [])
  }

  function TryCommit(s: Shared): Shared {
    if s.canceled then s else s.(committed := true, cancelers := [])
  }

  class UploadCancellation {
    var canceled: bool
    var committed: bool
    var cancelers: seq<FutureId>

    ghost function State(): Shared
      reads this
    {
      Shared(canceled, committed, cancelers)
    }

    constructor ()
      ensures State() == Shared(false, false, [])
    {
      canceled, committed, cancelers := false, false, [];
    }

    /** True when the caller has to cancel the future itself, after leaving the mutex. */
    method TrackLocked(f: FutureId) returns (late: bool)
      modifies this
      ensures State() == Track(old(State()), f) && late == old(canceled)
    {
      late := canceled;
      if !late && !committed {
        cancelers := cancelers + [f];
      }
    }

    /** The winner takes the cancelers along, to run them after leaving the mutex. */
    method CancelLocked() returns (won: bool, taken: seq<FutureId>)
      modifies this
      ensures State() == Cancel(old(State()))
      ensures won == (!old(committed) && !old(canceled)) && taken == if won then old(cancelers) else []
    {
      if committed || canceled {
        return false, [];
      }
      canceled := true;
      taken, cancelers := cancelers, [];
      won := true;
    }

    method IsCanceled() returns (c: bool)
      ensures c == State().canceled
    {
      return canceled;
    }

    method TryCommitLocked() returns (won: bool)
      modifies this
      ensures State() == TryCommit(old(State())) && won == !old(canceled)
    {
      if canceled {
        return false;
      }
      committed := true;
      cancelers := [];
      return true;
    }
  }

  // ---- All interleavings ---------------------------------------------------------------

  datatype Future = Running | Finished | Canceled

  /** due: futures that some thread, out of the mutex, has yet to cancel. wins counts true results
      of cancel; sent lists the uploads whose message was handed on after a true tryCommit. */
  datatype System = System(
    shared: Shared,
    futures: map<FutureId, Future>,
    due: set<FutureId>,
    wins: nat,
    sent: seq<nat>)

  const START := System(Shared(false, false, []), map[], {}, 0, [])

  datatype Action =
    | Tracks(f: FutureId)         // the locked section of track, for a future not tracked before
    | Cancels                     // the locked section of cancel
    | RunsCanceler(f: FutureId)   // one canceler, or the cancel at the end of a late track
    | Finishes(f: FutureId)       // the operation behind a future ends
    | Commits(upload: nat)        // tryCommit, and on success sendMessageNow

  predicate Enabled(s: System, a: Action) {
    match a
    case Tracks(f) => f !in s.futures
    case RunsCanceler(f) => f in s.due && f in s.futures
    case Finishes(f) => f in s.futures && s.futures[f] == Running
    case _ => true
  }

  function Do(s: System, a: Action): System
    requires Enabled(s, a)
  {
    match a
    case Tracks(f) =>
      s.(shared := Track(s.shared, f), futures := s.futures[f := Running],
         due := if s.shared.canceled then s.due + {f} else s.due)
    case Cancels =>
      var won := !s.shared.committed && !s.shared.canceled;
      s.(shared := Cancel(s.shared),
         due := if won then s.due + (set f | f in s.shared.cancelers) else s.due,
         wins := if won then s.wins + 1 else s.wins)
    case RunsCanceler(f) =>
      s.(futures := if s.futures[f] == Running then s.futures[f := Canceled] else s.futures, due := s.due - {f})
    case Finishes(f) => s.(futures := s.futures[f := Finished])
    case Commits(upload) =>
      s.(shared := TryCommit(s.shared), sent := if s.shared.canceled then s.sent else s.sent + [upload])
  }

  ghost predicate Inv(s: System) {
    && !(s.shared.canceled && s.shared.committed)
    && (s.shared.canceled <==> s.wins == 1) && s.wins <= 1 && (s.shared.canceled ==> s.shared.cancelers == [])
    && (s.sent != [] ==> s.shared.committed) && (s.shared.committed ==> s.shared.cancelers == [])
    // Before a cancel wins, nothing is canceled and every tracked future can still be reached.
    && (!s.shared.canceled ==> s.due == {} && forall f :: f in s.futures ==> s.futures[f] != Canceled)
    && (!s.shared.canceled && !s.shared.committed ==> forall f :: f in s.futures ==> f in s.shared.cancelers)
    // Afterwards every tracked future has been reached or is about to be.
    && (s.shared.canceled ==> forall f :: f in s.futures ==> s.futures[f] != Running || f in s.due)
    && (forall f :: f in s.shared.cancelers ==> f in s.futures)
    && (forall f :: f in s.due ==> f in s.futures)
  }

  lemma ActionKeeps(s: System, a: Action)
    requires Inv(s) && Enabled(s, a)
    ensures Inv(Do(s, a))
    ensures s.shared.canceled ==> Do(s, a).shared.canceled
    ensures s.shared.committed ==> Do(s, a).shared.committed
  {
  }

  /** A run, newest action last. */
  ghost predicate Reaches(actions: seq<Action>, s: System)
    decreases |actions|
  {
    if actions == [] then s == START
    else
      var n := |actions| - 1;
      exists before :: Reaches(actions[..n], before) && Enabled(before, actions[n]) && s == Do(before, actions[n])
  }

  lemma {:induction false} ReachableInv(actions: seq<Action>, s: System)
    requires Reaches(actions, s)
    ensures Inv(s)
    decreases |actions|
  {
    if actions != [] {
      var n := |actions| - 1;
      var before :| Reaches(actions[..n], before) && Enabled(before, actions[n]) && s == Do(before, actions[n]);
      ReachableInv(actions[..n], before);
      ActionKeeps(before, actions[n]);
    }
  }

  /** Cancel and commit never both win; cancel wins at most once; and after a true result from
      cancel no message is ever sent, before or later in the run. */
  lemma CancelExcludesSend(actions: seq<Action>, s: System)
    requires Reaches(actions, s)
    ensures !(s.shared.canceled && s.shared.committed) && s.wins <= 1
    ensures s.wins > 0 ==> s.sent == []
    ensures s.shared.committed || s.shared.canceled ==> s.shared.cancelers == []
    ensures s.sent != [] ==> forall f :: f in s.futures ==> s.futures[f] != Canceled && f !in s.due
  {
    ReachableInv(actions, s);
  }

  /** Once no canceler is outstanding, a winning cancel has stopped every tracked future that had
      not finished by itself, also those tracked after it. */
  lemma CancelReachesAll(actions: seq<Action>, s: System, f: FutureId)
    requires Reaches(actions, s) && s.wins > 0 && s.due == {} && f in s.futures
    ensures s.futures[f] == Finished || s.futures[f] == Canceled
  {
    ReachableInv(actions, s);
  }

  /** Every outstanding canceler can run, and running it settles its future. */
  lemma OutstandingCancelerSettles(actions: seq<Action>, s: System, f: FutureId)
    requires Reaches(actions, s) && f in s.due
    ensures Enabled(s, RunsCanceler(f))
    ensures var t := Do(s, RunsCanceler(f)); t.futures[f] != Running && t.due == s.due - {f}
  {
    ReachableInv(actions, s);
  }

  // ---- What a run comes to, told from its actions ---------------------------------------------------

  /** The first cancel or commit of the run. */
  function FirstDecision(actions: seq<Action>): seq<Action> {
    if actions == [] then []
    else
      var n := |actions| - 1;
      var before := FirstDecision(actions[..n]);
      if before == [] && (actions[n].Cancels? || actions[n].Commits?) then [actions[n]] else before
  }

  function Uploads(actions: seq<Action>): seq<nat> {
    if actions == [] then []
    else
      var n := |actions| - 1;
      Uploads(actions[..n]) + if actions[n].Commits? then [actions[n].upload] else []
  }

  lemma NoDecisionNoUpload(actions: seq<Action>)
    requires FirstDecision(actions) == []
    ensures Uploads(actions) == []
  {
  }

  /** Whoever comes first decides: after a first cancel nothing is ever handed on; after a first commit no
      cancel ever wins, and every upload that commits is handed on, in order. */
  lemma {:induction false} FirstDecides(actions: seq<Action>, s: System)
    requires Reaches(actions, s)
    ensures s.wins == if FirstDecision(actions) == [Cancels] then 1 else 0
    ensures s.sent == if FirstDecision(actions) == [Cancels] then [] else Uploads(actions)
    ensures s.shared.canceled <==> FirstDecision(actions) == [Cancels]
    ensures s.shared.committed <==> FirstDecision(actions) != [] && FirstDecision(actions) != [Cancels]
    decreases |actions|
  {
    if actions != [] {
      var n := |actions| - 1;
      var before :| Reaches(actions[..n], before) && Enabled(before, actions[n]) && s == Do(before, actions[n]);
      FirstDecides(actions[..n], before);
      if FirstDecision(actions[..n]) == [] { NoDecisionNoUpload(actions[..n]); }
    }
  }

  /** What became of a future: what ended it first. */
  function Fate(actions: seq<Action>, f: FutureId): Future {
    if actions == [] then Running
    else
      var n := |actions| - 1;
      var before := Fate(actions[..n], f);
      if before != Running then before
      else if actions[n] == Finishes(f) then Finished
      else if actions[n] == RunsCanceler(f) then Canceled
      else Running
  }

  lemma UntrackedRuns(actions: seq<Action>, s: System, f: FutureId)
    requires Reaches(actions, s) && f !in s.futures
    ensures Fate(actions, f) == Running
    decreases |actions|
  {
    if actions != [] {
      var n := |actions| - 1;
      var before :| Reaches(actions[..n], before) && Enabled(before, actions[n]) && s == Do(before, actions[n]);
      UntrackedRuns(actions[..n], before, f);
    }
  }

  lemma ActionFate(s: System, a: Action, f: FutureId)
    requires Enabled(s, a)
    ensures f in Do(s, a).futures <==> f in s.futures || a == Tracks(f)
    ensures f !in s.futures && a == Tracks(f) ==> Do(s, a).futures[f] == Running
    ensures f in s.futures ==>
              Do(s, a).futures[f] == if s.futures[f] != Running then s.futures[f]
                                     else if a == Finishes(f) then Finished
                                     else if a == RunsCanceler(f) then Canceled
                                     else Running
  {
  }

  /** The futures are the tracked ones, and a canceler ends only one that has not finished. */
  lemma {:induction false} FutureFates(actions: seq<Action>, s: System, f: FutureId)
    requires Reaches(actions, s)
    ensures f in s.futures <==> Tracks(f) in actions
    ensures f in s.futures ==> s.futures[f] == Fate(actions, f)
    decreases |actions|
  {
    if actions != [] {
      var n := |actions| - 1;
      var before :| Reaches(actions[..n], before) && Enabled(before, actions[n]) && s == Do(before, actions[n]);
      FutureFates(actions[..n], before, f);
      if f !in before.futures { UntrackedRuns(actions[..n], before, f); }
      ActionFate(before, actions[n], f);
      hide Do, Enabled, Reaches;
      assert actions == actions[..n] + [actions[n]];
    }
  }
}
