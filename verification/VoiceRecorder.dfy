/** The voice recorder: five states, one session at a time whose end is deferred to the event loop,
    and observers that may call the recorder back from inside any signal. */
module VoiceRecorder {
  import opened Options

  datatype Mode = Idle | Starting | Recording | Paused | Stopping

  /** A place where a call waits while observers of a signal run, or while the audio source does. */
  datatype Frame =
    | StartPrelude(left: nat)              // start: one of the three signals before any decision
    | StartStarting(request: nat)          // start: the change to Starting
    | BeginSource                          // beginRecording: inside source->start
    | PauseSuspend                         // pause: inside source->suspend
    | PauseSet(left: nat)                  // pause: the change to Paused, then the duration
    | ResumeSource                         // resume: inside source->resume
    | StopSet                              // stop: the change to Stopping
    | FailSet(live: bool)                  // fail: the change to Stopping, or to Idle
    | Finish                               // finishRecording: the duration
    | CompleteLocation(session: nat, saved: bool) // completeRecording: the session is gone, the state not yet Idle
    | CompleteIdle(session: nat, saved: bool)     // completeRecording: the change to Idle
    | Tail                                 // any call: only signals left to send

  /** observed: observers of a signal run here and may call back. */
  datatype Point = Point(frame: Frame, observed: bool)

  /** request counts starts and cancels before a session; a session is numbered by the request that
      began it. The last four fields only record what happened: sessions announced as ready, starts and
      sessions canceled or failed, sessions destroyed under a running recording, and uses of a missing one. */
  datatype Recorder = Recorder(
    mode: Mode, session: Option<nat>, final: bool, discard: bool, request: nat,
    stack: seq<Point>, timers: multiset<nat>, asks: set<nat>,
    ready: seq<nat>, givenUp: set<nat>, dropped: set<nat>, fault: bool)

  datatype Permission = Granted | Denied | Undetermined

  /** How the system answers a step. */
  datatype Choice = Choice(
    folderOk: bool, permission: Permission, deviceOk: bool, setupOk: bool, sourceOk: bool, encoderStarts: bool)

  datatype Method = Start | Pause | Resume | Stop | Cancel

  datatype Label =
    | Call(m: Method)                       // from outside, or from an observer
    | Return(c: Choice)                     // the observers are done and the waiting call goes on
    | Timer(due: nat)
    | Answer(asked: nat, granted: bool, a: Choice)
    | Encoded(success: bool)
    | SourceError
    | Tick

  function Fresh(): Recorder {
    Recorder(Idle, None, false, false, 0, [], multiset{}, {}, [], {}, {}, false)
  }

  // ---- The calls, up to where they wait ------------------------------------------------------

  function Push(r: Recorder, f: Frame, observed: bool): Recorder { r.(stack := r.stack + [Point(f, observed)]) }

  /** setState: a signal only if the state changes. */
  function Enter(r: Recorder, m: Mode, f: Frame): Recorder { Push(r.(mode := m), f, r.mode != m) }

  function GiveUp(r: Recorder): Recorder {
    var gone := if r.session.Some? then {r.session.value} else if r.mode == Starting then {r.request} else {};
    r.(discard := true, givenUp := r.givenUp + gone)
  }

  function Schedule(r: Recorder): Recorder { r.(timers := r.timers + multiset{r.request}) }

  function Failed(r: Recorder): Recorder {
    if r.session.Some? then Enter(GiveUp(r), Stopping, FailSet(true)) else Enter(GiveUp(r), Idle, FailSet(false))
  }

  function CallStop(r: Recorder): Recorder {
    if r.mode == Idle || r.mode == Stopping then r
    else if r.session.None? then CallCancel(r)
    else Enter(r, Stopping, StopSet)
  }

  function CallCancel(r: Recorder): Recorder {
    if r.mode == Idle then r
    else if r.session.None? then Enter(GiveUp(r).(request := r.request + 1), Idle, Tail)
    else if r.mode == Stopping then Schedule(GiveUp(r))
    else Enter(GiveUp(r), Stopping, StopSet)
  }

  function Called(r: Recorder, m: Method): Recorder {
    match m
    case Start => if r.mode != Idle then r else Push(r, StartPrelude(2), true)
    case Pause => if r.mode == Recording && r.session.Some? then Push(r, PauseSuspend, false) else r
    case Resume => if r.mode == Paused && r.session.Some? then Push(r, ResumeSource, false) else r
    case Stop => CallStop(r)
    case Cancel => CallCancel(r)
  }

  /** beginRecording, up to the start of the source. A session that is still there is replaced. */
  function Begin(r: Recorder, c: Choice): Recorder {
    if !c.deviceOk then Failed(r)
    else
      var s := r.(session := Some(r.request), final := false,
                  dropped := r.dropped + (if r.session.Some? then {r.session.value} else {}));
      if !c.setupOk then Failed(s) else Push(s, BeginSource, false)
  }

  function Complete(r: Recorder, saved: bool): Recorder {
    if r.session.None? then r.(fault := true)
    else Push(r.(session := None), CompleteLocation(r.session.value, saved), true)
  }

  predicate NeedsSession(f: Frame) {
    f in {BeginSource, ResumeSource, StopSet, FailSet(true), Finish} || f.PauseSet?
  }

  /** The waiting call goes on from frame f, which is off the stack of q. */
  function Resumed(q: Recorder, f: Frame, c: Choice): Recorder {
    if NeedsSession(f) && q.session.None? then q.(fault := true)
    else
      match f
      case StartPrelude(left) =>
        if left > 0 then Push(q, StartPrelude(left - 1), true)
        else
          var d := q.(discard := false);
          if !c.folderOk then Failed(d)
          else Enter(d.(request := d.request + 1), Starting, StartStarting(d.request + 1))
      case StartStarting(request) =>
        if q.mode != Starting || request != q.request then q
        else if c.permission == Granted then Begin(q, c)
        else if c.permission == Denied then Failed(q)
        else q.(asks := q.asks + {request})
      case BeginSource =>
        if q.mode == Stopping then q else if !c.sourceOk then Failed(q) else Enter(q, Recording, Tail)
      case PauseSuspend => if q.mode == Stopping then q else Enter(q, Paused, PauseSet(1))
      case PauseSet(left) => if left > 0 then Push(q, PauseSet(left - 1), true) else Push(q, Tail, true)
      case ResumeSource => if q.mode == Stopping then q else Enter(q, Recording, Tail)
      case StopSet => Schedule(q)
      case FailSet(live) => Push(if live then Schedule(q) else q, Tail, true)
      case Finish =>
        if q.discard then Complete(q, false)
        else if c.encoderStarts then q.(final := true)
        else Complete(q.(final := true), false)
      case CompleteLocation(session, saved) => Enter(q, Idle, CompleteIdle(session, saved))
      case CompleteIdle(session, saved) => Push(if saved then q.(ready := q.ready + [session]) else q, Tail, true)
      case Tail => q
  }

  function Top(r: Recorder): Option<Point> {
    if r.stack == [] then None else Some(r.stack[|r.stack| - 1])
  }

  predicate InSource(r: Recorder) {
    Top(r).Some? && AtSource(Top(r).value.frame)
  }

  predicate Enabled(r: Recorder, l: Label) {
    match l
    case Call(_) => r.stack == [] || Top(r).value.observed
    case Return(_) => r.stack != []
    case Timer(due) => r.stack == [] && due in r.timers
    case Answer(asked, _, _) => r.stack == [] && asked in r.asks
    case Encoded(_) => r.stack == [] && r.session.Some?
    case SourceError => r.stack == [] || InSource(r)
    case Tick => r.stack == [] && r.session.Some?
  }

  function Step(r: Recorder, l: Label): Recorder
    requires Enabled(r, l)
  {
    match l
    case Call(m) => Called(r, m)
    case Return(c) => Resumed(r.(stack := r.stack[..|r.stack| - 1]), Top(r).value.frame, c)
    case Timer(due) =>
      var t := r.(timers := r.timers - multiset{due});
      if due == r.request && r.session.Some? && r.mode == Stopping then Push(t, Finish, true) else t
    case Answer(asked, granted, c) =>
      var a := r.(asks := r.asks - {asked});
      if asked != r.request || r.mode != Starting then a else if granted then Begin(a, c) else Failed(a)
    case Encoded(success) =>
      if r.final then Complete(r, success && !r.discard)
      else if r.mode == Paused then Push(r, Tail, true) else r
    case SourceError => if r.mode != Stopping && r.session.Some? then Failed(r) else r
    case Tick => Push(r, Tail, true)
  }

  // ---- What every reachable state satisfies ------------------------------------------------------

  /** Ids of finished sessions stay below this. */
  function Bound(r: Recorder): nat {
    if r.session.Some? || r.mode == Starting then r.request else r.request + 1
  }

  ghost predicate Ended(r: Recorder, s: nat, saved: bool) {
    s < Bound(r) && (saved ==> s !in r.givenUp && forall x :: x in r.ready ==> x < s)
  }

  predicate AtSource(f: Frame) { f in {BeginSource, PauseSuspend, ResumeSource} }

  ghost predicate FrameOk(r: Recorder, p: Point, top: bool, base: bool) {
    (AtSource(p.frame) ==> !p.observed) &&
    match p.frame
    case StartPrelude(_) => top && r.mode == Idle
    case StartStarting(request) => request <= r.request
    case BeginSource => r.session.Some? && (r.mode == Stopping || (top && r.mode == Starting))
    case PauseSuspend => r.session.Some? && (r.mode == Stopping || (top && r.mode == Recording))
    case ResumeSource => r.session.Some? && (r.mode == Stopping || (top && r.mode == Paused))
    case PauseSet(_) => r.session.Some?
    case StopSet => r.session.Some? && r.mode == Stopping
    case FailSet(live) => live ==> r.session.Some? && r.mode == Stopping
    case Finish => top && base && r.session.Some? && r.mode == Stopping
    case CompleteLocation(s, saved) => top && base && r.session.None? && r.mode == Stopping && Ended(r, s, saved)
    case CompleteIdle(s, saved) => base && Ended(r, s, saved)
    case Tail => true
  }

  ghost predicate FramesOk(r: Recorder) {
    forall i :: 0 <= i < |r.stack| ==> FrameOk(r, r.stack[i], i == |r.stack| - 1, i == 0)
  }

  /** Idle means no session, and a session is missing in no other state but before its start and
      right after its end. */
  ghost predicate ModeOk(r: Recorder) {
    if r.session.Some? then
      && r.session.value == r.request && r.mode != Idle
      && (r.mode == Starting ==> Top(r).Some? && Top(r).value.frame == BeginSource)
      && (r.session.value in r.givenUp <==> r.discard) && (r.mode != Stopping ==> !r.discard)
      && (r.final ==> r.mode == Stopping)
    else
      && r.mode != Recording && r.mode != Paused && (r.mode == Starting ==> !r.discard)
      && (r.mode == Stopping ==> Top(r).Some? && Top(r).value.frame.CompleteLocation?)
  }

  ghost predicate IdsOk(r: Recorder) {
    && (forall x :: x in r.ready ==> x < Bound(r) && x !in r.givenUp)
    && (forall x :: x in r.givenUp ==> x < if r.session.Some? then r.request + 1 else Bound(r))
    && (forall i, j :: 0 <= i < j < |r.ready| ==> r.ready[i] < r.ready[j])
  }

  predicate Settles(f: Frame) { f == StopSet || f == FailSet(true) || f == Finish }

  /** A session that is stopping has its end on the way. */
  ghost predicate WillEnd(r: Recorder) {
    r.session.Some? && r.mode == Stopping ==>
      r.request in r.timers || r.final || exists i :: 0 <= i < |r.stack| && Settles(r.stack[i].frame)
  }

  ghost predicate Inv(r: Recorder) {
    FramesOk(r) && ModeOk(r) && IdsOk(r) && WillEnd(r) && r.dropped == {} && !r.fault
  }

  /** Observers do not start from the signals that begin a start, and do not cancel from the signal
      that ends a session before the state says so. */
  predicate Polite(r: Recorder, l: Label) {
    && (l == Call(Start) && Top(r).Some? ==> !Top(r).value.frame.StartPrelude?)
    && (l == Call(Cancel) && Top(r).Some? ==> !Top(r).value.frame.CompleteLocation?)
  }

  /** The changes that leave a waiting frame as good as it was. */
  ghost predicate Carries(r: Recorder, q: Recorder) {
    && r.request <= q.request && Bound(r) <= Bound(q) && q.ready == r.ready
    && (r.session.Some? ==> q.session == r.session && (r.mode == Stopping ==> q.mode == Stopping))
    && (forall x :: x in q.givenUp ==> x in r.givenUp || x >= Bound(r))
  }

  /** What it takes for the top frame to wait below another. */
  predicate MayWait(q: Recorder, f: Frame) {
    !f.StartPrelude? && f != Finish && !f.CompleteLocation? && (AtSource(f) ==> q.mode == Stopping)
  }

  lemma FrameCarried(r: Recorder, q: Recorder, p: Point, top: bool, base: bool)
    requires Carries(r, q) && FrameOk(r, p, top, base) && (top ==> MayWait(q, p.frame))
    ensures FrameOk(q, p, false, base)
  {
  }

  lemma FrameRises(q: Recorder, p: Point, base: bool)
    requires FrameOk(q, p, false, base)
    ensures FrameOk(q, p, true, base)
  {
  }

  /** q keeps the n lowest frames of r and has rest above them. */
  lemma FramesCarried(r: Recorder, q: Recorder, n: nat, rest: seq<Point>)
    requires FramesOk(r) && Carries(r, q) && n <= |r.stack| && q.stack == r.stack[..n] + rest && |rest| <= 1
    requires n == |r.stack| ==> rest != []
    requires rest != [] ==> FrameOk(q, rest[0], true, n == 0)
    requires 0 < n == |r.stack| ==> MayWait(q, Top(r).value.frame)
    ensures FramesOk(q)
  {
    hide Carries, FrameOk, MayWait;
    forall i | 0 <= i < |q.stack| ensures FrameOk(q, q.stack[i], i == |q.stack| - 1, i == 0) {
      if i < n {
        assert q.stack[i] == r.stack[i];
        FrameCarried(r, q, r.stack[i], i == |r.stack| - 1, i == 0);
        FrameRises(q, r.stack[i], i == 0);
      }
    }
  }

  lemma WaitsCarried(r: Recorder, q: Recorder, n: nat)
    requires WillEnd(r) && r.session.Some? && r.mode == Stopping
    requires q.request == r.request && r.timers <= q.timers && (r.final ==> q.final)
    requires |r.stack| - 1 <= n <= |r.stack| && n <= |q.stack| && q.stack[..n] == r.stack[..n]
    requires n < |r.stack| && Settles(r.stack[n].frame) ==> q.request in q.timers || q.final
    ensures WillEnd(q)
  {
    if i :| 0 <= i < |r.stack| && Settles(r.stack[i].frame) {
      if i < n { assert q.stack[i] == q.stack[..n][i] == r.stack[..n][i]; }
    }
  }

  lemma Settling(q: Recorder, i: nat)
    requires i < |q.stack| && Settles(q.stack[i].frame)
    ensures WillEnd(q)
  {
  }

  /** fail, from a state r whose n lowest frames are still waiting. */
  lemma FailKeeps(r: Recorder, p: Recorder, n: nat)
    requires Inv(r) && |r.stack| - 1 <= n <= |r.stack| && p.stack == r.stack[..n]
    requires p.mode == r.mode && p.session == r.session && p.request == r.request
    requires p.ready == r.ready && p.givenUp == r.givenUp
    requires p.dropped == {} && !p.fault && p.mode != Stopping
    requires 0 < n == |r.stack| ==> AtSource(Top(r).value.frame)
    ensures Inv(Failed(p))
  {
    hide WillEnd, FramesOk;
    var q := Failed(p);
    TopOk(r);
    if r.session.Some? {
      assert q.session == r.session && q.mode == Stopping;
    }
    FramesCarried(r, q, n, [q.stack[n]]);
    assert ModeOk(q);
    if q.session.Some? { Settling(q, n); } else { NoSessionEnds(q); }
  }

  lemma NoSessionEnds(q: Recorder)
    requires q.session.None? || q.mode != Stopping
    ensures WillEnd(q)
  {
  }

  lemma TopOk(r: Recorder)
    requires FramesOk(r)
    ensures r.stack != [] ==> FrameOk(r, Top(r).value, true, |r.stack| == 1)
    ensures |r.stack| > 1 ==> FrameOk(r, r.stack[|r.stack| - 2], false, |r.stack| == 2)
  {
    var n := |r.stack|;
    if n > 0 { assert FrameOk(r, r.stack[n - 1], n - 1 == |r.stack| - 1, n - 1 == 0); }
    if n > 1 { assert FrameOk(r, r.stack[n - 2], n - 2 == |r.stack| - 1, n - 2 == 0); }
  }

  lemma FramesSame(r: Recorder, q: Recorder)
    requires FramesOk(r) && Carries(r, q) && q.stack == r.stack && q.mode == r.mode && q.session == r.session
    ensures FramesOk(q)
  {
    forall i | 0 <= i < |q.stack| ensures FrameOk(q, q.stack[i], i == |q.stack| - 1, i == 0) {
      assert FrameOk(r, r.stack[i], i == |r.stack| - 1, i == 0);
    }
  }

  lemma PushesKeep(r: Recorder, q: Recorder, p: Point)
    requires Inv(r) && Carries(r, q) && q.stack == r.stack + [p] && FrameOk(q, p, true, r.stack == [])
    requires r.stack != [] ==> MayWait(q, Top(r).value.frame)
    requires ModeOk(q) && IdsOk(q) && q.dropped == {} && !q.fault
    requires q.session.Some? && q.mode == Stopping ==>
               || Settles(p.frame)
               || (r.mode == Stopping && r.session.Some?
                   && q.request == r.request && q.timers == r.timers && q.final == r.final)
    ensures Inv(q)
  {
    hide FramesOk, WillEnd, FrameOk, Carries, MayWait, ModeOk, IdsOk;
    var n := |r.stack|;
    assert r.stack[..n] == r.stack;
    FramesCarried(r, q, n, [p]);
    if !q.session.Some? || q.mode != Stopping { NoSessionEnds(q); }
    else if Settles(p.frame) { Settling(q, n); }
    else { WaitsCarried(r, q, n); }
  }

  lemma CallKeeps(r: Recorder, m: Method)
    requires Inv(r) && Enabled(r, Call(m)) && Polite(r, Call(m))
    ensures Inv(Called(r, m))
  {
    if m == Stop || m == Cancel { EndingCallKeeps(r, m); } else { OpeningCallKeeps(r, m); }
  }

  lemma OpeningCallKeeps(r: Recorder, m: Method)
    requires Inv(r) && Enabled(r, Call(m)) && Polite(r, Call(m)) && m != Stop && m != Cancel
    ensures Inv(Called(r, m))
  {
    hide WillEnd, FramesOk;
    var q := Called(r, m);
    TopOk(r);
    if q != r { PushesKeep(r, q, q.stack[|r.stack|]); }
  }

  lemma EndingCallKeeps(r: Recorder, m: Method)
    requires Inv(r) && Enabled(r, Call(m)) && Polite(r, Call(m)) && (m == Stop || m == Cancel)
    ensures Inv(Called(r, m))
  {
    hide WillEnd, FramesOk;
    var q, n := Called(r, m), |r.stack|;
    TopOk(r);
    if |q.stack| > n {
      PushesKeep(r, q, q.stack[n]);
    } else if q != r {
      FramesSame(r, q);
      WaitsCarried(r, q, n);
    }
  }

  /** beginRecording, from a starting state r whose n lowest frames are still waiting. */
  lemma BeginKeeps(r: Recorder, p: Recorder, n: nat, c: Choice)
    requires Inv(r) && |r.stack| - 1 <= n <= |r.stack| && p.stack == r.stack[..n]
    requires r.mode == Starting && r.session.None? && p == r.(stack := p.stack, asks := p.asks)
    requires n == |r.stack| ==> n == 0
    ensures Inv(Begin(p, c))
  {
    hide WillEnd, FramesOk;
    var q := Begin(p, c);
    TopOk(r);
    if !c.deviceOk {
      FailKeeps(r, p, n);
    } else {
      FramesCarried(r, q, n, [q.stack[n]]);
      if q.mode == Stopping { Settling(q, n); } else { NoSessionEnds(q); }
    }
  }

  /** completeRecording, when nothing else is waiting. */
  lemma CompleteKeeps(r: Recorder, p: Recorder, saved: bool)
    requires Inv(r) && |r.stack| <= 1 && r.session.Some? && r.mode == Stopping
    requires p == r.(stack := [], final := p.final) && (saved ==> !r.discard)
    ensures Inv(Complete(p, saved))
  {
    var q := Complete(p, saved);
    assert Ended(q, r.session.value, saved);
  }

  lemma TimerKeeps(r: Recorder, due: nat)
    requires Inv(r) && Enabled(r, Timer(due))
    ensures Inv(Step(r, Timer(due)))
  {
    var q := Step(r, Timer(due));
    if q.stack != [] { Settling(q, 0); }
  }

  lemma AskGone(r: Recorder, q: Recorder)
    requires Inv(r) && q == r.(asks := q.asks)
    ensures Inv(q)
  {
    FramesSame(r, q);
  }

  lemma EventKeeps(r: Recorder, l: Label)
    requires Inv(r) && Enabled(r, l) && !l.Return? && !l.Call?
    ensures Inv(Step(r, l))
  {
    hide FramesOk, WillEnd;
    var q, n := Step(r, l), |r.stack|;
    TopOk(r);
    assert r.stack[..n] == r.stack;
    match l
    case Timer(due) => TimerKeeps(r, due);
    case Answer(asked, granted, c) =>
      var a := r.(asks := r.asks - {asked});
      if asked != r.request || r.mode != Starting { AskGone(r, a); }
      else if granted { BeginKeeps(r, a, n, c); }
      else { FailKeeps(r, a, n); }
    case Encoded(success) =>
      if r.final { CompleteKeeps(r, r, success && !r.discard); }
      else if r.mode == Paused { FramesCarried(r, q, n, [q.stack[n]]); NoSessionEnds(q); }
    case SourceError =>
      if q != r { FailKeeps(r, r, n); }
    case Tick =>
      FramesCarried(r, q, n, [q.stack[n]]);
      if r.mode == Stopping { WaitsCarried(r, q, n); } else { NoSessionEnds(q); }
  }

  lemma ReturnSourceKeeps(r: Recorder, c: Choice)
    requires Inv(r) && r.stack != [] && AtSource(Top(r).value.frame)
    ensures Inv(Step(r, Return(c)))
  {
    hide FramesOk, WillEnd;
    var q, n := Step(r, Return(c)), |r.stack| - 1;
    var p := r.(stack := r.stack[..n]);
    TopOk(r);
    if r.mode == Stopping {
      assert q == p;
      assert q.stack == r.stack[..n] + [];
      hide ModeOk, IdsOk;
      FramesCarried(r, q, n, []);
      WaitsCarried(r, q, n);
    } else if Top(r).value.frame == BeginSource && !c.sourceOk {
      FailKeeps(r, p, n);
    } else {
      SourceDone(r, q, n);
    }
  }

  lemma SourceDone(r: Recorder, q: Recorder, n: nat)
    requires Inv(r) && n + 1 == |r.stack| && AtSource(Top(r).value.frame) && r.mode != Stopping
    requires q == (match Top(r).value.frame
                   case PauseSuspend => Enter(r.(stack := r.stack[..n]), Paused, PauseSet(1))
                   case _ => Enter(r.(stack := r.stack[..n]), Recording, Tail))
    ensures Inv(q)
  {
    hide FramesOk, WillEnd;
    TopOk(r);
    FramesCarried(r, q, n, [q.stack[n]]);
    NoSessionEnds(q);
  }

  lemma ReturnPreludeKeeps(r: Recorder, c: Choice)
    requires Inv(r) && r.stack != [] && Top(r).value.frame.StartPrelude?
    ensures Inv(Step(r, Return(c)))
  {
    hide FramesOk, WillEnd;
    var q, n := Step(r, Return(c)), |r.stack| - 1;
    TopOk(r);
    if Top(r).value.frame.left == 0 && !c.folderOk {
      FailKeeps(r, r.(stack := r.stack[..n], discard := false), n);
    } else {
      FramesCarried(r, q, n, [q.stack[n]]);
      NoSessionEnds(q);
    }
  }

  lemma ReturnStartingKeeps(r: Recorder, c: Choice)
    requires Inv(r) && r.stack != [] && Top(r).value.frame.StartStarting?
    ensures Inv(Step(r, Return(c)))
  {
    hide FramesOk, WillEnd;
    var q, n := Step(r, Return(c)), |r.stack| - 1;
    var p := r.(stack := r.stack[..n]);
    TopOk(r);
    if r.mode != Starting || Top(r).value.frame.request != r.request {
      FramesCarried(r, q, n, []);
      if r.session.Some? && r.mode == Stopping { WaitsCarried(r, q, n); } else { NoSessionEnds(q); }
    } else if c.permission == Granted {
      BeginKeeps(r, p, n, c);
    } else if c.permission == Denied {
      FailKeeps(r, p, n);
    } else {
      FramesCarried(r, q, n, []);
      NoSessionEnds(q);
    }
  }

  lemma ReturnEndKeeps(r: Recorder, c: Choice)
    requires Inv(r) && r.stack != []
    requires Top(r).value.frame == Finish || Top(r).value.frame.CompleteLocation? || Top(r).value.frame.CompleteIdle?
    ensures Inv(Step(r, Return(c)))
  {
    hide WillEnd;
    var q := Step(r, Return(c));
    var p := r.(stack := r.stack[..|r.stack| - 1]);
    TopOk(r);
    assert |r.stack| == 1 && p.stack == [];
    match Top(r).value.frame
    case Finish =>
      if r.discard { CompleteKeeps(r, p, false); }
      else if c.encoderStarts { EncoderStarted(q); }
      else { CompleteKeeps(r, p.(final := true), false); }
    case CompleteLocation(s, saved) => NoSessionEnds(q);
    case CompleteIdle(s, saved) => Announced(r, c, s, saved);
  }

  lemma Announced(r: Recorder, c: Choice, s: nat, saved: bool)
    requires Inv(r) && r.stack != [] && Top(r).value.frame == CompleteIdle(s, saved)
    ensures Inv(Step(r, Return(c)))
  {
    hide WillEnd;
    var q := Step(r, Return(c));
    TopOk(r);
    assert q.stack == [Point(Tail, true)] && FrameOk(q, q.stack[0], true, true);
    hide FramesOk;
    assert forall x :: x in q.ready ==> x in r.ready || (saved && x == s);
    forall i, j | 0 <= i < j < |q.ready| ensures q.ready[i] < q.ready[j] {
      if j == |r.ready| { assert r.ready[i] in r.ready; }
    }
    assert FramesOk(q) by { OneFrame(q); }
    if r.session.Some? && r.mode == Stopping { WaitsCarried(r, q, 0); } else { NoSessionEnds(q); }
  }

  lemma OneFrame(q: Recorder)
    requires |q.stack| == 1 && FrameOk(q, q.stack[0], true, true)
    ensures FramesOk(q)
  {
  }

  lemma EncoderStarted(q: Recorder)
    requires q.final
    ensures WillEnd(q)
  {
  }

  /** The steps that only send signals, and those that also schedule the end of the session. */
  lemma PopKeeps(r: Recorder, q: Recorder, rest: seq<Point>)
    requires Inv(r) && r.stack != [] && |rest| <= 1 && (rest != [] ==> rest[0].frame == Tail || rest[0].frame.PauseSet?)
    requires q == r.(stack := r.stack[..|r.stack| - 1] + rest, timers := q.timers) && r.timers <= q.timers
    requires rest != [] && rest[0].frame.PauseSet? ==> r.session.Some?
    requires var f := Top(r).value.frame; f == Tail || f == StopSet || f.FailSet? || f.PauseSet?
    requires Settles(Top(r).value.frame) ==> r.request in q.timers
    ensures Inv(q)
  {
    hide FramesOk, WillEnd;
    var n := |r.stack| - 1;
    TopOk(r);
    FramesCarried(r, q, n, rest);
    if r.session.Some? && r.mode == Stopping { WaitsCarried(r, q, n); } else { NoSessionEnds(q); }
  }

  lemma ReturnRestKeeps(r: Recorder, c: Choice)
    requires Inv(r) && r.stack != []
    requires var f := Top(r).value.frame; f == Tail || f == StopSet || f.FailSet? || f.PauseSet?
    ensures Inv(Step(r, Return(c)))
  {
    TopOk(r);
    hide Inv, FramesOk;
    var q := Step(r, Return(c));
    match Top(r).value.frame
    case Tail => assert q.stack == r.stack[..|r.stack| - 1] + []; PopKeeps(r, q, []);
    case StopSet => assert q.stack == r.stack[..|r.stack| - 1] + []; PopKeeps(r, q, []);
    case FailSet(live) => PopKeeps(r, q, [Point(Tail, true)]);
    case PauseSet(left) => PopKeeps(r, q, [Point(if left > 0 then PauseSet(left - 1) else Tail, true)]);
  }

  /** Every step of a polite observer, the environment or the event loop keeps the invariant. */
  lemma StepKeeps(r: Recorder, l: Label)
    requires Inv(r) && Enabled(r, l) && Polite(r, l)
    ensures Inv(Step(r, l))
  {
    match l
    case Call(m) => CallKeeps(r, m);
    case Return(c) =>
      var f := Top(r).value.frame;
      hide Inv, Step;
      if AtSource(f) { ReturnSourceKeeps(r, c); }
      else if f.StartPrelude? { ReturnPreludeKeeps(r, c); }
      else if f.StartStarting? { ReturnStartingKeeps(r, c); }
      else if f == Finish || f.CompleteLocation? || f.CompleteIdle? { ReturnEndKeeps(r, c); }
      else { ReturnRestKeeps(r, c); }
    case _ => EventKeeps(r, l);
  }

  // ---- Whole runs -----------------------------------------------------------------------------

  ghost predicate Runs(rs: seq<Recorder>, ls: seq<Label>) {
    && |rs| == |ls| + 1 && rs[0] == Fresh()
    && forall i :: 0 <= i < |ls| ==> Enabled(rs[i], ls[i]) && Polite(rs[i], ls[i]) && rs[i + 1] == Step(rs[i], ls[i])
  }

  lemma {:induction false} ReachableInv(rs: seq<Recorder>, ls: seq<Label>, k: nat)
    requires Runs(rs, ls) && k < |rs|
    ensures Inv(rs[k])
  {
    if k > 0 {
      ReachableInv(rs, ls, k - 1);
      StepKeeps(rs[k - 1], ls[k - 1]);
      assert rs[k] == Step(rs[k - 1], ls[k - 1]);
    }
  }

  /** Over every run, with observers calling back from any signal and events in any order: each start
      is announced as ready at most once, and never if it was canceled or failed; a session ends only
      by its deferred completion, which is on the way while it is stopping; no call uses a session
      that is gone; and Idle means there is none. */
  lemma RunIsSafe(rs: seq<Recorder>, ls: seq<Label>, k: nat)
    requires Runs(rs, ls) && k < |rs|
    ensures var r := rs[k];
      && (forall i, j :: 0 <= i < j < |r.ready| ==> r.ready[i] != r.ready[j])
      && (forall x :: x in r.ready ==> x !in r.givenUp)
      && r.dropped == {} && !r.fault && (r.mode == Idle ==> r.session.None?)
      && (r.stack == [] && r.session.Some? && r.mode == Stopping ==> r.request in r.timers || r.final)
  {
    ReachableInv(rs, ls, k);
  }

  lemma RunLength(rs: seq<Recorder>, ls: seq<Label>)
    requires Runs(rs, ls)
    ensures |rs| == |ls| + 1
  {
    hide Step, Enabled, Polite;
  }

  // ---- Why things happen ------------------------------------------------------------------------------

  predicate Sets(c: Choice) { c.deviceOk && c.setupOk }

  /** The top call waits at frame f and goes on with the answers c. */
  predicate GoesOn(r: Recorder, l: Label, f: Frame) { l.Return? && Top(r).Some? && Top(r).value.frame == f }

  /** The label cancels or fails the start or session x: a cancel, or a stop before there is a session; a refused
      permission, a missing device or a failed setup; a source that cannot start or stops with an error. */
  predicate GivesUp(r: Recorder, l: Label, x: nat) {
    && x == r.request && (r.session.Some? || r.mode == Starting)
    && match l
       case Call(m) => m == Cancel || (m == Stop && r.session.None?)
       case Answer(asked, granted, c) => asked == x && r.mode == Starting && !(granted && Sets(c))
       case SourceError => r.session.Some? && r.mode != Stopping
       case Return(c) =>
         || (GoesOn(r, l, StartStarting(x)) && r.mode == Starting
             && (c.permission == Denied || (c.permission == Granted && !Sets(c))))
         || (GoesOn(r, l, BeginSource) && r.mode != Stopping && !c.sourceOk)
       case _ => false
  }

  /** The start x gets its session: the permission is there, at once or by its answer, and the device. */
  predicate Begins(r: Recorder, l: Label, x: nat) {
    && x == r.request && r.mode == Starting && r.session.None?
    && match l
       case Answer(asked, granted, c) => asked == x && granted && c.deviceOk
       case Return(c) => GoesOn(r, l, StartStarting(x)) && c.permission == Granted && c.deviceOk
       case _ => false
  }

  /** Session x ends: its final encoding is over, or there is none to wait for. */
  predicate Ends(r: Recorder, l: Label, x: nat) {
    && r.session == Some(x)
    && match l
       case Encoded(_) => r.final
       case Return(c) => GoesOn(r, l, Finish) && (r.discard || !c.encoderStarts)
       case _ => false
  }

  lemma GivenUpStep(r: Recorder, l: Label)
    requires Inv(r) && Enabled(r, l)
    ensures forall x :: x in Step(r, l).givenUp <==> x in r.givenUp || GivesUp(r, l, x)
  {
    TopOk(r);
    hide FramesOk, IdsOk, WillEnd;
    if l.Return? {
      ResumedGivesUp(r, l.c);
    }
  }

  lemma ResumedGivesUp(r: Recorder, c: Choice)
    requires Inv(r) && r.stack != []
    ensures forall x :: x in Step(r, Return(c)).givenUp <==> x in r.givenUp || GivesUp(r, Return(c), x)
  {
    TopOk(r);
    hide FramesOk, IdsOk, WillEnd;
    var q, f := r.(stack := r.stack[..|r.stack| - 1]), Top(r).value.frame;
    match f
    case StartStarting(request) => StartingGivesUp(q, request, c);
    case BeginSource =>
    case Finish =>
    case _ =>
  }

  lemma StartingGivesUp(q: Recorder, request: nat, c: Choice)
    requires q.mode == Starting ==> q.session.None?
    ensures forall x :: x in Resumed(q, StartStarting(request), c).givenUp <==>
              x in q.givenUp || (x == request == q.request && q.mode == Starting
                                 && (c.permission == Denied || (c.permission == Granted && !Sets(c))))
  {
  }

  lemma SessionStep(r: Recorder, l: Label, x: nat)
    requires Inv(r) && Enabled(r, l)
    ensures r.session != Some(x) ==> (Step(r, l).session == Some(x) <==> Begins(r, l, x))
    ensures r.session == Some(x) ==> (Step(r, l).session != Some(x) <==> Ends(r, l, x))
  {
    TopOk(r);
    hide FramesOk, IdsOk, WillEnd;
  }

  /** The state diagram, with what moves along each arrow. */
  function NextMode(r: Recorder, l: Label): Mode {
    if GivesUp(r, l, r.request) then
      if r.session.Some? || Begins(r, l, r.request) then Stopping else Idle
    else if l == Call(Stop) && r.session.Some? then Stopping
    else if !l.Return? || r.stack == [] then r.mode
    else match Top(r).value.frame
      case StartPrelude(left) => if left == 0 && l.c.folderOk then Starting else r.mode
      case BeginSource => if r.mode == Starting then Recording else r.mode
      case PauseSuspend => if r.mode == Recording then Paused else r.mode
      case ResumeSource => if r.mode == Paused then Recording else r.mode
      case CompleteLocation(_, _) => Idle
      case _ => r.mode
  }

  lemma ModeStep(r: Recorder, l: Label)
    requires Inv(r) && Enabled(r, l) && Polite(r, l)
    ensures Step(r, l).mode == NextMode(r, l)
  {
    if l.Return? {
      ReturnMode(r, l.c);
    } else {
      TopOk(r);
      hide FramesOk, IdsOk, WillEnd, Resumed;
    }
  }

  lemma ReturnMode(r: Recorder, c: Choice)
    requires Inv(r) && r.stack != []
    ensures Step(r, Return(c)).mode == NextMode(r, Return(c))
  {
    TopOk(r);
    hide FramesOk, IdsOk, WillEnd;
  }

  lemma InRun(rs: seq<Recorder>, ls: seq<Label>, i: nat)
    requires Runs(rs, ls) && i < |ls|
    ensures |rs| == |ls| + 1 && Inv(rs[i]) && Inv(rs[i + 1])
    ensures Enabled(rs[i], ls[i]) && Polite(rs[i], ls[i]) && rs[i + 1] == Step(rs[i], ls[i])
  {
    hide Step, Enabled, Polite;
    ReachableInv(rs, ls, i);
    ReachableInv(rs, ls, i + 1);
  }

  lemma RunBegins(rs: seq<Recorder>, ls: seq<Label>)
    requires Runs(rs, ls)
    ensures rs[0] == Fresh()
  {
    hide Step, Enabled, Polite;
  }

  /** Some label before point k of the run cancels or fails x. */
  predicate GivenUpBy(rs: seq<Recorder>, ls: seq<Label>, k: nat, x: nat)
    requires k <= |ls| <= |rs|
  {
    exists i :: 0 <= i < k && GivesUp(rs[i], ls[i], x)
  }

  /** Over every run a start or session is given up exactly when some label cancels or fails it. */
  lemma {:induction false} GivenUpExactly(rs: seq<Recorder>, ls: seq<Label>, k: nat, x: nat)
    requires Runs(rs, ls) && k < |rs|
    ensures |rs| == |ls| + 1
    ensures x in rs[k].givenUp <==> GivenUpBy(rs, ls, k, x)
  {
    RunLength(rs, ls);
    RunBegins(rs, ls);
    hide Runs, Step, Enabled, Polite, GivesUp, Inv;
    if k > 0 {
      GivenUpExactly(rs, ls, k - 1, x);
      InRun(rs, ls, k - 1);
      GivenUpStep(rs[k - 1], ls[k - 1]);
    }
  }

  /** And is then never announced. */
  lemma GivenUpNeverReady(rs: seq<Recorder>, ls: seq<Label>, i: nat, k: nat, x: nat)
    requires Runs(rs, ls) && i < |ls| && i < k < |rs| && GivesUp(rs[i], ls[i], x)
    ensures x !in rs[k].ready
  {
    hide GivesUp, Step, Enabled, Polite;
    GivenUpExactly(rs, ls, k, x);
    ReachableInv(rs, ls, k);
  }

  predicate StopsSession(r: Recorder, l: Label, x: nat) {
    l == Call(Stop) && r.session == Some(x) && r.mode != Stopping
  }

  predicate Announces(r: Recorder, l: Label, x: nat) {
    l == Encoded(true) && r.session == Some(x) && r.final && !r.discard
  }

  lemma StoppedStep(r: Recorder, l: Label, x: nat)
    requires Inv(r) && Enabled(r, l) && Polite(r, l)
    requires Step(r, l).session == Some(x) && Step(r, l).mode == Stopping && x !in Step(r, l).givenUp
    ensures (r.session == Some(x) && r.mode == Stopping && x !in r.givenUp) || StopsSession(r, l, x)
  {
    hide FramesOk, IdsOk, WillEnd, Step;
    GivenUpStep(r, l);
    SessionStep(r, l, x);
    ModeStep(r, l);
  }

  lemma {:induction false} StoppedBecause(rs: seq<Recorder>, ls: seq<Label>, k: nat, x: nat)
    requires Runs(rs, ls) && k < |rs|
    requires rs[k].session == Some(x) && rs[k].mode == Stopping && x !in rs[k].givenUp
    ensures |rs| == |ls| + 1 && exists i :: 0 <= i < k && StopsSession(rs[i], ls[i], x)
  {
    RunLength(rs, ls);
    RunBegins(rs, ls);
    hide Runs, Step, Enabled, Polite, Inv, StopsSession;
    if k > 0 {
      var r := rs[k - 1];
      InRun(rs, ls, k - 1);
      StoppedStep(r, ls[k - 1], x);
      if r.session == Some(x) && r.mode == Stopping && x !in r.givenUp { StoppedBecause(rs, ls, k - 1, x); }
    }
  }

  predicate Saves(f: Frame, x: nat) { f == CompleteLocation(x, true) || f == CompleteIdle(x, true) }

  /** Session x is announced or about to be. */
  ghost predicate Saved(r: Recorder, x: nat) {
    x in r.ready || exists i :: 0 <= i < |r.stack| && Saves(r.stack[i].frame, x)
  }

  lemma SavedAbove(q: Recorder, t: Recorder, p: Point, x: nat)
    requires t.stack == q.stack || t.stack == q.stack + [p]
    requires Saved(t, x) && x !in t.ready && !Saves(p.frame, x)
    ensures Saved(q, x)
  {
    var i :| 0 <= i < |t.stack| && Saves(t.stack[i].frame, x);
    assert t.stack[i] == q.stack[i];
  }

  /** t has at most one more frame than q, which announces nothing new. */
  ghost predicate Adds(q: Recorder, t: Recorder, p: Point, x: nat) {
    && (t.stack == q.stack || t.stack == q.stack + [p])
    && !Saves(p.frame, x) && (x in t.ready ==> x in q.ready)
  }

  lemma FailedAdds(q: Recorder, x: nat) returns (p: Point)
    ensures Adds(q, Failed(q), p, x)
  {
    p := if q.session.Some? then Point(FailSet(true), q.mode != Stopping) else Point(FailSet(false), q.mode != Idle);
  }

  lemma BeginAdds(q: Recorder, c: Choice, x: nat) returns (p: Point)
    ensures Adds(q, Begin(q, c), p, x)
  {
    hide Failed, Adds;
    if !c.deviceOk {
      p := FailedAdds(q, x);
    } else if !c.setupOk {
      p := FailedSetUp(q, x);
    } else {
      p := Point(BeginSource, false);
      BeganAdds(q, c, x);
    }
  }

  lemma FailedSetUp(q: Recorder, x: nat) returns (p: Point)
    ensures forall c: Choice :: c.deviceOk && !c.setupOk ==> Adds(q, Begin(q, c), p, x)
  {
    hide Failed;
    p := FailedAdds(q.(session := Some(q.request), final := false,
                       dropped := q.dropped + (if q.session.Some? then {q.session.value} else {})), x);
  }

  lemma BeganAdds(q: Recorder, c: Choice, x: nat)
    requires Sets(c)
    ensures Adds(q, Begin(q, c), Point(BeginSource, false), x)
  {
  }

  lemma CancelAdds(q: Recorder, x: nat) returns (p: Point)
    ensures Adds(q, CallCancel(q), p, x)
  {
    p := if q.session.None? then Point(Tail, q.mode != Idle) else Point(StopSet, q.mode != Stopping);
  }

  lemma CompleteAdds(q: Recorder, saved: bool, x: nat) returns (p: Point)
    requires saved ==> q.session != Some(x)
    ensures Adds(q, Complete(q, saved), p, x)
  {
    p := Point(if q.session.Some? then CompleteLocation(q.session.value, saved) else Tail, true);
  }

  lemma ResumedAdds(q: Recorder, f: Frame, c: Choice, x: nat) returns (p: Point)
    requires !Saves(f, x)
    ensures Adds(q, Resumed(q, f, c), p, x)
  {
    hide Failed, Begin, Complete;
    var t := Resumed(q, f, c);
    p := Point(Tail, true);
    if NeedsSession(f) && q.session.None? { return; }
    match f
    case StartPrelude(left) =>
      if left == 0 && !c.folderOk { p := FailedAdds(q.(discard := false), x); }
      else if left == 0 { p := Point(StartStarting(q.request + 1), q.mode != Starting); }
      else { p := Point(StartPrelude(left - 1), true); }
    case StartStarting(request) =>
      if q.mode == Starting && request == q.request {
        if c.permission == Granted { p := BeginAdds(q, c, x); }
        else if c.permission == Denied { p := FailedAdds(q, x); }
      }
    case BeginSource =>
      if q.mode != Stopping && !c.sourceOk { p := FailedAdds(q, x); } else { p := Point(Tail, q.mode != Recording); }
    case PauseSuspend => p := Point(PauseSet(1), q.mode != Paused);
    case PauseSet(left) => if left > 0 { p := Point(PauseSet(left - 1), true); }
    case ResumeSource => p := Point(Tail, q.mode != Recording);
    case Finish =>
      if q.discard { p := CompleteAdds(q, false, x); }
      else if !c.encoderStarts { p := CompleteAdds(q.(final := true), false, x); }
    case CompleteLocation(session, saved) => p := Point(CompleteIdle(session, saved), q.mode != Idle);
    case _ =>
  }

  lemma CalledAdds(r: Recorder, m: Method, x: nat) returns (p: Point)
    ensures Adds(r, Called(r, m), p, x)
  {
    hide CallStop, CallCancel;
    match m
    case Start => p := Point(StartPrelude(2), true);
    case Pause => p := Point(PauseSuspend, false);
    case Resume => p := Point(ResumeSource, false);
    case Stop => p := StopAdds(r, x);
    case Cancel => p := CancelAdds(r, x);
  }

  lemma StepAdds(r: Recorder, l: Label, x: nat) returns (p: Point)
    requires Enabled(r, l) && !l.Return? && !Announces(r, l, x)
    ensures Adds(r, Step(r, l), p, x)
  {
    hide Failed, Begin, Complete, Called;
    p := Point(Tail, true);
    match l
    case Call(m) => p := CalledAdds(r, m, x);
    case Timer(due) => p := Point(Finish, true);
    case Answer(asked, granted, c) =>
      var a := r.(asks := r.asks - {asked});
      if asked == r.request && r.mode == Starting {
        if granted { p := BeginAdds(a, c, x); } else { p := FailedAdds(a, x); }
      }
    case Encoded(success) =>
      if r.final { p := CompleteAdds(r, success && !r.discard, x); }
    case SourceError => if r.mode != Stopping && r.session.Some? { p := FailedAdds(r, x); }
    case _ =>
  }

  lemma StopAdds(r: Recorder, x: nat) returns (p: Point)
    ensures Adds(r, CallStop(r), p, x)
  {
    hide CallCancel;
    p := Point(StopSet, true);
    if r.mode != Idle && r.mode != Stopping && r.session.None? { p := CancelAdds(r, x); }
  }

  lemma SavedStep(r: Recorder, l: Label, x: nat)
    requires Enabled(r, l) && Saved(Step(r, l), x)
    ensures Saved(r, x) || Announces(r, l, x)
  {
    if l.Return? {
      ReturnSaved(r, l.c, x);
    } else if !Announces(r, l, x) {
      var p := StepAdds(r, l, x);
      hide Step, Announces;
      if x !in r.ready { SavedAbove(r, Step(r, l), p, x); }
    }
  }

  lemma ReturnSaved(r: Recorder, c: Choice, x: nat)
    requires r.stack != [] && Saved(Step(r, Return(c)), x)
    ensures Saved(r, x)
  {
    hide Resumed;
    var n := |r.stack| - 1;
    var q := r.(stack := r.stack[..n]);
    if !Saves(r.stack[n].frame, x) && x !in r.ready {
      var p := ResumedAdds(q, r.stack[n].frame, c, x);
      SavedAbove(q, Step(r, Return(c)), p, x);
      var i :| 0 <= i < |q.stack| && Saves(q.stack[i].frame, x);
      assert Saves(r.stack[i].frame, x);
    }
  }

  /** Whatever is announced was stopped by a call of stop, and its final encoding then succeeded. */
  lemma {:induction false} ReadyBecause(rs: seq<Recorder>, ls: seq<Label>, k: nat, x: nat)
    requires Runs(rs, ls) && k < |rs| && Saved(rs[k], x)
    ensures |rs| == |ls| + 1
    ensures exists i, j :: 0 <= i < j < k && StopsSession(rs[i], ls[i], x) && Announces(rs[j], ls[j], x)
  {
    RunLength(rs, ls);
    RunBegins(rs, ls);
    hide Runs, Step, Enabled, Polite;
    if k > 0 {
      InRun(rs, ls, k - 1);
      SavedStep(rs[k - 1], ls[k - 1], x);
      if Saved(rs[k - 1], x) {
        ReadyBecause(rs, ls, k - 1, x);
      } else {
        StoppedBecause(rs, ls, k - 1, x);
      }
    }
  }

  // ---- Why observers have to be polite ------------------------------------------------------------

  ghost predicate Leads(r: Recorder, ls: seq<Label>, q: Recorder)
    decreases |ls|
  {
    if ls == [] then q == r else Enabled(r, ls[0]) && Leads(Step(r, ls[0]), ls[1..], q)
  }

  ghost predicate Reaches(r: Recorder, q: Recorder) { exists ls :: Leads(r, ls, q) }

  lemma ReachesFirst(r: Recorder, l: Label, q: Recorder)
    requires Enabled(r, l) && Reaches(Step(r, l), q)
    ensures Reaches(r, q)
  {
    var ls :| Leads(Step(r, l), ls, q);
    assert ([l] + ls)[1..] == ls;
    assert Leads(r, [l] + ls, q);
  }

  lemma ReachesHere(r: Recorder)
    ensures Reaches(r, r)
  {
    assert Leads(r, [], r);
  }

  lemma {:induction false} ReachesThrough(r: Recorder, m: Recorder, q: Recorder, ls: seq<Label>)
    requires Leads(r, ls, m) && Reaches(m, q)
    ensures Reaches(r, q)
    decreases |ls|
  {
    if ls != [] {
      ReachesThrough(Step(r, ls[0]), m, q, ls[1..]);
      ReachesFirst(r, ls[0], q);
    }
  }

  lemma ReachesBoth(r: Recorder, m: Recorder, q: Recorder)
    requires Reaches(r, m) && Reaches(m, q)
    ensures Reaches(r, q)
  {
    var ls :| Leads(r, ls, m);
    ReachesThrough(r, m, q, ls);
  }

  // ---- What goes on by itself -----------------------------------------------------------------------

  ghost predicate Uncalled(ls: seq<Label>) { forall i :: 0 <= i < |ls| ==> !ls[i].Call? }

  /** r can come to q without any further call from outside or from an observer. */
  ghost predicate Unfolds(r: Recorder, q: Recorder) { exists ls :: Uncalled(ls) && Leads(r, ls, q) }

  lemma UnfoldsFirst(r: Recorder, l: Label, q: Recorder)
    requires Enabled(r, l) && !l.Call? && Unfolds(Step(r, l), q)
    ensures Unfolds(r, q)
  {
    var ls :| Uncalled(ls) && Leads(Step(r, l), ls, q);
    assert ([l] + ls)[1..] == ls;
    assert Leads(r, [l] + ls, q) && Uncalled([l] + ls);
  }

  lemma UnfoldsHere(r: Recorder)
    ensures Unfolds(r, r)
  {
    assert Leads(r, [], r) && Uncalled([]);
  }

  lemma UnfoldsReaches(r: Recorder, q: Recorder)
    requires Unfolds(r, q)
    ensures Reaches(r, q)
  {
  }

  const SMOOTH: Choice := Choice(true, Granted, true, true, true, true)

  ghost function Started(r: Recorder, below: seq<Point>): Recorder {
    r.(mode := Recording, session := Some(r.request + 1), final := false, discard := false, request := r.request + 1,
       stack := below,
       dropped := r.dropped + (if r.session.Some? then {r.session.value} else {}))
  }

  /** A start that meets no obstacle begins a session, whatever went on inside its first signals. */
  lemma {:induction false} StartRuns(r: Recorder, below: seq<Point>, left: nat)
    requires r.stack == below + [Point(StartPrelude(left), true)]
    ensures Unfolds(r, Started(r, below))
    decreases left
  {
    var q := Step(r, Return(SMOOTH));
    assert r.stack[..|r.stack| - 1] == below;
    if left > 0 {
      StartRuns(q, below, left - 1);
    } else {
      StartingRuns(q, below);
    }
    UnfoldsFirst(r, Return(SMOOTH), Started(r, below));
  }

  lemma StartingRuns(q: Recorder, below: seq<Point>)
    requires |q.stack| == |below| + 1 && q.stack[..|below|] == below && q.mode == Starting
    requires q.stack[|below|].frame == StartStarting(q.request)
    ensures Unfolds(q, q.(mode := Recording, session := Some(q.request), final := false, stack := below,
                          dropped := q.dropped + (if q.session.Some? then {q.session.value} else {})))
  {
    var a := Step(q, Return(SMOOTH));
    assert a.stack == below + [Point(BeginSource, false)];
    SourceRuns(a, below);
    hide Step, Leads;
    UnfoldsFirst(q, Return(SMOOTH), a.(mode := Recording, stack := below));
  }

  lemma SourceRuns(a: Recorder, below: seq<Point>)
    requires a.stack == below + [Point(BeginSource, false)] && a.session.Some? && a.mode == Starting
    ensures Unfolds(a, a.(mode := Recording, stack := below))
  {
    var b := Step(a, Return(SMOOTH));
    assert a.stack[..|a.stack| - 1] == below;
    assert b.stack == below + [Point(Tail, true)] && b.stack[..|b.stack| - 1] == below;
    var c := Step(b, Return(SMOOTH));
    UnfoldsHere(c);
    hide Step, Leads;
    UnfoldsFirst(b, Return(SMOOTH), c);
    UnfoldsFirst(a, Return(SMOOTH), c);
  }

  /** The recorder after session s has ended and its observers are done. */
  ghost function Closed(r: Recorder, saved: bool): Recorder
    requires r.session.Some?
  {
    r.(mode := Idle, session := None, ready := if saved then r.ready + [r.session.value] else r.ready)
  }

  lemma LocationReturns(a: Recorder, session: nat, saved: bool)
    requires a.stack == [Point(CompleteLocation(session, saved), true)] && a.mode == Stopping
    ensures Step(a, Return(SMOOTH)) == a.(mode := Idle, stack := [Point(CompleteIdle(session, saved), true)])
  {
  }

  lemma IdleReturns(b: Recorder, session: nat, saved: bool)
    requires b.stack == [Point(CompleteIdle(session, saved), true)]
    ensures Step(b, Return(SMOOTH))
            == b.(stack := [Point(Tail, true)], ready := if saved then b.ready + [session] else b.ready)
  {
  }

  lemma TailReturns(c: Recorder)
    requires c.stack == [Point(Tail, true)]
    ensures Step(c, Return(SMOOTH)) == c.(stack := [])
  {
  }

  lemma CompleteEnds(r: Recorder, saved: bool)
    requires r.stack == [] && r.session.Some? && r.mode == Stopping
    ensures Unfolds(Complete(r, saved), Closed(r, saved))
  {
    hide Step, Leads, Unfolds, Resumed;
    var s := r.session.value;
    var a := Complete(r, saved);
    assert a.stack == [Point(CompleteLocation(s, saved), true)];
    LocationReturns(a, s, saved);
    var b := Step(a, Return(SMOOTH));
    IdleReturns(b, s, saved);
    var c := Step(b, Return(SMOOTH));
    TailReturns(c);
    var d := Step(c, Return(SMOOTH));
    assert d == Closed(r, saved);
    UnfoldsHere(d);
    UnfoldsFirst(c, Return(SMOOTH), d);
    UnfoldsFirst(b, Return(SMOOTH), d);
    UnfoldsFirst(a, Return(SMOOTH), d);
  }

  lemma FinalEnds(r: Recorder)
    requires r.stack == [] && r.session.Some? && r.mode == Stopping && r.final
    ensures Unfolds(r, Closed(r, !r.discard))
  {
    CompleteEnds(r, !r.discard);
    assert Step(r, Encoded(true)) == Complete(r, !r.discard);
    hide Step, Leads, Unfolds, Complete;
    UnfoldsFirst(r, Encoded(true), Closed(r, !r.discard));
  }

  lemma TimerBegins(r: Recorder)
    requires r.stack == [] && r.session.Some? && r.mode == Stopping && r.request in r.timers
    ensures Step(r, Timer(r.request)) == r.(timers := r.timers - multiset{r.request}, stack := [Point(Finish, true)])
  {
  }

  lemma FinishReturns(a: Recorder)
    requires a.stack == [Point(Finish, true)] && a.session.Some?
    ensures var p := a.(stack := []);
            Step(a, Return(SMOOTH)) == if a.discard then Complete(p, false) else p.(final := true)
  {
    assert a.stack[..|a.stack| - 1] == [];
  }

  ghost predicate Rests(q: Recorder) { q.mode == Idle && q.session.None? && q.stack == [] }

  lemma StoppingRuns(r: Recorder)
    requires r.stack == [] && r.session.Some? && r.mode == Stopping && (r.request in r.timers || r.final)
    ensures exists q :: Unfolds(r, q) && Rests(q)
                        && q.ready == if r.discard then r.ready else r.ready + [r.session.value]
  {
    hide Step, Leads, Unfolds, Resumed, Complete;
    if r.final {
      FinalEnds(r);
    } else {
      TimerBegins(r);
      var a := Step(r, Timer(r.request));
      FinishReturns(a);
      var b := Step(a, Return(SMOOTH));
      var p := a.(stack := []);
      if r.discard { CompleteEnds(p, false); } else { FinalEnds(b); }
      var q := if r.discard then Closed(p, false) else Closed(b, true);
      UnfoldsFirst(a, Return(SMOOTH), q);
      UnfoldsFirst(r, Timer(r.request), q);
    }
  }

  /** A stopping session can always end: what is pending leads by itself to Idle, and announces the session
      as ready unless it was given up. */
  lemma StoppingEnds(r: Recorder)
    requires Inv(r) && r.stack == [] && r.mode == Stopping
    ensures r.session.Some?
    ensures exists q :: Unfolds(r, q) && Rests(q)
                        && q.ready == if r.session.value in r.givenUp then r.ready else r.ready + [r.session.value]
  {
    hide Unfolds, Rests;
    StoppingRuns(r);
  }

  /** The result of the final encoding decides whether the session is announced. */
  lemma EncodingDecides(r: Recorder, success: bool)
    requires Inv(r) && r.stack == [] && r.session.Some? && r.final
    ensures Enabled(r, Encoded(success))
    ensures exists q :: Unfolds(Step(r, Encoded(success)), q) && Rests(q)
                        && q.ready == if success && r.session.value !in r.givenUp then r.ready + [r.session.value]
                                      else r.ready
  {
    var saved := success && !r.discard;
    CompleteEnds(r, saved);
    assert Step(r, Encoded(success)) == Complete(r, saved) && Rests(Closed(r, saved));
    hide Step, Unfolds, Complete;
  }

  /** A timer or an answer of an earlier request is ignored. */
  lemma StaleIgnored(r: Recorder, l: Label)
    requires Inv(r) && Enabled(r, l) && ((l.Timer? && l.due != r.request) || (l.Answer? && l.asked != r.request))
    ensures Step(r, l) == r.(timers := Step(r, l).timers, asks := Step(r, l).asks)
    ensures Step(r, l).timers == (if l.Timer? then r.timers - multiset{l.due} else r.timers)
  {
  }

  lemma StartCalled(r: Recorder)
    requires r.mode == Idle && r.stack == []
    ensures Enabled(r, Call(Start)) && Step(r, Call(Start)) == r.(stack := [Point(StartPrelude(2), true)])
  {
  }

  lemma StopCalled(r: Recorder)
    requires (r.mode == Recording || r.mode == Paused) && r.session.Some? && r.stack == []
    ensures Enabled(r, Call(Stop)) && Enabled(r, Call(Cancel))
    ensures Step(r, Call(Stop)) == r.(mode := Stopping, stack := [Point(StopSet, true)])
    ensures Step(r, Call(Cancel)) == GiveUp(r).(mode := Stopping, stack := [Point(StopSet, true)])
  {
  }

  lemma StopReturns(r: Recorder)
    requires r.stack == [Point(StopSet, true)] && r.session.Some?
    ensures Step(r, Return(SMOOTH)) == r.(stack := [], timers := r.timers + multiset{r.request})
  {
    assert r.stack[..|r.stack| - 1] == [];
  }

  lemma StopSetEnds(r: Recorder)
    requires r.stack == [Point(StopSet, true)] && r.session.Some? && r.mode == Stopping
    ensures exists q :: Unfolds(r, q) && Rests(q)
                        && q.ready == if r.discard then r.ready else r.ready + [r.session.value]
  {
    hide Step, Leads, Unfolds, Resumed, Called;
    StopReturns(r);
    var waiting := Step(r, Return(SMOOTH));
    StoppingRuns(waiting);
    var q :| Unfolds(waiting, q) && Rests(q)
             && q.ready == if waiting.discard then waiting.ready else waiting.ready + [waiting.session.value];
    UnfoldsFirst(r, Return(SMOOTH), q);
  }

  lemma StopRuns(r: Recorder)
    requires (r.mode == Recording || r.mode == Paused) && r.session.Some? && r.stack == [] && !r.discard
    ensures Enabled(r, Call(Stop))
    ensures exists q :: Unfolds(Step(r, Call(Stop)), q) && Rests(q) && q.ready == r.ready + [r.session.value]
  {
    hide Step, Unfolds;
    StopCalled(r);
    StopSetEnds(Step(r, Call(Stop)));
  }

  /** Stopping a recording, paused or not, goes on by itself to Idle and announces it. */
  lemma StopAnnounces(r: Recorder)
    requires Inv(r) && (r.mode == Recording || r.mode == Paused) && r.stack == []
    ensures r.session.Some? && Enabled(r, Call(Stop))
    ensures exists q :: Unfolds(Step(r, Call(Stop)), q) && Rests(q) && q.ready == r.ready + [r.session.value]
  {
    hide Step, Unfolds, Rests;
    StopRuns(r);
  }

  lemma CancelCalled(r: Recorder)
    requires r.stack == [] && (r.mode == Starting || r.mode == Stopping)
    ensures Enabled(r, Call(Stop)) && Enabled(r, Call(Cancel))
    ensures r.session.None? ==>
              Step(r, Call(Cancel)) == GiveUp(r).(request := r.request + 1, mode := Idle, stack := [Point(Tail, true)])
    ensures r.session.None? && r.mode == Starting ==> Step(r, Call(Stop)) == Step(r, Call(Cancel))
    ensures r.session.Some? && r.mode == Stopping ==>
              Step(r, Call(Cancel)) == GiveUp(r).(timers := r.timers + multiset{r.request})
  {
  }

  lemma TailRests(r: Recorder)
    requires r.stack == [Point(Tail, true)] && r.mode == Idle && r.session.None?
    ensures exists q :: Unfolds(r, q) && Rests(q) && q.ready == r.ready
  {
    hide Step, Unfolds;
    TailReturns(r);
    var q := Step(r, Return(SMOOTH));
    UnfoldsHere(q);
    UnfoldsFirst(r, Return(SMOOTH), q);
  }

  /** Canceling goes on by itself to Idle and announces nothing, from every state but Idle; so does stopping
      before there is a session. */
  lemma CancelEnds(r: Recorder)
    requires Inv(r) && r.stack == [] && r.mode != Idle
    ensures Enabled(r, Call(Cancel)) && Enabled(r, Call(Stop))
    ensures exists q :: Unfolds(Step(r, Call(Cancel)), q) && Rests(q) && q.ready == r.ready
    ensures r.session.None? ==> exists q :: Unfolds(Step(r, Call(Stop)), q) && Rests(q) && q.ready == r.ready
  {
    hide Step, Unfolds;
    if r.mode == Recording || r.mode == Paused {
      StopCalled(r);
      StopSetEnds(Step(r, Call(Cancel)));
    } else {
      CancelCalled(r);
      if r.session.None? {
        TailRests(Step(r, Call(Cancel)));
      } else {
        StoppingRuns(Step(r, Call(Cancel)));
      }
    }
  }

  // ---- Starting, pausing, resuming ------------------------------------------------------------------

  /** A start that meets no obstacle goes on by itself to Recording, with a new session. */
  lemma StartRecords(r: Recorder)
    requires Rests(r)
    ensures Enabled(r, Call(Start))
    ensures Unfolds(Step(r, Call(Start)), r.(mode := Recording, session := Some(r.request + 1),
            request := r.request + 1,
                                             final := false, discard := false))
  {
    hide Step, Leads, Unfolds, Resumed, Called;
    StartCalled(r);
    var inner := Step(r, Call(Start));
    assert inner.stack == [] + [Point(StartPrelude(2), true)];
    StartRuns(inner, [], 2);
    assert Started(inner, []) == r.(mode := Recording, session := Some(r.request + 1), request := r.request + 1,
                                    final := false, discard := false);
  }

  lemma PreludeReturns(r: Recorder, left: nat, c: Choice)
    requires r.stack == [Point(StartPrelude(left), true)] && c.folderOk
    ensures left > 0 ==> Step(r, Return(c)) == r.(stack := [Point(StartPrelude(left - 1), true)])
    ensures left == 0 ==> Step(r, Return(c)) == r.(discard := false, request := r.request + 1, mode := Starting,
                                                   stack := [Point(StartStarting(r.request + 1), r.mode != Starting)])
  {
    assert r.stack[..|r.stack| - 1] == [];
  }

  ghost function Asking(r: Recorder): Recorder {
    r.(mode := Starting, discard := false, request := r.request + 1, asks := r.asks + {r.request + 1}, stack := [])
  }

  lemma {:induction false} PreludeAsks(r: Recorder, left: nat, ask: Choice)
    requires r.stack == [Point(StartPrelude(left), true)] && ask.folderOk && ask.permission == Undetermined
    ensures Unfolds(r, Asking(r))
    decreases left
  {
    hide Step, Unfolds;
    PreludeReturns(r, left, ask);
    var q := Step(r, Return(ask));
    if left > 0 {
      PreludeAsks(q, left - 1, ask);
    } else {
      AskingWaits(q, ask);
      UnfoldsHere(Asking(r));
      UnfoldsFirst(q, Return(ask), Asking(r));
    }
    UnfoldsFirst(r, Return(ask), Asking(r));
  }

  lemma AskingWaits(q: Recorder, ask: Choice)
    requires |q.stack| == 1 && q.stack[0].frame == StartStarting(q.request) && q.mode == Starting
    requires ask.permission == Undetermined
    ensures Step(q, Return(ask)) == q.(stack := [], asks := q.asks + {q.request})
  {
    assert q.stack[..|q.stack| - 1] == [];
  }

  /** Where the permission is not known yet, a start goes on by itself to asking the user. */
  lemma StartAsks(r: Recorder)
    requires Rests(r)
    ensures Enabled(r, Call(Start)) && Unfolds(Step(r, Call(Start)), Asking(r))
    ensures Asking(r).mode == Starting && Asking(r).request in Asking(r).asks && Asking(r).stack == []
  {
    hide Step, Unfolds;
    StartCalled(r);
    PreludeAsks(Step(r, Call(Start)), 2, SMOOTH.(permission := Undetermined));
  }

  /** While the user is asked, a start goes on to Recording if the answer is yes and to Idle if it is no. */
  lemma AnswerDecides(r: Recorder, c: Choice)
    requires r.mode == Starting && r.session.None? && r.stack == [] && r.request in r.asks
    ensures Enabled(r, Answer(r.request, true, SMOOTH)) && Enabled(r, Answer(r.request, false, c))
    ensures Unfolds(Step(r, Answer(r.request, true, SMOOTH)),
                    r.(mode := Recording, session := Some(r.request), final := false, asks := r.asks - {r.request}))
    ensures exists q :: Unfolds(Step(r, Answer(r.request, false, c)), q) && Rests(q) && q.ready == r.ready
  {
    hide Step, Unfolds;
    AnswerYes(r);
    AnswerNo(r, c);
    SourceRuns(Step(r, Answer(r.request, true, SMOOTH)), []);
    var no := Step(r, Answer(r.request, false, c));
    FailReturns(no, c);
    var told := Step(no, Return(c));
    TailRests(told);
    var q :| Unfolds(told, q) && Rests(q) && q.ready == told.ready;
    UnfoldsFirst(no, Return(c), q);
  }

  lemma AnswerYes(r: Recorder)
    requires r.mode == Starting && r.session.None? && r.stack == [] && r.request in r.asks
    ensures Step(r, Answer(r.request, true, SMOOTH)) == r.(session := Some(r.request), final := false,
                                                           asks := r.asks - {r.request},
                                                           stack := [] + [Point(BeginSource, false)])
  {
  }

  lemma AnswerNo(r: Recorder, c: Choice)
    requires r.mode == Starting && r.session.None? && r.stack == [] && r.request in r.asks
    ensures Step(r, Answer(r.request, false, c)) == GiveUp(r).(mode := Idle, asks := r.asks - {r.request},
                                                               stack := [Point(FailSet(false), true)])
  {
  }

  lemma FailReturns(r: Recorder, c: Choice)
    requires r.stack == [Point(FailSet(false), true)]
    ensures Step(r, Return(c)) == r.(stack := [Point(Tail, true)])
  {
    assert r.stack[..|r.stack| - 1] == [];
  }

  lemma PauseSetReturns(r: Recorder, left: nat)
    requires |r.stack| == 1 && r.stack[0].frame == PauseSet(left) && r.session.Some?
    ensures Step(r, Return(SMOOTH))
            == r.(stack := [if left > 0 then Point(PauseSet(left - 1), true) else Point(Tail, true)])
  {
    assert r.stack[..0] == [];
  }

  lemma {:induction false} PauseSetRuns(r: Recorder, left: nat)
    requires |r.stack| == 1 && r.stack[0].frame == PauseSet(left) && r.session.Some?
    ensures Unfolds(r, r.(stack := []))
    decreases left
  {
    hide Step, Unfolds;
    PauseSetReturns(r, left);
    var q := Step(r, Return(SMOOTH));
    if left > 0 {
      PauseSetRuns(q, left - 1);
    } else {
      TailReturns(q);
      UnfoldsHere(Step(q, Return(SMOOTH)));
      UnfoldsFirst(q, Return(SMOOTH), r.(stack := []));
    }
    UnfoldsFirst(r, Return(SMOOTH), r.(stack := []));
  }

  lemma PauseCalled(r: Recorder)
    requires r.session.Some? && r.stack == []
    ensures Enabled(r, Call(Pause)) && Enabled(r, Call(Resume))
    ensures r.mode == Recording ==> Step(r, Call(Pause)) == r.(stack := [Point(PauseSuspend, false)])
    ensures r.mode == Paused ==> Step(r, Call(Resume)) == r.(stack := [Point(ResumeSource, false)])
  {
  }

  lemma SuspendReturns(r: Recorder)
    requires r.session.Some? && r.mode != Stopping
    ensures r.stack == [Point(PauseSuspend, false)] ==>
              Step(r, Return(SMOOTH)) == r.(mode := Paused, stack := [Point(PauseSet(1), r.mode != Paused)])
    ensures r.stack == [Point(ResumeSource, false)] ==>
              Step(r, Return(SMOOTH)) == r.(mode := Recording, stack := [Point(Tail, r.mode != Recording)])
  {
    if r.stack != [] { assert |r.stack| == 1 ==> r.stack[..0] == []; }
  }

  /** A recording can be paused, and a paused one resumed; nothing but the state changes. */
  lemma PauseAndResume(r: Recorder)
    requires r.session.Some? && r.stack == [] && (r.mode == Recording || r.mode == Paused)
    ensures Enabled(r, Call(Pause)) && Enabled(r, Call(Resume))
    ensures Unfolds(Step(r, Call(if r.mode == Recording then Pause else Resume)),
                    r.(mode := if r.mode == Recording then Paused else Recording))
  {
    hide Step, Unfolds;
    PauseCalled(r);
    var called := Step(r, Call(if r.mode == Recording then Pause else Resume));
    SuspendReturns(called);
    var q := Step(called, Return(SMOOTH));
    if r.mode == Recording {
      PauseSetRuns(q, 1);
      UnfoldsFirst(called, Return(SMOOTH), r.(mode := Paused));
    } else {
      TailOnly(q);
      var done := Step(q, Return(SMOOTH));
      UnfoldsHere(done);
      UnfoldsFirst(q, Return(SMOOTH), done);
      UnfoldsFirst(called, Return(SMOOTH), done);
    }
  }

  lemma TailOnly(c: Recorder)
    requires |c.stack| == 1 && c.stack[0].frame == Tail
    ensures Step(c, Return(SMOOTH)) == c.(stack := [])
  {
    assert c.stack[..0] == [];
  }

  /** A start that meets no obstacle and is then stopped, paused or not, is announced as ready. */
  lemma UndisturbedIsReady(r: Recorder, pause: bool)
    requires Rests(r)
    ensures exists q :: Reaches(r, q) && Rests(q) && q.ready == r.ready + [r.request + 1]
  {
    hide Step, Leads, Reaches, Unfolds, Resumed, Called;
    StartRecords(r);
    var recording := r.(mode := Recording, session := Some(r.request + 1), request := r.request + 1, final := false,
                        discard := false);
    var stopped := if pause then recording.(mode := Paused) else recording;
    StopRuns(stopped);
    var q :| Unfolds(Step(stopped, Call(Stop)), q) && Rests(q) && q.ready == r.ready + [r.request + 1];
    UnfoldsReaches(Step(stopped, Call(Stop)), q);
    ReachesFirst(stopped, Call(Stop), q);
    if pause {
      PauseAndResume(recording);
      UnfoldsReaches(Step(recording, Call(Pause)), stopped);
      ReachesBoth(Step(recording, Call(Pause)), stopped, q);
      ReachesFirst(recording, Call(Pause), q);
    }
    UnfoldsReaches(Step(r, Call(Start)), recording);
    ReachesBoth(Step(r, Call(Start)), recording, q);
    ReachesFirst(r, Call(Start), q);
  }

  /** From every state in which an observer could start inside the first signals of a start, doing so
      can destroy a session that is recording. */
  lemma NestedStartDropsSession(r: Recorder)
    requires Inv(r) && Enabled(r, Call(Start)) && Top(r).Some? && Top(r).value.frame.StartPrelude?
    ensures exists q :: Reaches(Step(r, Call(Start)), q) && q.dropped != {}
  {
    TopOk(r);
    var inner := Step(r, Call(Start));
    StartRuns(inner, r.stack, 2);
    var first := Started(inner, r.stack);
    var below := r.stack[..|r.stack| - 1];
    assert first.stack == below + [Point(StartPrelude(Top(r).value.frame.left), true)];
    StartRuns(first, below, Top(r).value.frame.left);
    var second := Started(first, below);
    UnfoldsReaches(inner, first);
    UnfoldsReaches(first, second);
    ReachesBoth(inner, first, second);
    assert first.session.value in second.dropped;
  }

  /** From every state in which an observer could cancel inside the signal that ends a session, doing
      so can leave the recorder Idle with a session. */
  lemma LateCancelBreaksIdle(r: Recorder)
    requires Inv(r) && Enabled(r, Call(Cancel)) && Top(r).Some? && Top(r).value.frame.CompleteLocation?
    ensures exists q :: Reaches(Step(r, Call(Cancel)), q) && q.mode == Idle && q.session.Some?
  {
    TopOk(r);
    LateCanceled(r);
    hide Step, Inv, Leads, Unfolds, Started;
    var canceled := Step(r, Call(Cancel));
    StartCalledAbove(canceled);
    var inner := Step(canceled, Call(Start));
    StartRuns(inner, canceled.stack, 2);
    var first := Started(inner, canceled.stack);
    var q := LateReturns(r, canceled, inner, first);
    UnfoldsReaches(inner, first);
    ReachesBoth(inner, first, q);
    ReachesFirst(canceled, Call(Start), q);
  }

  lemma LateCanceled(r: Recorder)
    requires r.session.None? && r.mode == Stopping && Enabled(r, Call(Cancel))
    ensures Step(r, Call(Cancel)) == r.(discard := true, request := r.request + 1, mode := Idle,
                                        stack := r.stack + [Point(Tail, true)])
  {
  }

  lemma StartCalledAbove(r: Recorder)
    requires r.mode == Idle && Top(r).Some? && Top(r).value.observed
    ensures Enabled(r, Call(Start)) && Step(r, Call(Start)) == r.(stack := r.stack + [Point(StartPrelude(2), true)])
  {
  }

  /** The call that waits at the end of the old session then makes the recorder Idle. */
  lemma LateReturns(r: Recorder, canceled: Recorder, inner: Recorder, first: Recorder) returns (q: Recorder)
    requires Top(r).Some? && Top(r).value.frame.CompleteLocation? && canceled.stack == r.stack + [Point(Tail, true)]
    requires first == Started(inner, canceled.stack)
    ensures Reaches(first, q) && q.mode == Idle && q.session.Some?
  {
    var popped := Step(first, Return(SMOOTH));
    assert popped == first.(stack := r.stack);
    q := Step(popped, Return(SMOOTH));
    ReachesHere(q);
    ReachesFirst(popped, Return(SMOOTH), q);
    ReachesFirst(first, Return(SMOOTH), q);
  }

  // ---- The recorder -----------------------------------------------------------------------------

  /** The recorder's fields, and the calls that are waiting. A method runs up to the first place where
      it waits; Continue takes the call on top further. */
  class VoiceRecorder {
    var mode: Mode
    var session: Option<nat>
    var final: bool
    var discard: bool
    var request: nat
    var stack: seq<Point>
    var timers: multiset<nat>
    var asks: set<nat>
    ghost var ready: seq<nat>
    ghost var givenUp: set<nat>
    ghost var dropped: set<nat>
    ghost var fault: bool

    ghost function Contents(): Recorder
      reads this
    {
      Recorder(mode, session, final, discard, request, stack, timers, asks, ready, givenUp, dropped, fault)
    }

    ghost predicate Valid()
      reads this
    {
      Inv(Contents())
    }

    constructor ()
      ensures Valid() && Contents() == Fresh()
    {
      mode, session, final, discard, request := Idle, None, false, false, 0;
      stack, timers, asks := [], multiset{}, {};
      ready, givenUp, dropped, fault := [], {}, {}, false;
    }

    method Wait(f: Frame, observed: bool)
      modifies this
      ensures Contents() == Push(old(Contents()), f, observed)
    {
      stack := stack + [Point(f, observed)];
    }

    method SetState(m: Mode, f: Frame)
      modifies this
      ensures Contents() == Enter(old(Contents()), m, f)
    {
      var changed := mode != m;
      mode := m;
      Wait(f, changed);
    }

    method Discard()
      modifies this
      ensures Contents() == GiveUp(old(Contents()))
    {
      discard := true;
      if session.Some? { givenUp := givenUp + {session.value}; }
      else if mode == Starting { givenUp := givenUp + {request}; }
    }

    method ScheduleFinish()
      modifies this
      ensures Contents() == Schedule(old(Contents()))
    {
      timers := timers + multiset{request};
    }

    method Fail()
      modifies this
      ensures Contents() == Failed(old(Contents()))
    {
      Discard();
      if session.Some? { SetState(Stopping, FailSet(true)); } else { SetState(Idle, FailSet(false)); }
    }

    method Start()
      requires Valid() && Enabled(Contents(), Call(Method.Start)) && Polite(Contents(), Call(Method.Start))
      modifies this
      ensures Valid() && Contents() == Step(old(Contents()), Call(Method.Start))
    {
      CallKeeps(Contents(), Method.Start);
      if mode != Idle { return; }
      Wait(StartPrelude(2), true);
    }

    method Pause()
      requires Valid() && Enabled(Contents(), Call(Method.Pause))
      modifies this
      ensures Valid() && Contents() == Step(old(Contents()), Call(Method.Pause))
    {
      CallKeeps(Contents(), Method.Pause);
      if mode == Recording && session.Some? { Wait(PauseSuspend, false); }
    }

    method Resume()
      requires Valid() && Enabled(Contents(), Call(Method.Resume))
      modifies this
      ensures Valid() && Contents() == Step(old(Contents()), Call(Method.Resume))
    {
      CallKeeps(Contents(), Method.Resume);
      if mode == Paused && session.Some? { Wait(ResumeSource, false); }
    }

    method Stop()
      requires Valid() && Enabled(Contents(), Call(Method.Stop))
      modifies this
      ensures Valid() && Contents() == Step(old(Contents()), Call(Method.Stop))
    {
      CallKeeps(Contents(), Method.Stop);
      StopNow();
    }

    method StopNow()
      modifies this
      ensures Contents() == CallStop(old(Contents()))
      decreases 1
    {
      if mode == Idle || mode == Stopping { return; }
      if session.None? {
        CancelNow();
        return;
      }
      SetState(Stopping, StopSet);
    }

    method Cancel()
      requires Valid() && Enabled(Contents(), Call(Method.Cancel)) && Polite(Contents(), Call(Method.Cancel))
      modifies this
      ensures Valid() && Contents() == Step(old(Contents()), Call(Method.Cancel))
    {
      CallKeeps(Contents(), Method.Cancel);
      CancelNow();
    }

    method CancelNow()
      modifies this
      ensures Contents() == CallCancel(old(Contents()))
      decreases if session.Some? then 2 else 0
    {
      if mode == Idle { return; }
      Discard();
      if session.Some? {
        if mode == Stopping { ScheduleFinish(); } else { StopNow(); }
      } else {
        request := request + 1;
        SetState(Idle, Tail);
      }
    }

    method BeginRecording(c: Choice)
      modifies this
      ensures Contents() == Begin(old(Contents()), c)
    {
      if !c.deviceOk {
        Fail();
        return;
      }
      if session.Some? { dropped := dropped + {session.value}; }
      session, final := Some(request), false;
      if !c.setupOk {
        Fail();
        return;
      }
      Wait(BeginSource, false);
    }

    method CompleteRecording(saved: bool)
      requires session.Some?
      modifies this
      ensures Contents() == Complete(old(Contents()), saved)
    {
      var done := session.value;
      session := None;
      Wait(CompleteLocation(done, saved), true);
    }

    /** The observers of the top signal are done, and its call goes on to where it waits next. */
    method Continue(c: Choice)
      requires Valid() && stack != []
      modifies this
      ensures Valid() && Contents() == Step(old(Contents()), Return(c))
    {
      ghost var r := Contents();
      StepKeeps(r, Return(c));
      TopOk(r);
      var f := stack[|stack| - 1].frame;
      stack := stack[..|stack| - 1];
      if f.StartPrelude? || f.StartStarting? { GoStart(f, c); } else { GoOn(f, c); }
    }

    method GoStart(f: Frame, c: Choice)
      requires f.StartPrelude? || f.StartStarting?
      modifies this
      ensures Contents() == Resumed(old(Contents()), f, c)
    {
      hide Begin, Failed;
      match f
      case StartPrelude(left) =>
        if left > 0 {
          Wait(StartPrelude(left - 1), true);
        } else {
          discard := false;
          if !c.folderOk {
            Fail();
            return;
          }
          request := request + 1;
          SetState(Starting, StartStarting(request));
        }
      case StartStarting(mine) =>
        if mode != Starting || mine != request { return; }
        match c.permission {
          case Granted => BeginRecording(c);
          case Denied => Fail();
          case Undetermined => asks := asks + {mine};
        }
    }

    method GoOn(f: Frame, c: Choice)
      requires !f.StartPrelude? && !f.StartStarting? && (NeedsSession(f) ==> session.Some?)
      modifies this
      ensures Contents() == Resumed(old(Contents()), f, c)
    {
      hide Begin, Failed, Complete;
      match f
      case BeginSource =>
        if mode == Stopping { return; }
        if !c.sourceOk { Fail(); } else { SetState(Recording, Tail); }
      case PauseSuspend => if mode != Stopping { SetState(Paused, PauseSet(1)); }
      case PauseSet(left) => if left > 0 { Wait(PauseSet(left - 1), true); } else { Wait(Tail, true); }
      case ResumeSource => if mode != Stopping { SetState(Recording, Tail); }
      case StopSet => ScheduleFinish();
      case FailSet(live) =>
        if live { ScheduleFinish(); }
        Wait(Tail, true);
      case Finish =>
        if !discard {
          final := true;
          if c.encoderStarts { return; }
        }
        CompleteRecording(false);
      case CompleteLocation(done, saved) => SetState(Idle, CompleteIdle(done, saved));
      case CompleteIdle(done, saved) =>
        if saved { ready := ready + [done]; }
        Wait(Tail, true);
      case Tail =>
    }

    /** The queued finishRecording. */
    method OnTimer(due: nat)
      requires Valid() && Enabled(Contents(), Timer(due))
      modifies this
      ensures Valid() && Contents() == Step(old(Contents()), Timer(due))
    {
      EventKeeps(Contents(), Timer(due));
      timers := timers - multiset{due};
      if due != request || session.None? || mode != Stopping { return; }
      Wait(Finish, true);
    }

    method OnPermission(asked: nat, granted: bool, c: Choice)
      requires Valid() && Enabled(Contents(), Answer(asked, granted, c))
      modifies this
      ensures Valid() && Contents() == Step(old(Contents()), Answer(asked, granted, c))
    {
      EventKeeps(Contents(), Answer(asked, granted, c));
      asks := asks - {asked};
      if asked != request || mode != Starting { return; }
      if granted { BeginRecording(c); } else { Fail(); }
    }

    method OnEncoded(success: bool)
      requires Valid() && Enabled(Contents(), Encoded(success))
      modifies this
      ensures Valid() && Contents() == Step(old(Contents()), Encoded(success))
    {
      EventKeeps(Contents(), Encoded(success));
      if final { CompleteRecording(success && !discard); }
      else if mode == Paused { Wait(Tail, true); }
    }

    method OnSourceState()
      requires Valid() && Enabled(Contents(), SourceError)
      modifies this
      ensures Valid() && Contents() == Step(old(Contents()), SourceError)
    {
      EventKeeps(Contents(), SourceError);
      if mode != Stopping && session.Some? { Fail(); }
    }
  }
}
