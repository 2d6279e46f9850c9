/** The single-flight send queue of the message repository: its state, what each event does to it,
    and what holds over every run of events. */
module SendQueue {
  import opened Options

  type Upload = nat   // attachment id of an upload task
  type Token = nat    // the cancellation object an entry was queued with

  /** number counts the entries in enqueue order; it also stands for the entry's promise. */
  datatype Job = Job(number: nat, upload: Option<Upload>, token: Option<Token>)

  datatype State = State(
    queue: seq<Job>,
    inFlight: Option<Job>,      // the entry m_processing stands for
    tasks: set<Upload>,         // the keys of m_uploadTasks
    canceled: set<Token>,
    connected: bool,
    wakeUps: nat,               // queued calls of nextProcess after failed starts
    next: nat,                  // number of the next entry
    started: seq<Job>,
    finished: seq<nat>)         // promises finished, in order

  const EMPTY := State([], None, {}, {}, false, 0, 0, [], [])

  predicate Skips(s: State) {
    s.queue != [] && s.queue[0].token.Some? && s.queue[0].token.value in s.canceled
  }

  function Without(tasks: set<Upload>, upload: Option<Upload>): set<Upload> {
    if upload.Some? then tasks - {upload.value} else tasks
  }

  /** Dropping a canceled head: its task goes and its promise finishes, but it never starts. */
  function Drop(s: State): State
    requires s.queue != []
  {
    var job := s.queue[0];
    s.(queue := s.queue[1..], tasks := Without(s.tasks, job.upload), finished := s.finished + [job.number])
  }

  function Drained(s: State): State
    decreases |s.queue|
  {
    if Skips(s) then Drained(Drop(s)) else s
  }

  /** Starting the head; starts says whether start() returned a future or threw. */
  function Start(s: State, starts: bool): State
    requires s.queue != []
  {
    var job := s.queue[0];
    var taken := s.(queue := s.queue[1..], started := s.started + [job]);
    if starts then taken.(inFlight := Some(job))
    else taken.(tasks := Without(s.tasks, job.upload), finished := s.finished + [job.number], wakeUps := s.wakeUps + 1)
  }

  function Process(s: State, starts: bool): State {
    if s.inFlight.Some? || s.queue == [] then s
    else
      var d := Drained(s);
      if d.queue == [] || !d.connected then d else Start(d, starts)
  }

  datatype Event =
    | Enqueue(upload: Option<Upload>, token: Option<Token>, starts: bool)
    | Complete(starts: bool)                 // the in-flight future finishes
    | Wake(starts: bool)                     // a queued call of nextProcess
    | Connection(up: bool, starts: bool)     // connectedChanged
    | CancelToken(which: Token)              // some holder's cancel() wins

  /** sendFiles' guards: a canceled token or a known upload id is turned away before enqueue. */
  predicate Accepts(s: State, e: Event) {
    match e
    case Enqueue(upload, token, _) =>
      upload.Some? ==> token.Some? && token.value !in s.canceled && upload.value !in s.tasks
    case Complete(_) => s.inFlight.Some?
    case Wake(_) => s.wakeUps > 0
    case _ => true
  }

  function Settle(s: State): State
    requires s.inFlight.Some?
  {
    var job := s.inFlight.value;
    s.(inFlight := None, tasks := Without(s.tasks, job.upload), finished := s.finished + [job.number])
  }

  function Append(s: State, upload: Option<Upload>, token: Option<Token>): State {
    s.(queue := s.queue + [Job(s.next, upload, token)], next := s.next + 1,
       tasks := if upload.Some? then s.tasks + {upload.value} else s.tasks)
  }

  function Step(s: State, e: Event): State
    requires Accepts(s, e)
  {
    match e
    case Enqueue(upload, token, starts) => Process(Append(s, upload, token), starts)
    case Complete(starts) => Process(Settle(s), starts)
    case Wake(starts) => Process(s.(wakeUps := s.wakeUps - 1), starts)
    case Connection(up, starts) => Process(s.(connected := up), starts)
    case CancelToken(token) => s.(canceled := s.canceled + {token})
  }

  // ---- The invariant -----------------------------------------------------------------

  ghost predicate Ascending(js: seq<Job>, bound: nat) {
    && (forall i, j :: 0 <= i < j < |js| ==> js[i].number < js[j].number)
    && (forall i :: 0 <= i < |js| ==> js[i].number < bound)
  }

  /** Started entries come before queued ones, each in enqueue order. */
  ghost predicate InOrder(s: State) {
    && Ascending(s.queue, s.next) && Ascending(s.started, s.next)
    && (forall i, j :: 0 <= i < |s.started| && 0 <= j < |s.queue| ==> s.started[i].number < s.queue[j].number)
    && (s.inFlight.Some? ==> s.started != [] && s.inFlight.value == s.started[|s.started| - 1])
  }

  ghost predicate Pending(s: State, n: nat) {
    (exists i :: 0 <= i < |s.queue| && s.queue[i].number == n) || (s.inFlight.Some? && s.inFlight.value.number == n)
  }

  /** Each promise ever taken is pending or has finished exactly once. */
  ghost predicate PromisesExact(s: State) {
    && (forall i, j :: 0 <= i < j < |s.finished| ==> s.finished[i] != s.finished[j])
    && (forall n: nat :: n < s.next ==> (Pending(s, n) <==> n !in s.finished))
    && (forall i :: 0 <= i < |s.finished| ==> s.finished[i] < s.next)
  }

  ghost predicate HasTask(s: State, u: Upload) {
    || (exists i :: 0 <= i < |s.queue| && s.queue[i].upload == Some(u))
    || (s.inFlight.Some? && s.inFlight.value.upload == Some(u))
  }

  /** The upload table holds exactly the uploads queued or in flight, each under its own entry. */
  ghost predicate TasksExact(s: State) {
    && (forall u :: u in s.tasks <==> HasTask(s, u))
    && (forall i, j :: 0 <= i < j < |s.queue| && s.queue[i].upload.Some? ==> s.queue[i].upload != s.queue[j].upload)
    && (s.inFlight.Some? && s.inFlight.value.upload.Some? ==>
          forall i :: 0 <= i < |s.queue| ==> s.queue[i].upload != s.inFlight.value.upload)
  }

  ghost predicate Inv(s: State) {
    InOrder(s) && PromisesExact(s) && TasksExact(s)
  }

  // ---- Each piece of a step keeps it -----------------------------------------------------

  lemma DropKeeps(s: State)
    requires Inv(s) && s.queue != [] && s.inFlight.None?
    ensures Inv(Drop(s))
  {
    DropPromises(s);
    DropTasks(s);
  }

  lemma DropPromises(s: State)
    requires InOrder(s) && PromisesExact(s) && s.queue != [] && s.inFlight.None?
    ensures PromisesExact(Drop(s))
  {
    var t, n := Drop(s), s.queue[0].number;
    assert Pending(s, n);
    forall m: nat | m < s.next ensures Pending(t, m) <==> Pending(s, m) && m != n {
      if Pending(s, m) && m != n {
        var i :| 0 <= i < |s.queue| && s.queue[i].number == m;
        assert t.queue[i - 1].number == m;
      }
    }
  }

  lemma DropTasks(s: State)
    requires TasksExact(s) && s.queue != [] && s.inFlight.None?
    ensures TasksExact(Drop(s))
  {
    var t, job := Drop(s), s.queue[0];
    forall u ensures u in t.tasks <==> HasTask(t, u) {
      if HasTask(t, u) {
        var i :| 0 <= i < |t.queue| && t.queue[i].upload == Some(u);
        assert s.queue[i + 1].upload == Some(u);
        assert job.upload != s.queue[i + 1].upload;
      }
      if u in t.tasks {
        var i :| 0 <= i < |s.queue| && s.queue[i].upload == Some(u);
        assert t.queue[i - 1].upload == Some(u);
      }
    }
  }

  lemma {:induction false} DrainedKeeps(s: State)
    requires Inv(s) && s.inFlight.None?
    ensures Inv(Drained(s)) && Drained(s).inFlight.None? && !Skips(Drained(s))
    ensures Drained(s).canceled == s.canceled && Drained(s).started == s.started
    ensures Drained(s).next == s.next && Drained(s).connected == s.connected
    decreases |s.queue|
  {
    if Skips(s) {
      DropKeeps(s);
      DrainedKeeps(Drop(s));
    }
  }

  lemma StartPromises(s: State)
    requires InOrder(s) && PromisesExact(s) && s.queue != [] && s.inFlight.None?
    ensures PromisesExact(Start(s, true))
  {
    var t, job := Start(s, true), s.queue[0];
    forall n: nat | n < s.next ensures Pending(t, n) <==> Pending(s, n) {
      if Pending(s, n) && n != job.number {
        var i :| 0 <= i < |s.queue| && s.queue[i].number == n;
        assert t.queue[i - 1].number == n;
      }
    }
  }

  lemma StartTasks(s: State)
    requires TasksExact(s) && s.queue != [] && s.inFlight.None?
    ensures TasksExact(Start(s, true))
  {
    var t, job := Start(s, true), s.queue[0];
    forall u: Upload ensures HasTask(t, u) <==> HasTask(s, u) {
      if HasTask(s, u) && job.upload != Some(u) {
        var i :| 0 <= i < |s.queue| && s.queue[i].upload == Some(u);
        assert t.queue[i - 1].upload == Some(u);
      }
    }
  }

  lemma FailedStart(s: State)
    requires Inv(s) && s.queue != [] && s.inFlight.None?
    ensures Inv(Start(s, false))
  {
    DropPromises(s);
    DropTasks(s);
    var t, d := Start(s, false), Drop(s);
    assert forall n: nat :: Pending(t, n) <==> Pending(d, n);
    assert forall u: Upload :: HasTask(t, u) <==> HasTask(d, u);
  }

  lemma StartKeeps(s: State, starts: bool)
    requires Inv(s) && s.queue != [] && s.inFlight.None?
    ensures Inv(Start(s, starts))
  {
    if starts {
      StartPromises(s);
      StartTasks(s);
    } else {
      FailedStart(s);
    }
  }

  /** An entry taken from the queue is started only if its token is not canceled then. */
  ghost predicate StartsFairly(s: State, t: State) {
    && s.started <= t.started && s.canceled <= t.canceled
    && forall i :: |s.started| <= i < |t.started| && t.started[i].token.Some? ==>
         t.started[i].token.value !in s.canceled
  }

  /** Work is never left lying: idle and connected means that nothing is queued or a call is due. */
  predicate NeverStuck(s: State) {
    s.inFlight.Some? || s.queue == [] || !s.connected || s.wakeUps > 0
  }

  lemma ProcessKeeps(s: State, starts: bool)
    requires Inv(s)
    ensures Inv(Process(s, starts)) && StartsFairly(s, Process(s, starts)) && NeverStuck(Process(s, starts))
    ensures Process(s, starts).next == s.next
  {
    if s.inFlight.None? && s.queue != [] {
      DrainedKeeps(s);
      var d := Drained(s);
      if d.queue != [] && d.connected {
        StartKeeps(d, starts);
      }
    }
  }

  lemma SettleKeeps(s: State)
    requires Inv(s) && s.inFlight.Some?
    ensures Inv(Settle(s))
  {
    var t, job := Settle(s), s.inFlight.value;
    assert Pending(s, job.number);
    forall n: nat | n < s.next ensures Pending(t, n) <==> Pending(s, n) && n != job.number {
      if Pending(t, n) {
        var i :| 0 <= i < |t.queue| && t.queue[i].number == n;
        assert s.started[|s.started| - 1].number < s.queue[i].number;
      }
    }
    forall u: Upload ensures HasTask(t, u) <==> HasTask(s, u) && job.upload != Some(u) {
    }
  }

  lemma AppendKeeps(s: State, upload: Option<Upload>, token: Option<Token>)
    requires Inv(s) && (upload.Some? ==> upload.value !in s.tasks)
    ensures Inv(Append(s, upload, token))
  {
    hide InOrder, PromisesExact, TasksExact;
    AppendOrder(s, upload, token);
    AppendPromises(s, upload, token);
    AppendTasks(s, upload, token);
  }

  lemma AppendOrder(s: State, upload: Option<Upload>, token: Option<Token>)
    requires InOrder(s)
    ensures InOrder(Append(s, upload, token))
  {
  }

  lemma AppendPromises(s: State, upload: Option<Upload>, token: Option<Token>)
    requires PromisesExact(s)
    ensures PromisesExact(Append(s, upload, token))
  {
    var t := Append(s, upload, token);
    assert t.queue[|s.queue|] == Job(s.next, upload, token);
    forall n: nat ensures Pending(t, n) <==> Pending(s, n) || n == s.next {
      if Pending(s, n) && !(s.inFlight.Some? && s.inFlight.value.number == n) {
        var i :| 0 <= i < |s.queue| && s.queue[i].number == n;
        assert t.queue[i].number == n;
      }
    }
  }

  lemma AppendTasks(s: State, upload: Option<Upload>, token: Option<Token>)
    requires TasksExact(s) && (upload.Some? ==> upload.value !in s.tasks)
    ensures TasksExact(Append(s, upload, token))
  {
    var t := Append(s, upload, token);
    assert t.queue[|s.queue|] == Job(s.next, upload, token);
    forall u: Upload ensures HasTask(t, u) <==> HasTask(s, u) || upload == Some(u) {
      if HasTask(s, u) && !(s.inFlight.Some? && s.inFlight.value.upload == Some(u)) {
        var i :| 0 <= i < |s.queue| && s.queue[i].upload == Some(u);
        assert t.queue[i].upload == Some(u);
      }
    }
    AppendUploads(s, upload, token);
  }

  lemma AppendUploads(s: State, upload: Option<Upload>, token: Option<Token>)
    requires TasksExact(s) && (upload.Some? ==> upload.value !in s.tasks)
    ensures forall i :: 0 <= i < |s.queue| && upload.Some? ==> s.queue[i].upload != upload
    ensures s.inFlight.Some? && upload.Some? ==> s.inFlight.value.upload != upload
  {
    if upload.Some? {
      assert !HasTask(s, upload.value);
    }
  }

  /** The invariant, fair starts and progress, for one event. */
  lemma StepKeeps(s: State, e: Event)
    requires Inv(s) && Accepts(s, e)
    ensures Inv(Step(s, e)) && StartsFairly(s, Step(s, e))
    ensures NeverStuck(s) ==> NeverStuck(Step(s, e))
  {
    match e
    case Enqueue(upload, token, starts) =>
      AppendKeeps(s, upload, token);
      ProcessKeeps(Append(s, upload, token), starts);
    case Complete(starts) =>
      SettleKeeps(s);
      ProcessKeeps(Settle(s), starts);
    case Wake(starts) =>
      var t := s.(wakeUps := s.wakeUps - 1);
      SameEntries(s, t);
      ProcessKeeps(t, starts);
    case Connection(up, starts) =>
      var t := s.(connected := up);
      SameEntries(s, t);
      ProcessKeeps(t, starts);
    case CancelToken(which) =>
      SameEntries(s, s.(canceled := s.canceled + {which}));
  }

  lemma SameEntries(s: State, t: State)
    requires Inv(s) && t == s.(wakeUps := t.wakeUps, connected := t.connected, canceled := t.canceled)
    ensures Inv(t)
  {
    assert forall n: nat :: Pending(t, n) <==> Pending(s, n);
    assert forall u: Upload :: HasTask(t, u) <==> HasTask(s, u);
  }

  // ---- What one event does, from the queue alone -------------------------------------------------

  predicate IsCanceled(job: Job, canceled: set<Token>) {
    job.token.Some? && job.token.value in canceled
  }

  /** i is the first place whose entry is not canceled, or the length. */
  ghost predicate FirstLive(q: seq<Job>, canceled: set<Token>, i: nat) {
    && i <= |q| && (forall j :: 0 <= j < i ==> IsCanceled(q[j], canceled))
    && (i < |q| ==> !IsCanceled(q[i], canceled))
  }

  /** The queue when the next entry is looked for. */
  function QueueAt(s: State, e: Event): seq<Job> {
    if e.Enqueue? then s.queue + [Job(s.next, e.upload, e.token)] else s.queue
  }

  predicate Online(s: State, e: Event) { if e.Connection? then e.up else s.connected }

  function Numbers(js: seq<Job>): (ns: seq<nat>)
    ensures |ns| == |js| && forall i :: 0 <= i < |js| ==> ns[i] == js[i].number
  {
    seq(|js|, i requires 0 <= i < |js| => js[i].number)
  }

  lemma {:induction false} DrainedExactly(s: State, i: nat)
    requires FirstLive(s.queue, s.canceled, i)
    ensures var d := Drained(s);
            d == s.(queue := s.queue[i..], tasks := d.tasks, finished := s.finished + Numbers(s.queue[..i]))
    decreases |s.queue|
  {
    if i > 0 {
      var t := Drop(s);
      LiveAfterFirst(s.queue, s.canceled, i);
      DrainedExactly(t, i - 1);
      hide FirstLive, Numbers, Drained;
      assert t.queue[i - 1..] == s.queue[i..];
      assert Drained(s) == Drained(t) by { OneDrop(s); }
      NumbersCons(s.queue, i);
      assert t.finished + Numbers(t.queue[..i - 1]) == s.finished + ([s.queue[0].number] + Numbers(t.queue[..i - 1]));
    } else {
      assert s.queue[0..] == s.queue && s.finished + Numbers(s.queue[..0]) == s.finished;
    }
  }

  lemma OneDrop(s: State)
    requires s.queue != [] && IsCanceled(s.queue[0], s.canceled)
    ensures Drained(s) == Drained(Drop(s))
  {
  }

  lemma LiveAfterFirst(q: seq<Job>, canceled: set<Token>, i: nat)
    requires FirstLive(q, canceled, i) && i > 0
    ensures q != [] && IsCanceled(q[0], canceled) && FirstLive(q[1..], canceled, i - 1)
  {
    assert forall j :: 0 <= j < |q| - 1 ==> q[1..][j] == q[j + 1];
  }

  lemma NumbersCons(q: seq<Job>, i: nat)
    requires 0 < i <= |q|
    ensures Numbers(q[..i]) == [q[0].number] + Numbers(q[1..][..i - 1])
  {
  }

  /** While an entry is in flight an event starts nothing and takes nothing off the queue. */
  lemma BusyExactly(s: State, e: Event)
    requires Accepts(s, e) && !e.CancelToken? && !e.Complete? && s.inFlight.Some?
    ensures var t := Step(s, e);
            && t.queue == QueueAt(s, e) && t.inFlight == s.inFlight && t.started == s.started
            && t.finished == s.finished && t.canceled == s.canceled && t.connected == Online(s, e)
  {
  }

  /** Otherwise the canceled entries in front go and their promises finish, and if the connection is up the
      first entry that is not canceled starts: it is in flight, or, when its start throws, its promise
      finishes too and another call is due. */
  lemma TurnExactly(s: State, e: Event, i: nat)
    requires Accepts(s, e) && !e.CancelToken? && (s.inFlight.None? || e.Complete?)
    requires FirstLive(QueueAt(s, e), s.canceled, i)
    ensures var t, q := Step(s, e), QueueAt(s, e);
            var ended := (if e.Complete? then [s.inFlight.value.number] else []) + Numbers(q[..i]);
            && t.canceled == s.canceled && t.connected == Online(s, e)
            && (if i < |q| && Online(s, e) then
                  && t.queue == q[i + 1..] && t.started == s.started + [q[i]]
                  && t.inFlight == (if e.starts then Some(q[i]) else None)
                  && t.finished == s.finished + ended + (if e.starts then [] else [q[i].number])
                  && (!e.starts ==> t.wakeUps > 0)
                else
                  && t.queue == q[i..] && t.started == s.started && t.inFlight.None?
                  && t.finished == s.finished + ended)
  {
    hide FirstLive, Numbers, Process;
    assert BeforeTurn(s, e).queue == QueueAt(s, e);
    ProcessExactly(BeforeTurn(s, e), e.starts, i);
  }

  lemma ProcessExactly(s: State, starts: bool, i: nat)
    requires FirstLive(s.queue, s.canceled, i) && s.inFlight.None?
    ensures var t, q := Process(s, starts), s.queue;
            && t.canceled == s.canceled && t.connected == s.connected
            && (if i < |q| && s.connected then
                  && t.queue == q[i + 1..] && t.started == s.started + [q[i]]
                  && t.inFlight == (if starts then Some(q[i]) else None)
                  && t.finished == s.finished + Numbers(q[..i]) + (if starts then [] else [q[i].number])
                  && t.wakeUps == (if starts then s.wakeUps else s.wakeUps + 1)
                else
                  && t.queue == q[i..] && t.started == s.started && t.inFlight.None?
                  && t.finished == s.finished + Numbers(q[..i]) && t.wakeUps == s.wakeUps)
  {
    DrainedExactly(s, i);
    if s.queue == [] { EmptyTurn(s, i); }
    hide FirstLive, Numbers, Drained;
  }

  /** The state in which nextProcess begins. */
  function BeforeTurn(s: State, e: Event): State
    requires Accepts(s, e) && !e.CancelToken?
  {
    match e
    case Enqueue(upload, token, _) => Append(s, upload, token)
    case Complete(_) => Settle(s)
    case Wake(_) => s.(wakeUps := s.wakeUps - 1)
    case Connection(up, _) => s.(connected := up)
  }

  lemma EmptyTurn(s: State, i: nat)
    requires s.queue == [] && FirstLive(s.queue, s.canceled, i)
    ensures i == 0 && Numbers(s.queue[..i]) == []
  {
  }

  lemma {:induction false} FirstLiveExists(q: seq<Job>, canceled: set<Token>) returns (i: nat)
    ensures FirstLive(q, canceled, i)
    decreases |q|
  {
    i := 0;
    if q != [] && IsCanceled(q[0], canceled) {
      var k := FirstLiveExists(q[1..], canceled);
      i := k + 1;
      assert forall j :: 0 < j < |q| ==> q[j] == q[1..][j - 1];
    }
  }

  lemma LeftQueueStep(s: State, e: Event, job: Job)
    requires Accepts(s, e) && job in s.queue
    ensures var t := Step(s, e); job in t.queue || job in t.started || IsCanceled(job, t.canceled)
  {
    if !e.CancelToken? {
      var q := QueueAt(s, e);
      if s.inFlight.Some? && !e.Complete? {
        BusyExactly(s, e);
      } else {
        var i := FirstLiveExists(q, s.canceled);
        TurnExactly(s, e, i);
        assert q[..|s.queue|] == s.queue && job in q[..|s.queue|];
        var j :| 0 <= j < |q| && q[j] == job;
        if j > i { assert q[i + 1..][j - i - 1] == job && q[i..][j - i] == job; }
        if j == i && i < |q| { assert q[i..][0] == job; }
      }
    }
  }

  // ---- Whole runs -------------------------------------------------------------------------

  ghost predicate Leads(s: State, es: seq<Event>, t: State)
    decreases |es|
  {
    if es == [] then t == s
    else Accepts(s, es[0]) && Leads(Step(s, es[0]), es[1..], t)
  }

  lemma {:induction false} RunKeeps(s: State, es: seq<Event>, t: State)
    requires Inv(s) && NeverStuck(s) && Leads(s, es, t)
    ensures Inv(t) && NeverStuck(t) && s.started <= t.started && s.canceled <= t.canceled
    decreases |es|
  {
    if es != [] {
      StepKeeps(s, es[0]);
      RunKeeps(Step(s, es[0]), es[1..], t);
    }
  }

  lemma EmptyIsSafe()
    ensures Inv(EMPTY) && NeverStuck(EMPTY)
  {
  }

  /** Over every run from the empty queue, at every point of it: one entry in flight at most, starts in
      enqueue order and never taken back, every promise pending or finished exactly once, the upload
      table exact, and no work left lying. */
  lemma RunIsSafe(before: seq<Event>, s: State, after: seq<Event>, t: State)
    requires Leads(EMPTY, before, s) && Leads(s, after, t)
    ensures Inv(s) && Inv(t) && NeverStuck(t) && s.started <= t.started && s.canceled <= t.canceled
  {
    EmptyIsSafe();
    RunKeeps(EMPTY, before, s);
    RunKeeps(s, after, t);
  }

  lemma {:induction false} LeftQueueRun(s: State, es: seq<Event>, t: State, job: Job)
    requires Inv(s) && Leads(s, es, t) && (job in s.queue || job in s.started || IsCanceled(job, s.canceled))
    ensures job in t.queue || job in t.started || IsCanceled(job, t.canceled)
    decreases |es|
  {
    if es != [] {
      StepKeeps(s, es[0]);
      if job in s.queue { LeftQueueStep(s, es[0], job); }
      LeftQueueRun(Step(s, es[0]), es[1..], t, job);
    }
  }

  /** A token is canceled exactly when it was canceled before or an event of the run cancels it. */
  lemma {:induction false} CanceledExactly(s: State, es: seq<Event>, t: State)
    requires Leads(s, es, t)
    ensures forall token :: token in t.canceled <==> token in s.canceled || CancelToken(token) in es
    decreases |es|
  {
    if es != [] {
      var u := Step(s, es[0]);
      CanceledByStep(s, es[0]);
      CanceledExactly(u, es[1..], t);
      hide Step, Accepts;
      assert es == [es[0]] + es[1..];
    }
  }

  lemma CanceledByStep(s: State, e: Event)
    requires Accepts(s, e)
    ensures forall token :: token in Step(s, e).canceled <==> token in s.canceled || e == CancelToken(token)
  {
    if !e.CancelToken? {
      var i := FirstLiveExists(QueueAt(s, e), s.canceled);
      if s.inFlight.Some? && !e.Complete? { BusyExactly(s, e); } else { TurnExactly(s, e, i); }
    }
  }

  /** An entry leaves the queue only by starting or because some event canceled its token. */
  lemma QueuedStartsUnlessCanceled(before: seq<Event>, s: State, i: nat, after: seq<Event>, t: State)
    requires Leads(EMPTY, before, s) && Leads(s, after, t) && i < |s.queue|
    ensures || s.queue[i] in t.queue || s.queue[i] in t.started
            || (s.queue[i].token.Some? && CancelToken(s.queue[i].token.value) in before + after)
  {
    EmptyIsSafe();
    RunKeeps(EMPTY, before, s);
    LeftQueueRun(s, after, t, s.queue[i]);
    CanceledExactly(EMPTY, before, s);
    CanceledExactly(s, after, t);
  }

  lemma {:induction false} NotStartedAnyMore(s: State, es: seq<Event>, t: State, job: Job)
    requires Inv(s) && Leads(s, es, t)
    requires job !in s.started && job.token.Some? && job.token.value in s.canceled
    ensures job !in t.started
    decreases |es|
  {
    if es != [] {
      StepKeeps(s, es[0]);
      var u := Step(s, es[0]);
      forall i | 0 <= i < |u.started| ensures u.started[i] != job {
        if i < |s.started| { assert u.started[i] == s.started[i]; }
      }
      NotStartedAnyMore(u, es[1..], t, job);
    }
  }

  lemma QueuedNotStarted(s: State, i: nat)
    requires Inv(s) && i < |s.queue|
    ensures s.queue[i] !in s.started
  {
    forall j | 0 <= j < |s.started| ensures s.started[j] != s.queue[i] {
      assert s.started[j].number < s.queue[i].number;
    }
  }

  /** An entry whose token is canceled, before or while it waits in the queue, never starts. */
  lemma CanceledNeverStarts(before: seq<Event>, s: State, i: nat, after: seq<Event>, t: State)
    requires Leads(EMPTY, before, s) && Leads(s, after, t)
    requires i < |s.queue| && s.queue[i].token.Some? && CancelToken(s.queue[i].token.value) in before
    ensures s.queue[i] !in t.started
  {
    EmptyIsSafe();
    RunKeeps(EMPTY, before, s);
    CanceledExactly(EMPTY, before, s);
    QueuedNotStarted(s, i);
    NotStartedAnyMore(s, after, t, s.queue[i]);
  }

  // ---- The repository's queue as an object --------------------------------------------------

  class SendQueue {
    var queue: seq<Job>
    var processing: bool
    var current: Option<Job>       // what the watcher of the in-flight future captured
    var tasks: set<Upload>
    var canceled: set<Token>       // tokens whose cancel() has won
    var connected: bool
    var wakeUps: nat
    var next: nat
    ghost var started: seq<Job>
    ghost var finished: seq<nat>

    ghost function Now(): State
      reads this
    {
      State(queue, current, tasks, canceled, connected, wakeUps, next, started, finished)
    }

    ghost predicate Valid()
      reads this
    {
      (processing <==> current.Some?) && Inv(Now()) && NeverStuck(Now())
    }

    constructor ()
      ensures Valid() && Now() == EMPTY
    {
      queue, processing, current, tasks, canceled, connected, wakeUps, next := [], false, None, {}, {}, false, 0, 0;
      started, finished := [], [];
    }

    /** nextProcess(); starts is how the start() of the head, if it is reached, turns out. */
    method NextProcess(starts: bool)
      requires processing <==> current.Some?
      modifies this
      ensures processing <==> current.Some?
      ensures Now() == Process(old(Now()), starts)
    {
      if processing || |queue| == 0 {
        return;
      }
      while |queue| > 0 && queue[0].token.Some? && queue[0].token.value in canceled
        invariant !processing && current.None? && Drained(Now()) == Drained(old(Now()))
        decreases |queue|
      {
        var job := queue[0];
        queue := queue[1..];
        if job.upload.Some? {
          tasks := tasks - {job.upload.value};
        }
        finished := finished + [job.number];
      }
      if |queue| == 0 || !connected {
        return;
      }
      processing := true;
      var job := queue[0];
      queue := queue[1..];
      started := started + [job];
      if !starts {
        finished := finished + [job.number];
        if job.upload.Some? {
          tasks := tasks - {job.upload.value};
        }
        processing := false;
        wakeUps := wakeUps + 1;
        return;
      }
      current := Some(job);
    }

    method Enqueue(upload: Option<Upload>, token: Option<Token>, starts: bool) returns (promise: nat)
      requires Valid() && Accepts(Now(), Event.Enqueue(upload, token, starts))
      modifies this
      ensures Valid() && Now() == Step(old(Now()), Event.Enqueue(upload, token, starts)) && promise == old(next)
    {
      StepKeeps(Now(), Event.Enqueue(upload, token, starts));
      promise := next;
      queue := queue + [Job(next, upload, token)];
      next := next + 1;
      if upload.Some? {
        tasks := tasks + {upload.value};
      }
      NextProcess(starts);
    }

    /** sendFiles: turned away, without an entry, when canceled beforehand or already under way. */
    method SendFile(upload: Upload, token: Token, starts: bool) returns (promise: Option<nat>)
      requires Valid()
      modifies this
      ensures Valid()
      ensures promise.None? <==> old(token in canceled || upload in tasks)
      ensures Now() == if promise.None? then old(Now())
                       else Step(old(Now()), Event.Enqueue(Some(upload), Some(token), starts))
    {
      if token in canceled || upload in tasks {
        return None;
      }
      var p := Enqueue(Some(upload), Some(token), starts);
      return Some(p);
    }

    /** The watcher's handler: its entry's promise finishes and the next entry gets its turn. */
    method OnFinished(starts: bool)
      requires Valid() && processing
      modifies this
      ensures Valid() && Now() == Step(old(Now()), Complete(starts))
    {
      StepKeeps(Now(), Complete(starts));
      var job := current.value;
      finished := finished + [job.number];
      if job.upload.Some? {
        tasks := tasks - {job.upload.value};
      }
      processing, current := false, None;
      NextProcess(starts);
    }

    method OnWakeUp(starts: bool)
      requires Valid() && wakeUps > 0
      modifies this
      ensures Valid() && Now() == Step(old(Now()), Wake(starts))
    {
      StepKeeps(Now(), Wake(starts));
      wakeUps := wakeUps - 1;
      NextProcess(starts);
    }

    method OnConnectedChanged(up: bool, starts: bool)
      requires Valid()
      modifies this
      ensures Valid() && Now() == Step(old(Now()), Connection(up, starts))
    {
      StepKeeps(Now(), Connection(up, starts));
      connected := up;
      NextProcess(starts);
    }

    /** A winning cancel() of some token; the queue notices it when the entry reaches its head. */
    method OnCanceled(token: Token)
      requires Valid()
      modifies this
      ensures Valid() && Now() == Step(old(Now()), CancelToken(token))
    {
      StepKeeps(Now(), CancelToken(token));
      canceled := canceled + {token};
    }
  }
}
