/**
 Requests from arrival to response: the per-link window, the two worker queues, the fsync token and the
 hand-off of a `recover` request to its second phase, as a state machine whose steps interleave freely.
 */
module Scheduler {
  import opened Basics

  const MAX_WINDOW: nat := 20
  const MAX_PENDING: nat := 100
  const NO_LINK: int := -1

  datatype Kind = Fsync | Recover | Recover2 | Other

  /** A task answers request `rid` on `link`; an internal task has no link. */
  datatype Task = Task(rid: int, link: int, kind: Kind)

  /**
   Where the running task stands: a `recover` that has queued its second phase but still carries the link,
   one that has given the link up, and an fsync that has returned its token.
   */
  datatype Stage = Busy | Handing | Detached | Released

  /** `entered` and `taken` are the tasks queued and started so far, in order. */
  datatype Worker = Worker(queue: seq<Task>, pending: int, running: Option<Task>, stage: Stage, entered: seq<Task>,
    taken: seq<Task>)

  datatype Which = Pro | Dpc

  /**
   `transit` holds the tasks between their receipt and their queueing; `backing` counts fsync requests that
   found the token taken and have not yet undone their increment, `leaked` the tokens that nobody returns.
   */
  datatype State = State(
    windows: map<int, int>,
    used: set<int>,
    transit: seq<Task>,
    pro: Worker,
    dpc: Worker,
    fsync: int,
    backing: int,
    leaked: int,
    next: int,
    answered: seq<int>)

  const IDLE: Worker := Worker([], 0, None, Busy, [], [])
  const INIT: State := State(map[], {}, [], IDLE, IDLE, 0, 0, 0, 0, [])

  function Get(s: State, w: Which): Worker {
    if w.Pro? then s.pro else s.dpc
  }

  function Set(s: State, w: Which, x: Worker): State {
    if w.Pro? then s.(pro := x) else s.(dpc := x)
  }

  // ---- Steps ----

  datatype Event =
    | Accept(link: int)
    | Close(link: int)
    | Receive(link: int, kind: Kind)
    | Internal
    | FsyncAsk
    | FsyncBack
    | Fault(i: int)
    | Enqueue(i: int, w: Which)
    | Start(w: Which)
    | HandOff(w: Which)
    | Detach(w: Which)
    | SyncDone(w: Which)
    | Finish(w: Which)

  /** Which worker a task may be queued at. */
  predicate Routed(kind: Kind, w: Which) {
    match kind
    case Fsync => w.Dpc?
    case Recover => w.Dpc?
    case Recover2 => w.Pro?
    case Other => true
  }

  predicate Enabled(s: State, e: Event) {
    match e
    case Accept(l) => l > 0 && l !in s.used
    case Close(l) => l in s.windows
    case Receive(l, kind) => l in s.windows && kind != Fsync
    case Internal => true
    case FsyncAsk => true
    case FsyncBack => s.backing > 0
    case Fault(i) => 0 <= i < |s.transit|
    case Enqueue(i, w) => 0 <= i < |s.transit| && Routed(s.transit[i].kind, w)
    case Start(w) => Get(s, w).running == None && Get(s, w).queue != []
    case HandOff(w) => Get(s, w).stage == Busy && Get(s, w).running.Some? && Get(s, w).running.value.kind == Recover
    case Detach(w) => Get(s, w).stage == Handing && Get(s, w).running.Some?
    case SyncDone(w) => Get(s, w).stage == Busy && Get(s, w).running.Some? && Get(s, w).running.value.kind == Fsync
    case Finish(w) => Get(s, w).stage != Handing && Get(s, w).running.Some?
  }

  /** `jnet_write_response`: a task without a link answers nobody; a link that is gone has no window to lower. */
  function Respond(s: State, t: Task): State {
    if t.link <= 0 then s
    else if t.link in s.windows then
      s.(windows := s.windows[t.link := s.windows[t.link] - 1], answered := s.answered + [t.rid])
    else s.(answered := s.answered + [t.rid])
  }

  /** A task that is dropped with its fsync token takes the token along. */
  function Lose(s: State, t: Task): State {
    if t.kind == Fsync then s.(leaked := s.leaked + 1) else s
  }

  function Apply(s: State, e: Event): State
    requires Enabled(s, e)
  {
    match e
    case Accept(l) => s.(windows := s.windows[l := 0], used := s.used + {l})
    case Close(l) => s.(windows := s.windows - {l})
    case Receive(l, kind) =>
      if s.windows[l] >= MAX_WINDOW then s
      else s.(windows := s.windows[l := s.windows[l] + 1], transit := s.transit + [Task(s.next, l, kind)],
        next := s.next + 1)
    case Internal => s.(transit := s.transit + [Task(-1, NO_LINK, Other)])
    case FsyncAsk =>
      if s.fsync + 1 > 1 then s.(fsync := s.fsync + 1, backing := s.backing + 1)
      else s.(fsync := s.fsync + 1, transit := s.transit + [Task(-1, NO_LINK, Fsync)])
    case FsyncBack => s.(fsync := s.fsync - 1, backing := s.backing - 1)
    case Fault(i) =>
      var t := s.transit[i];
      Lose(Respond(s.(transit := Without(s.transit, i)), t), t)
    case Enqueue(i, w) =>
      var t := s.transit[i];
      var rest := s.(transit := Without(s.transit, i));
      var x := Get(s, w);
      if x.pending < MAX_PENDING then
        Set(rest, w, x.(queue := x.queue + [t], pending := x.pending + 1, entered := x.entered + [t]))
      else Lose(Respond(rest, t), t)
    case Start(w) =>
      var x := Get(s, w);
      Set(s, w, x.(queue := x.queue[1..], pending := x.pending - 1, running := Some(x.queue[0]), stage := Busy,
        taken := x.taken + [x.queue[0]]))
    case HandOff(w) =>
      var x := Get(s, w);
      Set(s.(transit := s.transit + [Task(x.running.value.rid, x.running.value.link, Recover2)]), w,
        x.(stage := Handing))
    case Detach(w) =>
      var x := Get(s, w);
      Set(s, w, x.(running := Some(x.running.value.(link := NO_LINK)), stage := Detached))
    case SyncDone(w) =>
      Set(s, w, Get(s, w).(stage := Released)).(fsync := s.fsync - 1)
    case Finish(w) =>
      var x := Get(s, w);
      var t := x.running.value;
      var done := Respond(Set(s, w, x.(running := None, stage := Busy)), t);
      if x.stage == Released then done else Lose(done, t)
  }

  // ---- Counting ----

  /** What is counted: the tasks that must still answer on a link, or for a request, or that hold the fsync token. */
  datatype Key = OnLink(link: int) | ForRequest(rid: int) | Token

  predicate Matches(t: Task, key: Key) {
    match key
    case OnLink(l) => l > 0 && t.link == l
    case ForRequest(r) => t.link > 0 && t.rid == r
    case Token => t.kind == Fsync
  }

  function One(t: Task, key: Key): nat {
    if Matches(t, key) then 1 else 0
  }

  function Count(ts: seq<Task>, key: Key): nat {
    if ts == [] then 0 else One(ts[0], key) + Count(ts[1..], key)
  }

  /** The running task counts unless it has handed over what is counted. */
  function Running(x: Worker, key: Key): nat {
    if x.running == None || (x.stage == Handing && !key.Token?) || (x.stage == Released && key.Token?) then 0
    else One(x.running.value, key)
  }

  function At(x: Worker, key: Key): nat {
    Count(x.queue, key) + Running(x, key)
  }

  function Total(s: State, key: Key): nat {
    Count(s.transit, key) + At(s.pro, key) + At(s.dpc, key)
  }

  function Times(xs: seq<int>, r: int): nat {
    if xs == [] then 0 else (if xs[|xs| - 1] == r then 1 else 0) + Times(xs[..|xs| - 1], r)
  }

  lemma {:induction false} CountAdd(ts: seq<Task>, t: Task, key: Key)
    ensures Count(ts + [t], key) == Count(ts, key) + One(t, key)
    decreases |ts|
  {
    if ts == [] {
      assert [t][1..] == [] && ts + [t] == [t];
    } else {
      assert (ts + [t])[1..] == ts[1..] + [t];
      CountAdd(ts[1..], t, key);
    }
  }

  lemma {:induction false} CountDrop(ts: seq<Task>, i: nat, key: Key)
    requires i < |ts|
    ensures Count(ts, key) == Count(Without(ts, i), key) + One(ts[i], key)
    decreases i
  {
    if i == 0 {
      assert Without(ts, 0) == ts[1..];
    } else {
      CountDrop(ts[1..], i - 1, key);
      assert Without(ts, i)[1..] == Without(ts[1..], i - 1);
    }
  }

  lemma {:induction false} TimesAdd(xs: seq<int>, x: int, r: int)
    ensures Times(xs + [x], r) == Times(xs, r) + if x == r then 1 else 0
  {
    assert (xs + [x])[..|xs|] == xs;
  }

  // ---- The invariant ----

  /** A worker's counter is its queue's length, and it has started its tasks in the order they were queued. */
  predicate WorkerOk(x: Worker) {
    && x.pending == |x.queue| <= MAX_PENDING
    && x.entered == x.taken + x.queue
    && (x.stage == Handing ==> x.running.Some? && x.running.value.kind == Recover)
    && (x.stage == Released ==> x.running.Some? && x.running.value.kind == Fsync)
  }

  /** Each open link's window is the number of its admitted, unanswered requests. */
  predicate WindowsOk(s: State) {
    forall l :: l in s.windows ==>
      l > 0 && l in s.used && s.windows[l] == Total(s, OnLink(l))
      && s.windows[l] <= MAX_WINDOW
  }

  /** No task is left for a link that was never opened. */
  ghost predicate LinksOk(s: State) {
    forall l :: l > 0 && l !in s.used ==> Total(s, OnLink(l)) == 0
  }

  /** Every admitted request is answered once, or will be by exactly one task. */
  ghost predicate RequestsOk(s: State) {
    forall r :: Total(s, ForRequest(r)) + Times(s.answered, r) == if 0 <= r < s.next then 1 else 0
  }

  /** A worker's fsync tasks, queued or running. */
  function Tasks(x: Worker): nat {
    Count(x.queue, Token) + if x.running.Some? then One(x.running.value, Token) else 0
  }

  predicate TokenOk(s: State) {
    Total(s, Token) <= 1 && s.backing >= 0 && s.leaked >= 0 && s.fsync == Total(s, Token) + s.backing + s.leaked
  }

  ghost predicate Inv(s: State) {
    && s.next >= 0 && WorkerOk(s.pro) && WorkerOk(s.dpc) && Tasks(s.pro) == 0
    && WindowsOk(s) && LinksOk(s) && RequestsOk(s) && TokenOk(s)
  }

  // ---- What each step does to the counts ----

  /** The task that a step takes out of the system, if any. */
  function Leaves(s: State, e: Event): Option<Task>
    requires Enabled(s, e)
  {
    match e
    case Fault(i) => Some(s.transit[i])
    case Enqueue(i, w) => if Get(s, w).pending < MAX_PENDING then None else Some(s.transit[i])
    case Finish(w) => Get(s, w).running
    case _ => None
  }

  /** The task that a step brings in, if any; a hand-off passes its request on and brings in nothing new. */
  function Enters(s: State, e: Event): Option<Task>
    requires Enabled(s, e)
  {
    match e
    case Receive(l, kind) => if s.windows[l] >= MAX_WINDOW then None else Some(Task(s.next, l, kind))
    case Internal => Some(Task(-1, NO_LINK, Other))
    case FsyncAsk => if s.fsync + 1 > 1 then None else Some(Task(-1, NO_LINK, Fsync))
    case _ => None
  }

  function Amount(t: Option<Task>, key: Key): nat {
    if t.Some? then One(t.value, key) else 0
  }

  /** An fsync that already gave its token back leaves without it. */
  function Kept(s: State, e: Event, key: Key): nat
    requires Enabled(s, e)
  {
    match e
    case Finish(w) => Running(Get(s, w), key)
    case SyncDone(w) => if key.Token? then 1 else 0
    case _ => Amount(Leaves(s, e), key)
  }

  lemma {:induction false} TotalAfter(s: State, e: Event, key: Key)
    requires Enabled(s, e)
    ensures Total(Apply(s, e), key) + Kept(s, e, key) == Total(s, key) + Amount(Enters(s, e), key)
  {
    match e
    case Receive(_, _) => EnterTotal(s, e, key);
    case Internal => EnterTotal(s, e, key);
    case FsyncAsk => EnterTotal(s, e, key);
    case Fault(i) => FaultTotal(s, i, key);
    case Enqueue(i, w) => EnqueueTotal(s, i, w, key);
    case Start(w) => WorkerTotal(s, e, w, key);
    case HandOff(w) => HandOffTotal(s, w, key);
    case Detach(w) => WorkerTotal(s, e, w, key);
    case SyncDone(w) => WorkerTotal(s, e, w, key);
    case Finish(w) => FinishTotal(s, w, key);
    case _ =>
  }

  lemma {:induction false} EnterTotal(s: State, e: Event, key: Key)
    requires (e.Receive? || e.Internal? || e.FsyncAsk?) && Enabled(s, e)
    ensures Total(Apply(s, e), key) == Total(s, key) + Amount(Enters(s, e), key)
  {
    var t := Enters(s, e);
    if t.Some? { CountAdd(s.transit, t.value, key); }
  }

  lemma {:induction false} FaultTotal(s: State, i: int, key: Key)
    requires Enabled(s, Fault(i))
    ensures Total(Apply(s, Fault(i)), key) + One(s.transit[i], key) == Total(s, key)
  {
    CountDrop(s.transit, i, key);
    RespondTotal(s.(transit := Without(s.transit, i)), s.transit[i], key);
  }

  lemma {:induction false} EnqueueTotal(s: State, i: int, w: Which, key: Key)
    requires Enabled(s, Enqueue(i, w))
    ensures Total(Apply(s, Enqueue(i, w)), key) + Amount(Leaves(s, Enqueue(i, w)), key) == Total(s, key)
  {
    var t, rest := s.transit[i], s.(transit := Without(s.transit, i));
    LeaveTransit(s, i, key);
    if Get(s, w).pending < MAX_PENDING {
      QueueTotal(rest, w, t, key);
    } else {
      RespondTotal(rest, t, key);
    }
  }

  lemma {:induction false} LeaveTransit(s: State, i: int, key: Key)
    requires 0 <= i < |s.transit|
    ensures Total(s.(transit := Without(s.transit, i)), key) + One(s.transit[i], key) == Total(s, key)
  {
    CountDrop(s.transit, i, key);
  }

  lemma {:induction false} QueueTotal(s: State, w: Which, t: Task, key: Key)
    ensures var x := Get(s, w);
      Total(Set(s, w, x.(queue := x.queue + [t], pending := x.pending + 1, entered := x.entered + [t])), key)
        == Total(s, key) + One(t, key)
  {
    var x := Get(s, w);
    CountAdd(x.queue, t, key);
    SetTotal(s, w, x.(queue := x.queue + [t], pending := x.pending + 1, entered := x.entered + [t]), key);
  }

  lemma {:induction false} RespondTotal(s: State, t: Task, key: Key)
    ensures Total(Respond(s, t), key) == Total(Lose(Respond(s, t), t), key) == Total(s, key)
  {
  }

  lemma {:induction false} WorkerTotal(s: State, e: Event, w: Which, key: Key)
    requires (e == Start(w) || e == Detach(w) || e == SyncDone(w)) && Enabled(s, e)
    ensures Total(Apply(s, e), key) + (if e.SyncDone? && key.Token? then 1 else 0) == Total(s, key)
  {
    SetTotal(s, w, Get(Apply(s, e), w), key);
  }

  lemma {:induction false} SetTotal(s: State, w: Which, x: Worker, key: Key)
    ensures Total(Set(s, w, x), key) + At(Get(s, w), key) == Total(s, key) + At(x, key)
  {
  }

  lemma {:induction false} HandOffTotal(s: State, w: Which, key: Key)
    requires Enabled(s, HandOff(w))
    ensures Total(Apply(s, HandOff(w)), key) == Total(s, key)
  {
    var x := Get(s, w);
    var t := x.running.value;
    var second := Task(t.rid, t.link, Recover2);
    CountAdd(s.transit, second, key);
    SetTotal(s.(transit := s.transit + [second]), w, x.(stage := Handing), key);
  }

  lemma {:induction false} FinishTotal(s: State, w: Which, key: Key)
    requires Enabled(s, Finish(w))
    ensures Total(Apply(s, Finish(w)), key) + Running(Get(s, w), key) == Total(s, key)
  {
    var x := Get(s, w);
    SetTotal(s, w, x.(running := None, stage := Busy), key);
    RespondTotal(Set(s, w, x.(running := None, stage := Busy)), x.running.value, key);
  }

  /** The responses a step sends. */
  function Sent(t: Option<Task>): seq<int> {
    if t.Some? && t.value.link > 0 then [t.value.rid] else []
  }

  lemma {:induction false} SentAfter(s: State, e: Event)
    requires Enabled(s, e)
    ensures Apply(s, e).answered == s.answered + Sent(Leaves(s, e))
    ensures Apply(s, e).next == s.next + if e.Receive? && Enters(s, e).Some? then 1 else 0
  {
    assert s.answered + [] == s.answered;
  }

  /** A step lowers the window of the link it answers and raises that of a request it admits. */
  lemma {:induction false} WindowAfter(s: State, e: Event, l: int)
    requires Enabled(s, e) && l in Apply(s, e).windows && !(e.Accept? && e.link == l)
    ensures l in s.windows
    ensures Apply(s, e).windows[l] + (if l > 0 then Amount(Leaves(s, e), OnLink(l)) else 0) ==
      s.windows[l] + if e.Receive? && e.link == l && s.windows[l] < MAX_WINDOW then 1 else 0
  {
  }

  // ---- Every step keeps the invariant ----

  lemma {:induction false} WorkersKept(s: State, e: Event)
    requires Inv(s) && Enabled(s, e)
    ensures WorkerOk(Apply(s, e).pro) && WorkerOk(Apply(s, e).dpc)
  {
    match e
    case Enqueue(i, w) => EnqueueKept(s, i, w);
    case Start(w) => StartKept(Get(s, w));
    case Fault(i) => RespondKeeps(s.(transit := Without(s.transit, i)), s.transit[i]);
    case Finish(w) => FinishKept(s, w);
    case _ =>
  }

  lemma {:induction false} RespondKeeps(s: State, t: Task)
    ensures var r := Respond(s, t);
      r.pro == s.pro && r.dpc == s.dpc && Lose(r, t).pro == s.pro
      && Lose(r, t).dpc == s.dpc
  {
  }

  lemma {:induction false} EnqueueKept(s: State, i: int, w: Which)
    requires WorkerOk(s.pro) && WorkerOk(s.dpc) && Enabled(s, Enqueue(i, w))
    ensures var r := Apply(s, Enqueue(i, w)); WorkerOk(r.pro) && WorkerOk(r.dpc)
  {
    var x, t := Get(s, w), s.transit[i];
    RespondKeeps(s.(transit := Without(s.transit, i)), t);
    assert x.entered + [t] == x.taken + (x.queue + [t]);
  }

  lemma {:induction false} FinishKept(s: State, w: Which)
    requires WorkerOk(s.pro) && WorkerOk(s.dpc) && Enabled(s, Finish(w))
    ensures var r := Apply(s, Finish(w)); WorkerOk(r.pro) && WorkerOk(r.dpc)
  {
    var x := Get(s, w);
    RespondKeeps(Set(s, w, x.(running := None, stage := Busy)), x.running.value);
  }

  lemma {:induction false} StartKept(x: Worker)
    requires WorkerOk(x) && x.queue != [] && x.running == None
    ensures WorkerOk(x.(queue := x.queue[1..], pending := x.pending - 1, running := Some(x.queue[0]), stage := Busy,
      taken := x.taken + [x.queue[0]]))
  {
    assert x.taken + x.queue == (x.taken + [x.queue[0]]) + x.queue[1..];
  }

  lemma {:induction false} TokenKept(s: State, e: Event)
    requires Inv(s) && Enabled(s, e)
    ensures TokenOk(Apply(s, e))
  {
    TotalAfter(s, e, Token);
    TokensAfter(s, e);
  }

  /** The counter follows the token and what is lost. */
  lemma {:induction false} TokensAfter(s: State, e: Event)
    requires Enabled(s, e)
    ensures var s' := Apply(s, e);
      && s'.fsync == s.fsync + (if e.FsyncAsk? then 1 else if e.FsyncBack? || e.SyncDone? then -1 else 0)
      && s'.backing == s.backing + (if e.FsyncAsk? && Enters(s, e) == None then 1 else if e.FsyncBack? then -1 else 0)
      && s'.leaked == s.leaked + if e.SyncDone? then 0 else Kept(s, e, Token)
  {
  }

  /** Fsyncs are queued at the Dpc worker only. */
  lemma {:induction false} ProKept(s: State, e: Event)
    requires Inv(s) && Enabled(s, e)
    ensures Tasks(Apply(s, e).pro) == 0
  {
    if e.Enqueue? { CountAdd(s.pro.queue, s.transit[e.i], Token); }
  }

  lemma {:induction false} LinksKept(s: State, e: Event)
    requires Inv(s) && Enabled(s, e)
    ensures LinksOk(Apply(s, e))
  {
    var s' := Apply(s, e);
    forall l | l > 0 && l !in s'.used ensures Total(s', OnLink(l)) == 0 {
      LinkKept(s, e, l);
    }
  }

  lemma {:induction false} LinkKept(s: State, e: Event, l: int)
    requires WindowsOk(s) && LinksOk(s) && Enabled(s, e) && l > 0 && l !in Apply(s, e).used
    ensures Total(Apply(s, e), OnLink(l)) == 0
  {
    TotalAfter(s, e, OnLink(l));
    UsedAfter(s, e);
  }

  lemma {:induction false} UsedAfter(s: State, e: Event)
    requires Enabled(s, e)
    ensures s.used <= Apply(s, e).used
  {
  }

  lemma {:induction false} WindowsKept(s: State, e: Event)
    requires Inv(s) && Enabled(s, e)
    ensures WindowsOk(Apply(s, e))
  {
    var s' := Apply(s, e);
    forall l | l in s'.windows
      ensures l > 0 && l in s'.used && s'.windows[l] == Total(s', OnLink(l)) && s'.windows[l] <= MAX_WINDOW
    {
      WindowKept(s, e, l);
    }
  }

  lemma {:induction false} WindowKept(s: State, e: Event, l: int)
    requires Inv(s) && Enabled(s, e) && l in Apply(s, e).windows
    ensures var s' := Apply(s, e);
      l > 0 && l in s'.used && s'.windows[l] == Total(s', OnLink(l)) && s'.windows[l] <= MAX_WINDOW
  {
    TotalAfter(s, e, OnLink(l));
    if !(e.Accept? && e.link == l) {
      WindowAfter(s, e, l);
      LeavingCounts(s, e, OnLink(l));
    }
  }

  /** A finishing task is one that still counts. */
  lemma {:induction false} LeavingCounts(s: State, e: Event, key: Key)
    requires Enabled(s, e) && !key.Token?
    ensures Kept(s, e, key) == Amount(Leaves(s, e), key)
  {
  }

  lemma {:induction false} RequestsKept(s: State, e: Event)
    requires Inv(s) && Enabled(s, e)
    ensures RequestsOk(Apply(s, e))
  {
    var s' := Apply(s, e);
    forall r ensures Total(s', ForRequest(r)) + Times(s'.answered, r) == if 0 <= r < s'.next then 1 else 0 {
      RequestKept(s, e, r);
    }
  }

  lemma {:induction false} RequestKept(s: State, e: Event, r: int)
    requires Inv(s) && Enabled(s, e)
    ensures var s' := Apply(s, e);
      Total(s', ForRequest(r)) + Times(s'.answered, r) == if 0 <= r < s'.next then 1 else 0
  {
    TotalAfter(s, e, ForRequest(r));
    LeavingCounts(s, e, ForRequest(r));
    SentAfter(s, e);
    var t := Leaves(s, e);
    if Sent(t) != [] { TimesAdd(s.answered, t.value.rid, r); }
    assert s.answered + [] == s.answered;
    if e.Receive? { assert e.link in s.windows; }
  }

  lemma {:induction false} StepKeeps(s: State, e: Event)
    requires Inv(s) && Enabled(s, e)
    ensures Inv(Apply(s, e))
  {
    WorkersKept(s, e);
    ProKept(s, e);
    TokenKept(s, e);
    LinksKept(s, e);
    WindowsKept(s, e);
    RequestsKept(s, e);
  }

  // ---- Whole runs ----

  /** The state after a run of steps; a step that is not enabled is not taken. */
  function After(s0: State, es: seq<Event>): State {
    if es == [] then s0 else
    var s, e := After(s0, es[..|es| - 1]), es[|es| - 1];
    if Enabled(s, e) then Apply(s, e) else s
  }

  /** Every step of the run is enabled when its turn comes. */
  predicate Possible(s0: State, es: seq<Event>) {
    forall n :: 0 <= n < |es| ==> Enabled(After(s0, es[..n]), es[n])
  }

  lemma {:induction false} RunKeeps(s0: State, es: seq<Event>)
    requires Inv(s0)
    ensures Inv(After(s0, es))
    decreases |es|
  {
    if es != [] {
      var s, e := After(s0, es[..|es| - 1]), es[|es| - 1];
      RunKeeps(s0, es[..|es| - 1]);
      if Enabled(s, e) { StepKeeps(s, e); }
    }
  }

  lemma {:induction false} InitOk()
    ensures Inv(INIT)
  {
  }

  /** Every state that the server reaches from its start keeps the invariant. */
  lemma {:induction false} Reached(es: seq<Event>)
    ensures Inv(After(INIT, es))
  {
    InitOk();
    RunKeeps(INIT, es);
  }

  /** In every reachable state an open link's window is in 0..20 and counts its admitted, unanswered requests. */
  lemma {:induction false} WindowSafety(es: seq<Event>, l: int)
    requires l in After(INIT, es).windows
    ensures var s := After(INIT, es); 0 <= s.windows[l] == Total(s, OnLink(l)) <= 20
  {
    Reached(es);
  }

  /**
   In every reachable state an admitted request has been answered once and has no task left, or not at all
   and has one.
   */
  lemma {:induction false} OneResponse(es: seq<Event>, r: int)
    requires 0 <= r < After(INIT, es).next
    ensures var s := After(INIT, es); Times(s.answered, r) + Total(s, ForRequest(r)) == 1
  {
    Reached(es);
  }

  /** Each worker's counter is its queue's length, at most 100, and tasks are started in the order they were queued. */
  lemma {:induction false} QueueSafety(es: seq<Event>, w: Which)
    ensures var x := Get(After(INIT, es), w); x.pending == |x.queue| <= 100 && x.entered == x.taken + x.queue
  {
    Reached(es);
  }

  /**
   A request is admitted exactly when fewer than 20 of its link are unanswered, a task queued when fewer than
   100 are.
   */
  lemma {:induction false} Admission(es: seq<Event>, e: Event)
    requires Enabled(After(INIT, es), e)
    ensures var s := After(INIT, es);
      var s' := Apply(s, e);
      && (e.Receive? ==> if Total(s, OnLink(e.link)) < 20 then Total(s', OnLink(e.link)) == Total(s, OnLink(e.link)) + 1
        else s' == s)
      && (e.Enqueue? ==> if |Get(s, e.w).queue| < 100 then Get(s', e.w).queue == Get(s, e.w).queue + [s.transit[e.i]]
        else Get(s', e.w) == Get(s, e.w))
  {
    Reached(es);
    if e.Receive? { CountAdd(After(INIT, es).transit, Task(After(INIT, es).next, e.link, e.kind), OnLink(e.link)); }
  }

  predicate Quiet(s: State) {
    s.transit == [] && s.pro.queue == [] && s.dpc.queue == [] && s.pro.running == None && s.dpc.running == None
  }

  /** Once nothing is left to do, every admitted request has been answered exactly once and every window is empty. */
  lemma {:induction false} AllAnswered(es: seq<Event>)
    requires Quiet(After(INIT, es))
    ensures forall r :: 0 <= r < After(INIT, es).next ==> Times(After(INIT, es).answered, r) == 1
    ensures forall l :: l in After(INIT, es).windows ==> After(INIT, es).windows[l] == 0
  {
    Reached(es);
  }

  // ---- Fsync ----

  /** Fsync tasks received, queued or running. */
  function FsyncTasks(s: State): nat {
    Count(s.transit, Token) + Tasks(s.pro) + Tasks(s.dpc)
  }

  /** An fsync has reported its completion and is about to return. */
  predicate Leaving(s: State) {
    s.dpc.stage == Released
  }

  lemma {:induction false} FsyncCount(s: State)
    requires Inv(s)
    ensures FsyncTasks(s) == Total(s, Token) + if Leaving(s) then 1 else 0
  {
  }

  /** At most one fsync task has not reported its completion, and at most one more is about to return. */
  lemma {:induction false} OneFsync(es: seq<Event>)
    ensures var s := After(INIT, es); Total(s, Token) <= 1 && FsyncTasks(s) <= if Leaving(s) then 2 else 1
  {
    Reached(es);
    FsyncCount(After(INIT, es));
  }

  /** The token is free although the last fsync has not returned: the moment at which a new request doubles it. */
  predicate Overlaps(s: State, e: Event) {
    e == FsyncAsk && s.fsync == 0 && Leaving(s)
  }

  /** A step makes a second fsync task exactly when it takes the free token while the last fsync is about to return. */
  lemma {:induction false} FsyncStep(s: State, e: Event)
    requires Inv(s) && Enabled(s, e) && FsyncTasks(s) <= 1
    ensures FsyncTasks(Apply(s, e)) <= 1 <==> !Overlaps(s, e)
  {
    StepKeeps(s, e);
    TotalAfter(s, e, Token);
    FsyncCount(s);
    FsyncCount(Apply(s, e));
  }

  /** A run from the start has at most one fsync task in every state exactly when no step of it overlaps. */
  lemma {:induction false} OneFsyncIff(es: seq<Event>)
    requires Possible(INIT, es)
    ensures (forall n :: 0 <= n <= |es| ==> FsyncTasks(After(INIT, es[..n])) <= 1)
      <==> (forall n :: 0 <= n < |es| ==> !Overlaps(After(INIT, es[..n]), es[n]))
  {
    if forall n :: 0 <= n < |es| ==> !Overlaps(After(INIT, es[..n]), es[n]) {
      forall n | 0 <= n <= |es| ensures FsyncTasks(After(INIT, es[..n])) <= 1 { NeverOverlaps(es, n); }
    } else {
      var n :| 0 <= n < |es| && Overlaps(After(INIT, es[..n]), es[n]);
      Reached(es[..n]);
      NextState(es, n);
      if FsyncTasks(After(INIT, es[..n])) <= 1 { FsyncStep(After(INIT, es[..n]), es[n]); }
    }
  }

  lemma {:induction false} NextState(es: seq<Event>, n: nat)
    requires n < |es| && Enabled(After(INIT, es[..n]), es[n])
    ensures After(INIT, es[..n + 1]) == Apply(After(INIT, es[..n]), es[n])
  {
    assert es[..n + 1][..n] == es[..n];
  }

  lemma {:induction false} NeverOverlaps(es: seq<Event>, n: nat)
    requires Possible(INIT, es) && n <= |es| && forall i :: 0 <= i < |es| ==> !Overlaps(After(INIT, es[..i]), es[i])
    ensures FsyncTasks(After(INIT, es[..n])) <= 1
  {
    if n > 0 {
      NeverOverlaps(es, n - 1);
      Reached(es[..n - 1]);
      NextState(es, n - 1);
      FsyncStep(After(INIT, es[..n - 1]), es[n - 1]);
    }
  }

  lemma {:induction false} RunNext(es: seq<Event>, s: State, e: Event)
    requires Possible(INIT, es) && After(INIT, es) == s && Enabled(s, e)
    ensures Possible(INIT, es + [e]) && After(INIT, es + [e]) == Apply(s, e)
  {
    var more := es + [e];
    assert more[..|es|] == es;
    forall n | 0 <= n < |more| ensures Enabled(After(INIT, more[..n]), more[n]) {
      if n < |es| { assert more[..n] == es[..n] && Enabled(After(INIT, es[..n]), es[n]); }
    }
  }

  /** The server with one fsync task at a certain place. */
  function FsyncAt(fsync: int, transit: seq<Task>, dpc: Worker): State {
    INIT.(fsync := fsync, transit := transit, dpc := dpc)
  }

  lemma {:induction false} FsyncSteps(t: Task)
    requires t == Task(-1, NO_LINK, Fsync)
    ensures Enabled(INIT, FsyncAsk) && Apply(INIT, FsyncAsk) == FsyncAt(1, [t], IDLE)
    ensures var s := FsyncAt(1, [t], IDLE);
      Enabled(s, Enqueue(0, Dpc)) && Apply(s, Enqueue(0, Dpc)) == FsyncAt(1, [], Worker([t], 1, None, Busy, [t], []))
    ensures var s := FsyncAt(1, [], Worker([t], 1, None, Busy, [t], []));
      Enabled(s, Start(Dpc)) && Apply(s, Start(Dpc)) == FsyncAt(1, [], Worker([], 0, Some(t), Busy, [t], [t]))
    ensures var s := FsyncAt(1, [], Worker([], 0, Some(t), Busy, [t], [t]));
      Enabled(s, SyncDone(Dpc)) && Apply(s, SyncDone(Dpc)) == FsyncAt(0, [], Worker([], 0, Some(t), Released, [t], [t]))
    ensures var s := FsyncAt(0, [], Worker([], 0, Some(t), Released, [t], [t]));
      Enabled(s, FsyncAsk) && Apply(s, FsyncAsk) == FsyncAt(1, [t], Worker([], 0, Some(t), Released, [t], [t]))
  {
    assert [] + [t] == [t] && Without([t], 0) == [];
  }

  /** Two can exist: the first has called `pro_complete_fsync` and is about to return when the second is received. */
  lemma {:induction false} TwoFsyncs()
    ensures exists es :: Possible(INIT, es) && FsyncTasks(After(INIT, es)) == 2
  {
    var t := Task(-1, NO_LINK, Fsync);
    var last := FsyncAt(1, [t], Worker([], 0, Some(t), Released, [t], [t]));
    assert FsyncTasks(last) == 2 by {
      CountAdd([], t, Token);
      assert [] + [t] == [t];
    }
    FsyncRun(t);
  }

  lemma {:induction false} FsyncRun(t: Task)
    requires t == Task(-1, NO_LINK, Fsync)
    ensures exists es ::
      Possible(INIT, es) && After(INIT, es)
      == FsyncAt(1, [t], Worker([], 0, Some(t), Released, [t], [t]))
  {
    FsyncSteps(t);
    var s1, s2 := FsyncAt(1, [t], IDLE), FsyncAt(1, [], Worker([t], 1, None, Busy, [t], []));
    var s3, s4 := FsyncAt(1, [], Worker([], 0, Some(t), Busy, [t], [t])),
      FsyncAt(0, [], Worker([], 0, Some(t), Released, [t], [t]));
    RunFive(INIT, FsyncAsk, s1, Enqueue(0, Dpc), s2, Start(Dpc), s3, SyncDone(Dpc), s4, FsyncAsk);
  }

  lemma {:induction false} RunFive(s0: State, e1: Event, s1: State, e2: Event, s2: State, e3: Event, s3: State,
      e4: Event, s4: State, e5: Event)
    requires s0 == After(INIT, []) && Enabled(s0, e1) && Apply(s0, e1) == s1 && Enabled(s1, e2) && Apply(s1, e2) == s2
    requires Enabled(s2, e3) && Apply(s2, e3) == s3 && Enabled(s3, e4) && Apply(s3, e4) == s4 && Enabled(s4, e5)
    ensures exists es :: Possible(INIT, es) && After(INIT, es) == Apply(s4, e5)
  {
    var r1 := [] + [e1];
    var r2 := r1 + [e2];
    var r3 := r2 + [e3];
    var r4 := r3 + [e4];
    RunNext([], s0, e1);
    RunNext(r1, s1, e2);
    RunNext(r2, s2, e3);
    RunNext(r3, s3, e4);
    RunNext(r4, s4, e5);
  }
}
