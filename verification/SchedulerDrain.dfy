/** The work never gets stuck: from every state reached, steps of the workers alone answer what is left. */
module SchedulerDrain {
  import opened Basics
  import opened Scheduler

  // ---- Which worker runs what ----

  /**
   The protocol worker runs only the second phases of recovers and other tasks, the disk worker never a
   second phase.
   */
  predicate MayRun(w: Which, kind: Kind) {
    if w.Pro? then kind == Recover2 || kind == Other else kind == Fsync || kind == Recover || kind == Other
  }

  /** What a worker has queued and runs is for it; only a recover gives its link up. */
  predicate Fine(w: Which, x: Worker) {
    && (forall i :: 0 <= i < |x.queue| ==> MayRun(w, x.queue[i].kind))
    && (x.running.Some? ==> MayRun(w, x.running.value.kind))
    && (x.stage == Detached ==> x.running.Some? && x.running.value.kind == Recover)
  }

  predicate Apart(s: State) {
    Fine(Pro, s.pro) && Fine(Dpc, s.dpc)
  }

  lemma {:induction false} FineKept(s: State, e: Event, w: Which)
    requires WorkerOk(Get(s, w)) && Fine(w, Get(s, w)) && Enabled(s, e)
    ensures Fine(w, Get(Apply(s, e), w))
  {
  }

  lemma {:induction false} ApartKept(s: State, e: Event)
    requires Inv(s) && Apart(s) && Enabled(s, e)
    ensures Apart(Apply(s, e))
  {
    FineKept(s, e, Pro);
    FineKept(s, e, Dpc);
  }

  lemma {:induction false} ApartAfter(es: seq<Event>)
    ensures Apart(After(INIT, es))
    decreases |es|
  {
    if es != [] {
      var s, e := After(INIT, es[..|es| - 1]), es[|es| - 1];
      ApartAfter(es[..|es| - 1]);
      Reached(es[..|es| - 1]);
      if Enabled(s, e) { ApartKept(s, e); }
    }
  }

  // ---- A step that leaves less to do ----

  /** The steps a queued task still takes; a recover also those of its second phase. */
  function Steps(kind: Kind): nat {
    match kind
    case Recover => 7
    case Fsync => 3
    case _ => 2
  }

  function Load(ts: seq<Task>): nat {
    if ts == [] then 0 else Steps(ts[0].kind) + Load(ts[1..])
  }

  lemma {:induction false} LoadAdd(ts: seq<Task>, t: Task)
    ensures Load(ts + [t]) == Load(ts) + Steps(t.kind)
  {
    if ts == [] {
      assert [t][1..] == [] && ts + [t] == [t];
    } else {
      LoadAdd(ts[1..], t);
      assert (ts + [t])[1..] == ts[1..] + [t];
    }
  }

  function RunLeft(x: Worker): nat {
    if x.running == None then 0
    else if x.stage == Busy then Steps(x.running.value.kind) - 1
    else if x.stage == Handing then 2
    else 1
  }

  function Left(s: State): nat {
    |s.transit| + Load(s.transit) + Load(s.pro.queue) + RunLeft(s.pro) + Load(s.dpc.queue) + RunLeft(s.dpc)
  }

  /** A step of a worker, or of a task on its way to one; nothing new comes in and no task is lost on its way. */
  predicate Ordinary(e: Event) {
    e.Enqueue? || e.Start? || e.HandOff? || e.Detach? || e.SyncDone? || e.Finish?
  }

  /** What a worker does next with the task it runs. */
  function Onward(w: Which, x: Worker): Event
    requires x.running.Some?
  {
    if x.stage == Handing then Detach(w)
    else if x.stage == Busy && x.running.value.kind == Fsync then SyncDone(w)
    else if x.stage == Busy && x.running.value.kind == Recover then HandOff(w)
    else Finish(w)
  }

  /** What to do next: run what is running, then what is queued, then queue what is on its way. */
  function Next(s: State): Event
    requires !Quiet(s)
  {
    if s.pro.running.Some? then Onward(Pro, s.pro)
    else if s.dpc.running.Some? then Onward(Dpc, s.dpc)
    else if s.pro.queue != [] then Start(Pro)
    else if s.dpc.queue != [] then Start(Dpc)
    else Enqueue(0, if s.transit[0].kind == Fsync || s.transit[0].kind == Recover then Dpc else Pro)
  }

  /** The step can be taken, leaves less to do, and loses no fsync token. */
  predicate Forward(s: State, e: Event) {
    Ordinary(e) && Enabled(s, e) && Left(Apply(s, e)) < Left(s) && Apply(s, e).next == s.next
    && Apply(s, e).leaked == s.leaked
  }

  lemma {:induction false} OnwardLess(s: State, w: Which)
    requires Get(s, w).running.Some? && Fine(w, Get(s, w))
    ensures Forward(s, Onward(w, Get(s, w)))
  {
    if Onward(w, Get(s, w)).HandOff? { HandOffLess(s, w); }
  }

  lemma {:induction false} HandOffLess(s: State, w: Which)
    requires Enabled(s, HandOff(w))
    ensures Forward(s, HandOff(w))
  {
    var t := Get(s, w).running.value;
    LoadAdd(s.transit, Task(t.rid, t.link, Recover2));
  }

  lemma {:induction false} StartLess(s: State, w: Which)
    requires Get(s, w).running == None && Get(s, w).queue != []
    ensures Forward(s, Start(w))
  {
  }

  lemma {:induction false} EnqueueLess(s: State, w: Which)
    requires s.transit != [] && Routed(s.transit[0].kind, w) && Get(s, w).pending < MAX_PENDING
    ensures Forward(s, Enqueue(0, w))
  {
    assert Without(s.transit, 0) == s.transit[1..];
    LoadAdd(Get(s, w).queue, s.transit[0]);
  }

  lemma {:induction false} NextLess(s: State)
    requires Inv(s) && Apart(s) && !Quiet(s)
    ensures Forward(s, Next(s))
  {
    if s.pro.running.Some? {
      OnwardLess(s, Pro);
    } else if s.dpc.running.Some? {
      OnwardLess(s, Dpc);
    } else if s.pro.queue != [] {
      StartLess(s, Pro);
    } else if s.dpc.queue != [] {
      StartLess(s, Dpc);
    } else {
      EnqueueLess(s, Next(s).w);
    }
  }

  // ---- Whole runs ----

  predicate AllOrdinary(es: seq<Event>) {
    forall i :: 0 <= i < |es| ==> Ordinary(es[i])
  }

  /** The run that does what is next until nothing is left. */
  ghost function Drain(s: State): (es: seq<Event>)
    requires Inv(s) && Apart(s)
    decreases Left(s)
  {
    if Quiet(s) then [] else
    NextLess(s);
    StepKeeps(s, Next(s));
    ApartKept(s, Next(s));
    [Next(s)] + Drain(Apply(s, Next(s)))
  }

  lemma {:induction false} AfterFirst(s: State, e: Event, es: seq<Event>)
    requires Enabled(s, e)
    ensures After(s, [e] + es) == After(Apply(s, e), es)
    decreases |es|
  {
    if es == [] {
      assert [e] + es == [e] && [e][..0] == [];
    } else {
      var n := |es| - 1;
      AfterFirst(s, e, es[..n]);
      AfterLast(s, [e] + es, [e] + es[..n], es[n]);
    }
  }

  lemma {:induction false} AfterLast(s: State, all: seq<Event>, front: seq<Event>, e: Event)
    requires all != [] && all[..|all| - 1] == front && all[|all| - 1] == e
    ensures After(s, all) == if Enabled(After(s, front), e) then Apply(After(s, front), e) else After(s, front)
  {
  }

  lemma {:induction false} PossibleFirst(s: State, e: Event, es: seq<Event>)
    requires Enabled(s, e) && Possible(Apply(s, e), es)
    ensures Possible(s, [e] + es)
  {
    var all := [e] + es;
    forall n | 0 <= n < |all| ensures Enabled(After(s, all[..n]), all[n]) {
      if n > 0 {
        AfterFirst(s, e, es[..n - 1]);
        assert all[..n] == [e] + es[..n - 1];
      }
    }
  }

  /** Every step of it is possible, and afterwards nothing is left to do. */
  lemma {:induction false} Drains(s: State)
    requires Inv(s) && Apart(s)
    ensures Possible(s, Drain(s)) && AllOrdinary(Drain(s))
    ensures var s' := After(s, Drain(s)); Quiet(s') && s'.next == s.next && s'.leaked == s.leaked
    decreases Left(s)
  {
    if !Quiet(s) {
      NextLess(s);
      var e := Next(s);
      var s' := Apply(s, e);
      StepKeeps(s, e);
      ApartKept(s, e);
      Drains(s');
      AfterFirst(s, e, Drain(s'));
      PossibleFirst(s, e, Drain(s'));
    }
  }

  lemma {:induction false} AfterBoth(s: State, a: seq<Event>, b: seq<Event>)
    ensures After(s, a + b) == After(After(s, a), b)
    decreases |b|
  {
    if b == [] {
      assert a + b == a;
    } else {
      var n := |b| - 1;
      AfterBoth(s, a, b[..n]);
      assert (a + b)[..|a + b| - 1] == a + b[..n];
    }
  }

  /**
   Whatever has happened so far, ordinary steps alone lead to a state with no work left, in which every request
   admitted has been answered once, every window is empty and no fsync token has been lost on the way.
   */
  lemma {:induction false} CanAnswerAll(es: seq<Event>)
    ensures Inv(After(INIT, es)) && Apart(After(INIT, es))
    ensures var s := After(INIT, es);
      var s' := After(s, Drain(s));
      && Possible(s, Drain(s)) && AllOrdinary(Drain(s)) && Quiet(s') && s'.leaked == s.leaked
      && (forall r :: 0 <= r < s.next ==> Times(s'.answered, r) == 1)
      && (forall l :: l in s'.windows ==> s'.windows[l] == 0)
  {
    Reached(es);
    ApartAfter(es);
    var s := After(INIT, es);
    Drains(s);
    AfterBoth(INIT, es, Drain(s));
    AllAnswered(es + Drain(s));
  }
}
