/** The queue can always drain: from every reachable state, whatever Telegram answers, there is a
    continuation without crash, failure or new message that empties every list but the dead one.
    Workers and lock lines never block one another, and recovery and the DLQ loop come to an end. */
module QueueProgress {
  import opened Wrappers
  import opened QueueModel
  import opened QueueRuns
  import opened QueueLocks
  import opened QueueConservation

  /** Nothing new, nothing fails. */
  predicate Calm(step: Step) {
    !step.Publish? && !step.Tick? && !step.Crash? && !step.CancelDlq? && !step.Raise? && !step.LoadFailed?
  }

  predicate Drained(s: State) {
    && s.serving && s.queue == [] && s.processing == [] && s.dlq == [] && s.hand == None
    && forall w :: 0 <= w < |s.workers| ==> s.workers[w].Idle?
  }

  /** Only a run with a pair gets between Ready and the end of its branch. */
  predicate PhaseOk(worker: Worker) {
    worker.Running? && !worker.phase.Ready? ==> worker.todo != [] && worker.todo[0].ForPair?
  }

  ghost predicate PhasesOk(s: State) {
    forall w :: 0 <= w < |s.workers| ==> PhaseOk(s.workers[w])
  }

  ghost predicate Lively(s: State) {
    Base(s) && PhasesOk(s) && |s.workers| > 0
  }

  lemma PhasesStep(c: Config, s: State, step: Step)
    requires PhasesOk(s) && Enabled(c, s, step)
    ensures PhasesOk(Next(c, s, step)) && |Next(c, s, step).workers| == |s.workers|
  {
    if step.Inside() { InsideShape(c, s, step); }
  }

  lemma LivelyStep(c: Config, s: State, step: Step)
    requires Lively(s) && Enabled(c, s, step)
    ensures Lively(Next(c, s, step))
  {
    BaseStep(c, s, step);
    PhasesStep(c, s, step);
  }

  lemma {:induction false} LivelyAlways(c: Config, s: State, steps: seq<Step>)
    requires Lively(s) && Allowed(c, s, steps)
    ensures Lively(After(c, s, steps))
    decreases |steps|
  {
    if steps != [] {
      LivelyStep(c, s, steps[0]);
      LivelyAlways(c, Next(c, s, steps[0]), steps[1..]);
    }
  }

  // What is left to do.

  /** Steps a worker has before it at most. */
  function Rank(c: Config, worker: Worker): nat {
    match worker
    case Idle => 0
    case Finished(_) => 1
    case Running(_, todo, _, phase) => 2 + 2 * |todo| + if phase.Sent? then 0 else 1
    case Looking(copy) => 4 + 2 * |c.Branches(copy.chat)|
    case Waiting(copy) => 5 + 2 * |c.Branches(copy.chat)|
  }

  function Work(c: Config, workers: seq<Worker>): nat {
    if workers == [] then 0 else Rank(c, workers[0]) + Work(c, workers[1..])
  }

  lemma {:induction false} WorkUpdate(c: Config, workers: seq<Worker>, w: nat, worker: Worker)
    requires w < |workers|
    ensures Work(c, workers[w := worker]) == Work(c, workers) - Rank(c, workers[w]) + Rank(c, worker)
  {
    var updated := workers[w := worker];
    if w == 0 {
      assert updated[1..] == workers[1..];
    } else {
      assert updated[1..] == workers[1..][w - 1 := worker];
      WorkUpdate(c, workers[1..], w - 1, worker);
    }
  }

  /** Commands of a recovery still to come. */
  function Recovery(s: State): nat {
    if s.serving then 0 else 2 * |s.processing| + if s.pushed && s.processing != [] then 0 else 1
  }

  /** Entries on their way through the DLQ loop. */
  function Parked(s: State): nat {
    2 * |s.dlq| + if s.hand.Some? then 1 else 0
  }

  // Workers.

  /** A worker that can move: its message is done, it holds its lock, or it heads its line. */
  predicate CanMove(s: State, v: nat) {
    v < |s.workers| && !s.workers[v].Idle?
    && (s.workers[v].Waiting? ==> Line(s.locks, s.workers[v].copy.chat) != [] && Line(s.locks, s.workers[v].copy.chat)[0] == v)
  }

  /** No deadlock: a worker that waits stands in a line whose head can move. */
  lemma SomeoneCanMove(s: State, w: nat) returns (v: nat)
    requires LocksOk(s.workers, s.locks) && w < |s.workers| && !s.workers[w].Idle?
    ensures CanMove(s, v)
  {
    if s.workers[w].Waiting? {
      var chat := s.workers[w].copy.chat;
      assert w in Line(s.locks, chat);
      v := s.locks[chat][0];
      assert InLine(s.workers, chat, 0, v);
    } else {
      v := w;
    }
  }

  type Answers = (Id, Branch) -> bool

  function Move(s: State, v: nat, answers: Answers): Step
    requires v < |s.workers|
  {
    match s.workers[v]
    case Idle => Tick
    case Waiting(_) => Acquire(v)
    case Looking(_) => Load(v)
    case Finished(_) => Remove(v)
    case Running(copy, todo, delivered, phase) =>
      if todo == [] then Finish(v)
      else if todo[0] in delivered then DedupSkip(v)
      else if phase.Sent? then Record(v)
      else if todo[0].ForPair? then Send(v, answers(copy.id, todo[0]))
      else SkipBranch(v)
  }

  lemma MoveIsEnabled(c: Config, s: State, v: nat, answers: Answers)
    requires LocksOk(s.workers, s.locks) && PhasesOk(s) && CanMove(s, v)
    ensures Enabled(c, s, Move(s, v, answers)) && Calm(Move(s, v, answers))
  {
    assert PhaseOk(s.workers[v]);
    if s.workers[v].HoldsLock() { HolderIsFirst(s, v); }
  }

  /** Steps that touch one worker, the table and the in-flight list at most. */
  ghost predicate Moves(s: State, s': State, v: nat) {
    && s'.serving == s.serving && s'.queue == s.queue && s'.dlq == s.dlq && s'.hand == s.hand
    && v < |s.workers| == |s'.workers| && s'.workers == s.workers[v := s'.workers[v]]
  }

  lemma BranchProgress(c: Config, s: State, v: nat, answers: Answers)
    requires v < |s.workers| && s.workers[v].Running? && s.workers[v].todo != [] && PhaseOk(s.workers[v])
    requires Enabled(c, s, Move(s, v, answers))
    ensures var s' := Next(c, s, Move(s, v, answers)); Moves(s, s', v) && Rank(c, s'.workers[v]) < Rank(c, s.workers[v])
  {
  }

  lemma EdgeProgress(c: Config, s: State, v: nat, answers: Answers)
    requires v < |s.workers| && !s.workers[v].Idle? && !(s.workers[v].Running? && s.workers[v].todo != [])
    requires Enabled(c, s, Move(s, v, answers))
    ensures var s' := Next(c, s, Move(s, v, answers)); Moves(s, s', v) && Rank(c, s'.workers[v]) < Rank(c, s.workers[v])
  {
  }

  /** A move brings its worker closer to the end and leaves the queue and the DLQ alone. */
  lemma MoveIsProgress(c: Config, s: State, v: nat, answers: Answers)
    requires PhasesOk(s) && CanMove(s, v) && Enabled(c, s, Move(s, v, answers))
    ensures var s' := Next(c, s, Move(s, v, answers)); Moves(s, s', v) && Rank(c, s'.workers[v]) < Rank(c, s.workers[v])
  {
    assert PhaseOk(s.workers[v]);
    if s.workers[v].Running? && s.workers[v].todo != [] { BranchProgress(c, s, v, answers); } else { EdgeProgress(c, s, v, answers); }
  }

  // The way out.

  lemma Idlers(s: State)
    requires Base(s) && s.serving && forall w :: 0 <= w < |s.workers| ==> s.workers[w].Idle?
    ensures s.processing == []
  {
    if s.processing != [] {
      OccursIn(s.processing, s.processing[0]);
      HeldByIdle(s.workers, s.processing[0]);
    }
  }

  /** What to do next, when no worker can. */
  function Forward(s: State): Step {
    if !s.serving then (if s.processing == [] then RecoverDone else if s.pushed then RecoverRemove else RecoverPush)
    else if s.queue != [] then Pop(0)
    else if s.hand.Some? then DlqPlace
    else DlqPop
  }

  lemma ForwardIsEnabled(c: Config, s: State)
    requires Lively(s) && !Drained(s) && forall w :: 0 <= w < |s.workers| ==> s.workers[w].Idle?
    ensures Enabled(c, s, Forward(s)) && Calm(Forward(s))
  {
    if s.serving { Idlers(s); }
  }

  lemma RecoveryEnds(c: Config, s: State)
    requires !s.serving && Enabled(c, s, Forward(s))
    ensures Recovery(Next(c, s, Forward(s))) < Recovery(s)
  {
  }

  lemma ListsShrink(c: Config, s: State)
    requires s.serving && Enabled(c, s, Forward(s))
    ensures var s' := Next(c, s, Forward(s));
            s'.serving && (Parked(s') < Parked(s) || (Parked(s') == Parked(s) && |s'.queue| < |s.queue|))
  {
  }

  lemma {:induction false} Drain(c: Config, s: State, answers: Answers) returns (steps: seq<Step>)
    requires Lively(s)
    ensures Allowed(c, s, steps) && Drained(After(c, s, steps)) && forall step :: step in steps ==> Calm(step)
    decreases Recovery(s), Parked(s), |s.queue|, Work(c, s.workers)
  {
    if Drained(s) { return []; }
    var step;
    if w: nat :| w < |s.workers| && !s.workers[w].Idle? {
      assert s.serving;
      var v := SomeoneCanMove(s, w);
      step := Move(s, v, answers);
      MoveIsEnabled(c, s, v, answers);
      MoveIsProgress(c, s, v, answers);
      WorkUpdate(c, s.workers, v, Next(c, s, step).workers[v]);
    } else {
      step := Forward(s);
      ForwardIsEnabled(c, s);
      if s.serving { ListsShrink(c, s); } else { RecoveryEnds(c, s); }
    }
    LivelyStep(c, s, step);
    var rest := Drain(c, Next(c, s, step), answers);
    Prepend(c, s, step, rest);
    steps := [step] + rest;
  }

  /** From every reachable state, whatever Telegram answers to what is sent, some calm continuation
      empties the queue, the in-flight list and the DLQ; and then each branch of each enqueued message is
      settled or with the dead, unless it was lost with the DLQ loop's hand. */
  lemma QueueDrains(c: Config, workers: nat, steps: seq<Step>, answers: Answers) returns (more: seq<Step>)
    requires workers > 0 && Allowed(c, Init(workers), steps)
    ensures Allowed(c, After(c, Init(workers), steps), more) && forall step :: step in more ==> Calm(step)
    ensures Allowed(c, Init(workers), steps + more)
    ensures var s := After(c, Init(workers), steps + more);
            && Drained(s)
            && forall id, chat, b :: EnqueuedIn(s.history, id, chat) && IsDue(c, chat, b) ==>
                 Settled(s.rows, id, b) || SomeEntry(c, s.dead, id, b) || LostForGood(c, Init(workers), steps + more, id, b)
  {
    BaseInit(workers);
    LivelyAlways(c, Init(workers), steps);
    more := Drain(c, After(c, Init(workers), steps), answers);
    Appended(c, Init(workers), steps, more);
    var s := After(c, Init(workers), steps + more);
    forall id, chat, b | EnqueuedIn(s.history, id, chat) && IsDue(c, chat, b)
      ensures Settled(s.rows, id, b) || SomeEntry(c, s.dead, id, b) || LostForGood(c, Init(workers), steps + more, id, b)
    {
      NothingIsLost(c, workers, steps + more, id, chat, b);
    }
  }
}
