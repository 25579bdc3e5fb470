/** Bounded retries.  `_dlq_attempts` never passes DLQ_MAX_ATTEMPTS in any list, and in a run
    without crashes a message of a chat with k branches is processed at most
    1 + k + ... + k^DLQ_MAX_ATTEMPTS times, although every failing branch pushes its own copy.
    The proof is a potential: what the copies of a message may still cost. */
module QueueRetries {
  import opened Wrappers
  import opened QueueModel
  import opened QueueLocks

  function Power(k: nat, n: nat): nat {
    if n == 0 then 1 else k * Power(k, n - 1)
  }

  /** 1 + k + ... + k^(n-1) */
  function PowerSum(k: nat, n: nat): nat {
    if n == 0 then 0 else PowerSum(k, n - 1) + Power(k, n - 1)
  }

  /** Processings a copy with `attempts` attempts can still cause, its own included. */
  function Cost(c: Config, chat: Chat, attempts: nat): nat
    decreases c.maxAttempts + 1 - attempts
  {
    if attempts > c.maxAttempts then 0 else 1 + |c.Branches(chat)| * Cost(c, chat, attempts + 1)
  }

  lemma {:induction false} PowerSumShift(k: nat, n: nat)
    ensures PowerSum(k, n + 1) == 1 + k * PowerSum(k, n)
  {
    if n > 0 {
      PowerSumShift(k, n - 1);
      Distribute(k, PowerSum(k, n - 1), Power(k, n - 1));
    }
  }

  lemma Distribute(k: nat, a: nat, b: nat)
    ensures k * (a + b) == k * a + k * b
  {
  }

  lemma {:induction false} CostIsPowerSum(c: Config, chat: Chat, attempts: nat)
    requires attempts <= c.maxAttempts + 1
    ensures Cost(c, chat, attempts) == PowerSum(|c.Branches(chat)|, c.maxAttempts + 1 - attempts)
    decreases c.maxAttempts + 1 - attempts
  {
    if attempts <= c.maxAttempts {
      CostIsPowerSum(c, chat, attempts + 1);
      PowerSumShift(|c.Branches(chat)|, c.maxAttempts - attempts);
    }
  }

  function CopyCost(c: Config, copy: Copy, id: Id): nat {
    if copy.id == id then Cost(c, copy.chat, copy.attempts) else 0
  }

  function EntryCost(c: Config, e: Entry, id: Id): nat {
    if e.copy.id == id then Cost(c, e.copy.chat, e.attempts + 1) else 0
  }

  function WorkerCost(c: Config, worker: Worker, id: Id): nat {
    if worker.Idle? || worker.Finished? || worker.copy.id != id then 0
    else if worker.Waiting? then Cost(c, worker.copy.chat, worker.copy.attempts)
    else (if worker.Looking? then |c.Branches(worker.copy.chat)| else |worker.todo|)
         * Cost(c, worker.copy.chat, worker.copy.attempts + 1)
  }

  function QueueCost(c: Config, copies: seq<Copy>, id: Id): nat {
    if copies == [] then 0 else CopyCost(c, copies[0], id) + QueueCost(c, copies[1..], id)
  }

  function DlqCost(c: Config, entries: seq<Entry>, id: Id): nat {
    if entries == [] then 0 else EntryCost(c, entries[0], id) + DlqCost(c, entries[1..], id)
  }

  function WorkersCost(c: Config, workers: seq<Worker>, id: Id): nat {
    if workers == [] then 0 else WorkerCost(c, workers[0], id) + WorkersCost(c, workers[1..], id)
  }

  lemma {:induction false} QueueCostLast(c: Config, copies: seq<Copy>, id: Id)
    requires copies != []
    ensures QueueCost(c, copies, id) ==
            QueueCost(c, copies[..|copies| - 1], id) + CopyCost(c, copies[|copies| - 1], id)
  {
    if |copies| > 1 {
      QueueCostLast(c, copies[1..], id);
      assert copies[..|copies| - 1][1..] == copies[1..][..|copies[1..]| - 1];
    }
  }

  lemma {:induction false} DlqCostLast(c: Config, entries: seq<Entry>, id: Id)
    requires entries != []
    ensures DlqCost(c, entries, id) ==
            DlqCost(c, entries[..|entries| - 1], id) + EntryCost(c, entries[|entries| - 1], id)
  {
    if |entries| > 1 {
      DlqCostLast(c, entries[1..], id);
      assert entries[..|entries| - 1][1..] == entries[1..][..|entries[1..]| - 1];
    }
  }

  lemma {:induction false} WorkersCostUpdate(c: Config, workers: seq<Worker>, w: nat, worker: Worker, id: Id)
    requires w < |workers|
    ensures WorkersCost(c, workers[w := worker], id) ==
            WorkersCost(c, workers, id) - WorkerCost(c, workers[w], id) + WorkerCost(c, worker, id)
  {
    var updated := workers[w := worker];
    if w == 0 {
      assert updated[1..] == workers[1..];
    } else {
      assert updated[1..] == workers[1..][w - 1 := worker];
      WorkersCostUpdate(c, workers[1..], w - 1, worker, id);
    }
  }

  lemma {:induction false} WorkersCostIdle(c: Config, workers: seq<Worker>, id: Id)
    requires forall w :: 0 <= w < |workers| ==> workers[w].Idle?
    ensures WorkersCost(c, workers, id) == 0
  {
    if workers != [] { WorkersCostIdle(c, workers[1..], id); }
  }

  /** All that the copies of `id` may still cost. */
  function Potential(c: Config, s: State, id: Id): nat {
    QueueCost(c, s.queue, id) + WorkersCost(c, s.workers, id) + DlqCost(c, s.dlq, id)
    + if s.hand.Some? then EntryCost(c, s.hand.value, id) else 0
  }

  function Budget(c: Config, h: History, id: Id): nat {
    if h.Empty? then 0
    else Budget(c, h.before, id) + if h.event.Enqueued? && h.event.id == id then Cost(c, h.event.chat, 0) else 0
  }

  lemma InsideCost(c: Config, s: State, step: Step, id: Id)
    requires step.Inside() && Enabled(c, s, step)
    ensures Potential(c, Next(c, s, step), id) <= Potential(c, s, id)
    ensures Starts(Next(c, s, step).history, id) == Starts(s.history, id)
    ensures Budget(c, Next(c, s, step).history, id) == Budget(c, s.history, id)
  {
    InsideShape(c, s, step);
    var s', w := Next(c, s, step), step.w;
    WorkersCostUpdate(c, s.workers, w, s'.workers[w], id);
    WorkerPays(c, s, step, id);
  }

  /** A branch that raises pays for its DLQ copy; every other branch only gets cheaper. */
  lemma WorkerPays(c: Config, s: State, step: Step, id: Id)
    requires step.Inside() && Enabled(c, s, step)
    requires step.w < |s.workers| == |Next(c, s, step).workers|
    ensures var s' := Next(c, s, step);
            WorkerCost(c, s'.workers[step.w], id) + DlqCost(c, s'.dlq, id)
            <= WorkerCost(c, s.workers[step.w], id) + DlqCost(c, s.dlq, id)
  {
    var s', worker := Next(c, s, step), s.workers[step.w];
    var next := Cost(c, worker.copy.chat, worker.copy.attempts + 1);
    if step.LoadFailed? {
      assert s'.dlq[1..] == s.dlq;
      AtLeastOnce(|c.Branches(worker.copy.chat)|, next);
    } else if step.Raise? {
      assert s'.dlq[1..] == s.dlq;
      OneFewer(|worker.todo|, next);
    } else if step.DedupSkip? || step.Record? || step.SkipBranch? {
      OneFewer(|worker.todo|, next);
    }
  }

  lemma AtLeastOnce(k: nat, x: nat)
    requires k >= 1
    ensures k * x >= x
  {
  }

  lemma OneFewer(n: nat, x: nat)
    requires n >= 1
    ensures n * x == (n - 1) * x + x
  {
  }

  lemma WorkerStepCost(c: Config, s: State, step: Step, id: Id)
    requires step.Pop? || step.Acquire? || step.Finish? || step.Remove?
    requires Enabled(c, s, step)
    requires step.Acquire? ==> s.workers[step.w].copy.attempts <= c.maxAttempts
    ensures var s' := Next(c, s, step);
            Starts(s'.history, id) + Potential(c, s', id) == Starts(s.history, id) + Potential(c, s, id)
  {
    var s', w := Next(c, s, step), step.w;
    WorkersCostUpdate(c, s.workers, w, s'.workers[w], id);
    if step.Pop? { QueueCostLast(c, s.queue, id); }
  }

  lemma PublishCost(c: Config, s: State, step: Step, id: Id)
    requires step.Publish? && Enabled(c, s, step)
    ensures var s' := Next(c, s, step);
            && Starts(s'.history, id) == Starts(s.history, id)
            && Potential(c, s', id) + Budget(c, s.history, id) == Potential(c, s, id) + Budget(c, s'.history, id)
  {
    var s' := Next(c, s, step);
    if s' != s { assert s'.queue[1..] == s.queue; }
  }

  lemma DlqStepCost(c: Config, s: State, step: Step, id: Id)
    requires step.Tick? || step.DlqPop? || step.DlqPlace? || step.CancelDlq?
    requires Enabled(c, s, step)
    ensures var s' := Next(c, s, step);
            && Starts(s'.history, id) == Starts(s.history, id) && Budget(c, s'.history, id) == Budget(c, s.history, id)
            && Potential(c, s', id) <= Potential(c, s, id)
  {
    assert Next(c, s, step).history == s.history;
    match step
    case DlqPop => PopCost(c, s, id);
    case DlqPlace => PlaceCost(c, s, id);
    case Tick => IdleCost(c, s, step, id);
    case CancelDlq => IdleCost(c, s, step, id);
  }

  lemma PopCost(c: Config, s: State, id: Id)
    requires Enabled(c, s, DlqPop)
    ensures Potential(c, Next(c, s, DlqPop), id) <= Potential(c, s, id)
  {
    DlqCostLast(c, s.dlq, id);
  }

  lemma IdleCost(c: Config, s: State, step: Step, id: Id)
    requires (step.Tick? || step.CancelDlq?) && Enabled(c, s, step)
    ensures Potential(c, Next(c, s, step), id) <= Potential(c, s, id)
  {
  }

  lemma PlaceCost(c: Config, s: State, id: Id)
    requires Enabled(c, s, DlqPlace)
    ensures Potential(c, Next(c, s, DlqPlace), id) <= Potential(c, s, id)
  {
    var s' := Next(c, s, DlqPlace);
    if s'.queue != s.queue { assert s'.queue[1..] == s.queue; }
  }

  /** No list ever carries more attempts than the limit, and only exhausted entries are dead. */
  ghost predicate AttemptsOk(c: Config, s: State) {
    && (forall copy :: copy in s.queue || copy in s.processing ==> copy.attempts <= c.maxAttempts)
    && (forall w :: 0 <= w < |s.workers| && !s.workers[w].Idle? ==> s.workers[w].copy.attempts <= c.maxAttempts)
    && (forall e :: e in s.dlq || s.hand == Some(e) ==> e.attempts <= c.maxAttempts)
    && (forall e :: e in s.dead ==> e.attempts == c.maxAttempts)
  }

  lemma AttemptsInside(c: Config, s: State, step: Step)
    requires AttemptsOk(c, s) && step.Inside() && Enabled(c, s, step)
    ensures AttemptsOk(c, Next(c, s, step))
  {
    InsideShape(c, s, step);
    var s' := Next(c, s, step);
    assert forall e :: e in s'.dlq ==> e in s.dlq || e.attempts == s.workers[step.w].copy.attempts;
  }

  lemma AttemptsLists(c: Config, s: State, step: Step)
    requires AttemptsOk(c, s) && Enabled(c, s, step)
    requires step.Publish? || step.DlqPop? || step.DlqPlace? || step.RecoverPush? || step.RecoverRemove?
    ensures AttemptsOk(c, Next(c, s, step))
  {
    match step
    case RecoverRemove => RemoveFirstSubset(s.processing, s.processing[0]);
    case DlqPlace => AttemptsPlace(c, s);
    case _ =>
  }

  lemma AttemptsPlace(c: Config, s: State)
    requires AttemptsOk(c, s) && Enabled(c, s, DlqPlace)
    ensures AttemptsOk(c, Next(c, s, DlqPlace))
  {
  }

  lemma AttemptsStep(c: Config, s: State, step: Step)
    requires AttemptsOk(c, s) && Enabled(c, s, step)
    ensures AttemptsOk(c, Next(c, s, step))
  {
    if step.Inside() {
      AttemptsInside(c, s, step);
    } else {
      match step
      case Remove(w) => RemoveFirstSubset(s.processing, s.workers[w].copy);
      case Pop(_) =>
      case Acquire(_) =>
      case Finish(_) =>
      case Tick =>
      case CancelDlq =>
      case Crash =>
      case RecoverDone =>
      case _ => AttemptsLists(c, s, step);
    }
  }

  lemma {:induction false} AttemptsAlways(c: Config, s: State, steps: seq<Step>)
    requires AttemptsOk(c, s) && Allowed(c, s, steps)
    ensures AttemptsOk(c, After(c, s, steps))
    decreases |steps|
  {
    if steps != [] {
      AttemptsStep(c, s, steps[0]);
      AttemptsAlways(c, Next(c, s, steps[0]), steps[1..]);
    }
  }

  /** Over every run, crashes included: nothing in the queue has more than DLQ_MAX_ATTEMPTS
      attempts, and an entry is parked as dead only after exactly that many. */
  lemma AttemptsAreCapped(c: Config, workers: nat, steps: seq<Step>)
    requires Allowed(c, Init(workers), steps)
    ensures var s := After(c, Init(workers), steps);
            && (forall copy :: copy in s.queue ==> copy.attempts <= c.maxAttempts)
            && (forall e :: e in s.dead ==> e.attempts == c.maxAttempts)
  {
    AttemptsAlways(c, Init(workers), steps);
  }

  lemma CostStep(c: Config, s: State, step: Step, id: Id)
    requires AttemptsOk(c, s) && s.serving && !step.Crash? && Enabled(c, s, step)
    requires Starts(s.history, id) + Potential(c, s, id) <= Budget(c, s.history, id)
    ensures Next(c, s, step).serving
    ensures var s' := Next(c, s, step); Starts(s'.history, id) + Potential(c, s', id) <= Budget(c, s'.history, id)
  {
    if step.Inside() {
      InsideCost(c, s, step, id);
    } else if step.Pop? || step.Acquire? || step.Finish? || step.Remove? {
      WorkerStepCost(c, s, step, id);
    } else if step.Publish? {
      PublishCost(c, s, step, id);
    } else {
      DlqStepCost(c, s, step, id);
    }
  }

  lemma {:induction false} CostAlways(c: Config, s: State, steps: seq<Step>, id: Id)
    requires AttemptsOk(c, s) && s.serving && Allowed(c, s, steps) && Crash !in steps
    requires Starts(s.history, id) + Potential(c, s, id) <= Budget(c, s.history, id)
    ensures var s' := After(c, s, steps); Starts(s'.history, id) + Potential(c, s', id) <= Budget(c, s'.history, id)
    decreases |steps|
  {
    if steps != [] {
      AttemptsStep(c, s, steps[0]);
      CostStep(c, s, steps[0], id);
      CostAlways(c, Next(c, s, steps[0]), steps[1..], id);
    }
  }

  /** What has been processed plus what the copies still in the system can cost never exceeds
      the budget of the enqueues. */
  lemma ProcessingIsBounded(c: Config, workers: nat, steps: seq<Step>, id: Id)
    requires Allowed(c, Init(workers), steps) && Crash !in steps
    ensures var s := After(c, Init(workers), steps);
            Starts(s.history, id) + Potential(c, s, id) <= Budget(c, s.history, id)
  {
    WorkersCostIdle(c, Init(workers).workers, id);
    CostAlways(c, Init(workers), steps, id);
  }

  lemma {:induction false} BudgetOfOne(c: Config, h: History, id: Id, chat: Chat)
    requires forall other :: EnqueuedIn(h, id, other) ==> other == chat
    ensures Budget(c, h, id) == Enqueues(h, id) * Cost(c, chat, 0)
  {
    if h.Then? {
      assert forall other :: EnqueuedIn(h.before, id, other) ==> EnqueuedIn(h, id, other);
      BudgetOfOne(c, h.before, id, chat);
      if h.event.Enqueued? && h.event.id == id {
        assert EnqueuedIn(h, id, h.event.chat);
        OneFewer(Enqueues(h, id), Cost(c, chat, 0));
      }
    }
  }

  /** A message enqueued once, in a chat with k branches, is processed at most
      1 + k + ... + k^DLQ_MAX_ATTEMPTS times. */
  lemma RetriesAreBounded(c: Config, workers: nat, steps: seq<Step>, id: Id, chat: Chat)
    requires Allowed(c, Init(workers), steps) && Crash !in steps
    requires var h := After(c, Init(workers), steps).history;
             Enqueues(h, id) == 1 && forall other :: EnqueuedIn(h, id, other) ==> other == chat
    ensures Starts(After(c, Init(workers), steps).history, id) <= PowerSum(|c.Branches(chat)|, c.maxAttempts + 1)
  {
    ProcessingIsBounded(c, workers, steps, id);
    BudgetOfOne(c, After(c, Init(workers), steps).history, id, chat);
    CostIsPowerSum(c, chat, 0);
  }
}
