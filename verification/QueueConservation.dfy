/** What is lost, exactly: a branch of an enqueued message is settled, or a copy that still owes it
    is in one of the four lists, with a worker or in the DLQ loop's hand, in every state of every
    run, crashes and recovery included, until that loop is stopped holding the only such copy. */
module QueueConservation {
  import opened Wrappers
  import opened QueueModel
  import opened QueueLocks

  predicate Settled(rows: Rows, id: Id, b: Branch) {
    (id, b) in rows && !rows[(id, b)].Pending?
  }

  predicate Owes(c: Config, copy: Copy, id: Id, b: Branch) {
    copy.id == id && IsDue(c, copy.chat, b)
  }

  ghost predicate SomeCopy(c: Config, copies: seq<Copy>, id: Id, b: Branch) {
    exists copy :: copy in copies && Owes(c, copy, id, b)
  }

  ghost predicate SomeEntry(c: Config, entries: seq<Entry>, id: Id, b: Branch) {
    exists e :: e in entries && Owes(c, e.copy, id, b)
  }

  predicate InHand(c: Config, s: State, id: Id, b: Branch) {
    s.hand.Some? && Owes(c, s.hand.value.copy, id, b)
  }

  /** What Redis and the table alone say of a branch. */
  ghost predicate Visible(c: Config, s: State, id: Id, b: Branch) {
    || Settled(s.rows, id, b)
    || SomeCopy(c, s.queue, id, b) || SomeCopy(c, s.processing, id, b)
    || SomeEntry(c, s.dlq, id, b) || SomeEntry(c, s.dead, id, b)
    || InHand(c, s, id, b)
  }

  /** Worker `worker` has not passed branch (id, b) yet. */
  predicate WorkerOwes(c: Config, worker: Worker, id: Id, b: Branch) {
    if worker.Waiting? || worker.Looking? then Owes(c, worker.copy, id, b)
    else worker.Running? && worker.copy.id == id && b in worker.todo && b !in worker.delivered
  }

  ghost predicate AtWork(c: Config, s: State, id: Id, b: Branch) {
    if s.serving then exists w :: 0 <= w < |s.workers| && WorkerOwes(c, s.workers[w], id, b)
    else SomeCopy(c, s.processing, id, b)
  }

  /** Everything but the hand that accounts for a branch; an in-flight copy counts only while its
      worker still owes it. */
  ghost predicate Carried(c: Config, s: State, id: Id, b: Branch) {
    || Settled(s.rows, id, b)
    || SomeCopy(c, s.queue, id, b) || AtWork(c, s, id, b)
    || SomeEntry(c, s.dlq, id, b) || SomeEntry(c, s.dead, id, b)
  }

  ghost predicate Safe(c: Config, s: State, id: Id, b: Branch) {
    Carried(c, s, id, b) || InHand(c, s, id, b)
  }

  /** The step stops the DLQ loop while the entry in its hand alone accounts for the branch: nothing
      else carries it and, at a crash, recovery finds no copy in `messages:processing` either. */
  ghost predicate Loses(c: Config, s: State, step: Step, id: Id, b: Branch) {
    && (step.Crash? || step.CancelDlq?)
    && InHand(c, s, id, b) && !Carried(c, s, id, b)
    && (step.Crash? ==> !SomeCopy(c, s.processing, id, b))
  }

  ghost predicate RunsOwnBranches(c: Config, s: State) {
    forall w, b :: 0 <= w < |s.workers| && s.workers[w].Running? && b in s.workers[w].todo ==>
      IsDue(c, s.workers[w].copy.chat, b)
  }

  ghost predicate Sane(c: Config, s: State) {
    Base(s) && RunsOwnBranches(c, s)
  }

  lemma InsideKeepsBranches(c: Config, s: State, step: Step)
    requires RunsOwnBranches(c, s) && step.Inside() && Enabled(c, s, step)
    ensures RunsOwnBranches(c, Next(c, s, step))
  {
    forall b ensures b in c.Branches(s.workers[step.w].copy.chat) <==> IsDue(c, s.workers[step.w].copy.chat, b) {
      BranchesAreDue(c, s.workers[step.w].copy.chat, b);
    }
  }

  /** A worker inside _process_message hands its branch on: to the row, or to the DLQ. */
  lemma InsideSafe(c: Config, s: State, step: Step, id: Id, b: Branch)
    requires Base(s) && RunsOwnBranches(c, s) && step.Inside() && Enabled(c, s, step) && Safe(c, s, id, b)
    ensures Safe(c, Next(c, s, step), id, b)
  {
    InsideShape(c, s, step);
    var s', w := Next(c, s, step), step.w;
    var before, after := s.workers[w], s'.workers[w];
    assert s.serving;
    assert s'.dlq == s.dlq || s'.dlq[1..] == s.dlq;
    assert forall e :: e in s.dlq ==> e in s'.dlq;
    if SomeEntry(c, s.dlq, id, b) {
    } else if AtWork(c, s, id, b) {
      var v :| 0 <= v < |s.workers| && WorkerOwes(c, s.workers[v], id, b);
      if v != w {
        assert WorkerOwes(c, s'.workers[v], id, b);
      } else if !WorkerOwes(c, after, id, b) {
        HandsOn(c, s, step, id, b);
      } else {
        assert WorkerOwes(c, s'.workers[w], id, b);
      }
    }
  }

  lemma HandsOn(c: Config, s: State, step: Step, id: Id, b: Branch)
    requires RunsOwnBranches(c, s) && step.Inside() && Enabled(c, s, step)
    requires step.w < |s.workers| == |Next(c, s, step).workers|
    requires WorkerOwes(c, s.workers[step.w], id, b) && !WorkerOwes(c, Next(c, s, step).workers[step.w], id, b)
    ensures Settled(Next(c, s, step).rows, id, b) || SomeEntry(c, Next(c, s, step).dlq, id, b)
  {
    var s', worker := Next(c, s, step), s.workers[step.w];
    match step
    case LoadFailed(_) => assert Entry(worker.copy, worker.copy.attempts) in s'.dlq;
    case Raise(_) => assert Entry(worker.copy, worker.copy.attempts) in s'.dlq;
    case Load(_) =>
      BranchesAreDue(c, worker.copy.chat, b);
      assert b in DeliveredTo(s.rows, id);
    case _ =>
  }

  lemma OutsideSafe(c: Config, s: State, step: Step, id: Id, b: Branch)
    requires Base(s) && RunsOwnBranches(c, s) && !step.Inside() && !step.Crash? && !step.CancelDlq?
    requires Enabled(c, s, step) && Safe(c, s, id, b)
    ensures Safe(c, Next(c, s, step), id, b)
  {
    var s' := Next(c, s, step);
    match step
    case Publish(_, _) => assert s'.queue == s.queue || s'.queue[1..] == s.queue;
    case Pop(w) => PopSafe(c, s, w, id, b);
    case Acquire(w) => StillAtWork(c, s, s', w, id, b);
    case Finish(w) => StillAtWork(c, s, s', w, id, b);
    case Remove(w) => StillAtWork(c, s, s', w, id, b);
    case DlqPop =>
      assert forall e :: e in s.dlq ==> e in s'.dlq || s'.hand == Some(e);
    case DlqPlace => PlaceSafe(c, s, id, b);
    case RecoverPush => assert forall copy :: copy in s.queue ==> copy in s'.queue;
    case RecoverRemove =>
      assert Mark(s.processing[0]) in s'.queue;
      if Owes(c, s.processing[0], id, b) { assert Owes(c, Mark(s.processing[0]), id, b); }
      assert forall copy :: copy in s.processing ==> copy == s.processing[0] || copy in s'.processing;
    case RecoverDone =>
    case Tick =>
  }

  lemma StillAtWork(c: Config, s: State, s': State, w: nat, id: Id, b: Branch)
    requires s.serving && s'.serving && w < |s.workers| == |s'.workers|
    requires s'.workers == s.workers[w := s'.workers[w]]
    requires WorkerOwes(c, s.workers[w], id, b) ==> WorkerOwes(c, s'.workers[w], id, b)
    ensures AtWork(c, s, id, b) ==> AtWork(c, s', id, b)
  {
    if AtWork(c, s, id, b) {
      var v :| 0 <= v < |s.workers| && WorkerOwes(c, s.workers[v], id, b);
      assert WorkerOwes(c, s'.workers[v], id, b);
    }
  }

  lemma PopSafe(c: Config, s: State, w: nat, id: Id, b: Branch)
    requires Enabled(c, s, Pop(w)) && Safe(c, s, id, b)
    ensures Safe(c, Next(c, s, Pop(w)), id, b)
  {
    var s' := Next(c, s, Pop(w));
    StillAtWork(c, s, s', w, id, b);
    if SomeCopy(c, s.queue, id, b) && !SomeCopy(c, s'.queue, id, b) {
      assert forall copy :: copy in s.queue ==> copy in s'.queue || copy == s'.workers[w].copy;
      assert WorkerOwes(c, s'.workers[w], id, b);
    }
  }

  lemma PlaceSafe(c: Config, s: State, id: Id, b: Branch)
    requires Enabled(c, s, DlqPlace) && Safe(c, s, id, b)
    ensures Safe(c, Next(c, s, DlqPlace), id, b)
  {
    var s', e := Next(c, s, DlqPlace), s.hand.value;
    if e.attempts + 1 > c.maxAttempts {
      EntryJoins(c, e, s.dead, id, b);
    } else {
      CopyJoins(c, e.copy.(attempts := e.attempts + 1), s.queue, id, b);
    }
  }

  lemma CopyJoins(c: Config, copy: Copy, copies: seq<Copy>, id: Id, b: Branch)
    ensures SomeCopy(c, copies, id, b) || Owes(c, copy, id, b) ==> SomeCopy(c, [copy] + copies, id, b)
  {
    assert copy in [copy] + copies;
    assert forall x :: x in copies ==> x in [copy] + copies;
  }

  lemma EntryJoins(c: Config, e: Entry, entries: seq<Entry>, id: Id, b: Branch)
    ensures SomeEntry(c, entries, id, b) || Owes(c, e.copy, id, b) ==> SomeEntry(c, [e] + entries, id, b)
  {
    assert e in [e] + entries;
    assert forall x :: x in entries ==> x in [e] + entries;
  }

  /** A crash leaves what a worker had to do in the in-flight list. */
  lemma CrashSafe(c: Config, s: State, id: Id, b: Branch)
    requires Base(s) && RunsOwnBranches(c, s) && Safe(c, s, id, b)
    ensures !Safe(c, Next(c, s, Crash), id, b) <==> Loses(c, s, Crash, id, b)
  {
    var s' := Next(c, s, Crash);
    if AtWork(c, s, id, b) { WorkIsInFlight(c, s, id, b); }
    assert AtWork(c, s', id, b) == SomeCopy(c, s.processing, id, b);
  }

  lemma CancelSafe(c: Config, s: State, id: Id, b: Branch)
    requires Safe(c, s, id, b)
    ensures !Safe(c, Next(c, s, CancelDlq), id, b) <==> Loses(c, s, CancelDlq, id, b)
  {
    assert AtWork(c, Next(c, s, CancelDlq), id, b) == AtWork(c, s, id, b);
  }

  lemma WorkIsInFlight(c: Config, s: State, id: Id, b: Branch)
    requires Base(s) && RunsOwnBranches(c, s) && AtWork(c, s, id, b)
    ensures SomeCopy(c, s.processing, id, b)
  {
    if s.serving {
      var w :| 0 <= w < |s.workers| && WorkerOwes(c, s.workers[w], id, b);
      HeldByPositive(s.workers, w);
      OccursIn(s.processing, s.workers[w].copy);
    }
  }

  lemma NewMessageSafe(c: Config, s: State, step: Step, id: Id, chat: Chat, b: Branch)
    requires Enabled(c, s, step) && IsDue(c, chat, b)
    requires !EnqueuedIn(s.history, id, chat) && EnqueuedIn(Next(c, s, step).history, id, chat)
    ensures Safe(c, Next(c, s, step), id, b)
  {
    var s' := Next(c, s, step);
    assert step == Publish(id, chat);
    assert s'.queue[0] in s'.queue && Owes(c, s'.queue[0], id, b);
  }

  lemma SaneStep(c: Config, s: State, step: Step)
    requires Sane(c, s) && Enabled(c, s, step)
    ensures Sane(c, Next(c, s, step))
  {
    BaseStep(c, s, step);
    if step.Inside() { InsideKeepsBranches(c, s, step); }
  }

  lemma {:induction false} SaneAlways(c: Config, s: State, steps: seq<Step>)
    requires Sane(c, s) && Allowed(c, s, steps)
    ensures Sane(c, After(c, s, steps))
    decreases |steps|
  {
    if steps != [] {
      SaneStep(c, s, steps[0]);
      SaneAlways(c, Next(c, s, steps[0]), steps[1..]);
    }
  }

  /** One step: a branch that is accounted for stops being so exactly when the step loses it. */
  lemma LostIff(c: Config, s: State, step: Step, id: Id, b: Branch)
    requires Sane(c, s) && Enabled(c, s, step) && Safe(c, s, id, b)
    ensures !Safe(c, Next(c, s, step), id, b) <==> Loses(c, s, step, id, b)
  {
    if step.Inside() { InsideSafe(c, s, step, id, b); }
    else if step.Crash? { CrashSafe(c, s, id, b); }
    else if step.CancelDlq? { CancelSafe(c, s, id, b); }
    else { OutsideSafe(c, s, step, id, b); }
  }

  // Runs.

  /** No state of the run accounts for the branch. */
  ghost predicate NeverSafe(c: Config, s: State, steps: seq<Step>, id: Id, b: Branch)
    requires Allowed(c, s, steps)
    decreases |steps|
  {
    !Safe(c, s, id, b) && (steps != [] ==> NeverSafe(c, Next(c, s, steps[0]), steps[1..], id, b))
  }

  /** Some step of the run loses the branch, and nothing brings it back (a new enqueue does, and so
      does a crash that finds a copy in `messages:processing`). */
  ghost predicate LostForGood(c: Config, s: State, steps: seq<Step>, id: Id, b: Branch)
    requires Allowed(c, s, steps)
    decreases |steps|
  {
    steps != []
    && ((Loses(c, s, steps[0], id, b) && NeverSafe(c, Next(c, s, steps[0]), steps[1..], id, b))
        || LostForGood(c, Next(c, s, steps[0]), steps[1..], id, b))
  }

  lemma {:induction false} UnsafeHasCause(c: Config, s: State, steps: seq<Step>, id: Id, b: Branch)
    requires Sane(c, s) && Allowed(c, s, steps) && !Safe(c, After(c, s, steps), id, b)
    ensures NeverSafe(c, s, steps, id, b) || LostForGood(c, s, steps, id, b)
    decreases |steps|
  {
    if steps != [] {
      SaneStep(c, s, steps[0]);
      UnsafeHasCause(c, Next(c, s, steps[0]), steps[1..], id, b);
      if Safe(c, s, id, b) { LostIff(c, s, steps[0], id, b); }
      if NeverSafe(c, Next(c, s, steps[0]), steps[1..], id, b) { NeverSafeNow(c, Next(c, s, steps[0]), steps[1..], id, b); }
    }
  }

  lemma NeverSafeNow(c: Config, s: State, steps: seq<Step>, id: Id, b: Branch)
    requires Allowed(c, s, steps) && NeverSafe(c, s, steps, id, b)
    ensures !Safe(c, s, id, b)
  {
  }

  lemma {:induction false} NeverSafeAtEnd(c: Config, s: State, steps: seq<Step>, id: Id, b: Branch)
    requires Allowed(c, s, steps) && NeverSafe(c, s, steps, id, b)
    ensures !Safe(c, After(c, s, steps), id, b)
    decreases |steps|
  {
    if steps != [] { NeverSafeAtEnd(c, Next(c, s, steps[0]), steps[1..], id, b); }
  }

  lemma {:induction false} LostIsUnsafe(c: Config, s: State, steps: seq<Step>, id: Id, b: Branch)
    requires Allowed(c, s, steps) && LostForGood(c, s, steps, id, b)
    ensures !Safe(c, After(c, s, steps), id, b)
    decreases |steps|
  {
    var s' := Next(c, s, steps[0]);
    if LostForGood(c, s', steps[1..], id, b) {
      LostIsUnsafe(c, s', steps[1..], id, b);
    } else {
      NeverSafeAtEnd(c, s', steps[1..], id, b);
    }
  }

  /** A run that enqueues the message accounts for it at least then. */
  lemma {:induction false} EnqueueIsSafe(c: Config, s: State, steps: seq<Step>, id: Id, chat: Chat, b: Branch)
    requires Allowed(c, s, steps) && IsDue(c, chat, b)
    requires !EnqueuedIn(s.history, id, chat) && EnqueuedIn(After(c, s, steps).history, id, chat)
    ensures !NeverSafe(c, s, steps, id, b)
    decreases |steps|
  {
    var s' := Next(c, s, steps[0]);
    if EnqueuedIn(s'.history, id, chat) {
      NewMessageSafe(c, s, steps[0], id, chat, b);
      if NeverSafe(c, s', steps[1..], id, b) { NeverSafeNow(c, s', steps[1..], id, b); }
    } else {
      EnqueueIsSafe(c, s', steps[1..], id, chat, b);
    }
  }

  /** Conservation over every run: any interleaving, any number of crashes, at any step.  At its end an
      enqueued message is accounted for at each of its chat's pairs, or as pair-less when the chat has
      none, unless one of the steps stopped the DLQ loop with the only copy in hand and nothing brought
      the branch back since; and then Redis and the table show it. */
  lemma NothingIsLost(c: Config, workers: nat, steps: seq<Step>, id: Id, chat: Chat, b: Branch)
    requires Allowed(c, Init(workers), steps)
    requires EnqueuedIn(After(c, Init(workers), steps).history, id, chat)
    requires if b.ForPair? then b.pair in c.pairs(chat) else c.pairs(chat) == []
    ensures Safe(c, After(c, Init(workers), steps), id, b) <==> !LostForGood(c, Init(workers), steps, id, b)
    ensures Safe(c, After(c, Init(workers), steps), id, b) ==> Visible(c, After(c, Init(workers), steps), id, b)
  {
    var s0 := Init(workers);
    BaseInit(workers);
    SaneAlways(c, s0, steps);
    if !Safe(c, After(c, s0, steps), id, b) {
      UnsafeHasCause(c, s0, steps, id, b);
      EnqueueIsSafe(c, s0, steps, id, chat, b);
    }
    if LostForGood(c, s0, steps, id, b) { LostIsUnsafe(c, s0, steps, id, b); }
    var s := After(c, s0, steps);
    if AtWork(c, s, id, b) { WorkIsInFlight(c, s, id, b); }
  }
}
