/** At-most-once delivery with its exact crash bound.  It rests on re-emits being prompt
    (PromptStep): the dedup key then admits one unmarked copy of a message, and every copy that
    appears later carries `_dlq_attempts` or `_requeued`, so its run reads the delivered pairs first. */
module QueueDelivery {
  import opened Wrappers
  import opened QueueModel
  import opened QueueLocks
  import opened QueueTrace
  import opened QueueRows
  import opened QueueAccount

  function IdCount(copies: seq<Copy>, id: Id): nat {
    if copies == [] then 0 else (if copies[0].id == id then 1 else 0) + IdCount(copies[1..], id)
  }

  lemma {:induction false} IdCountAppend(a: seq<Copy>, b: seq<Copy>, id: Id)
    ensures IdCount(a + b, id) == IdCount(a, id) + IdCount(b, id)
  {
    if a == [] {
      assert a + b == b;
    } else {
      assert (a + b)[1..] == a[1..] + b;
      IdCountAppend(a[1..], b, id);
    }
  }

  lemma {:induction false} IdCountRemove(copies: seq<Copy>, x: Copy, id: Id)
    ensures x.id != id ==> IdCount(RemoveFirst(copies, x), id) == IdCount(copies, id)
  {
    if copies != [] && copies[0] != x { IdCountRemove(copies[1..], x, id); }
  }

  lemma {:induction false} IdCountMember(copies: seq<Copy>, x: Copy)
    requires x in copies
    ensures IdCount(copies, x.id) >= 1
    ensures Occurs(copies, x) <= IdCount(copies, x.id)
  {
    if copies[0] == x {
      if x in copies[1..] { IdCountMember(copies[1..], x); } else { OccursIn(copies[1..], x); }
    } else {
      IdCountMember(copies[1..], x);
    }
  }

  lemma {:induction false} IdCountTwo(copies: seq<Copy>, x: Copy, y: Copy)
    requires x in copies && y in copies && x != y && x.id == y.id
    ensures IdCount(copies, x.id) >= 2
  {
    if copies[0] == x { IdCountMember(copies[1..], y); }
    else if copies[0] == y { IdCountMember(copies[1..], x); }
    else { IdCountTwo(copies[1..], x, y); }
  }

  lemma {:induction false} HeldTwice(workers: seq<Worker>, v: nat, w: nat)
    requires v < w < |workers| && !workers[v].Idle? && !workers[w].Idle? && workers[v].copy == workers[w].copy
    ensures HeldBy(workers, workers[v].copy) >= 2
  {
    if v == 0 { HeldByPositive(workers[1..], w - 1); } else { HeldTwice(workers[1..], v - 1, w - 1); }
  }

  lemma TwoHolders(s: State, v: nat, w: nat)
    requires Base(s) && s.serving && v < |s.workers| && w < |s.workers| && v != w
    requires !s.workers[v].Idle? && !s.workers[w].Idle? && s.workers[v].copy.id == s.workers[w].copy.id
    ensures IdCount(s.processing, s.workers[v].copy.id) >= 2
  {
    var x, y := s.workers[v].copy, s.workers[w].copy;
    InFlight(s, v);
    InFlight(s, w);
    if x == y {
      if v < w { HeldTwice(s.workers, v, w); } else { HeldTwice(s.workers, w, v); }
      IdCountMember(s.processing, x);
    } else {
      IdCountTwo(s.processing, x, y);
    }
  }

  lemma IdentifiedStep(c: Config, s: State, step: Step)
    requires Identified(s) && Enabled(c, s, step) && PromptStep(s, step)
    ensures Identified(Next(c, s, step))
  {
    TracedStep(c, s, step);
    PromptEnqueues(c, s, step);
  }

  // Freshness: an unmarked copy still to be started is the only copy of its message.

  ghost predicate Fresh(s: State, copy: Copy) {
    IdCount(s.queue, copy.id) + IdCount(s.processing, copy.id) == 1 && !HasStarted(s.history, copy.id)
  }

  ghost predicate OneUnmarked(s: State) {
    && (forall copy :: copy in s.queue && !copy.Marked() ==> Fresh(s, copy))
    && (forall w :: 0 <= w < |s.workers| && s.workers[w].Waiting? && !s.workers[w].copy.Marked() ==>
          Fresh(s, s.workers[w].copy))
  }

  lemma PublishFresh(c: Config, s: State, step: Step)
    requires Identified(s) && OneUnmarked(s) && step.Publish? && PromptStep(s, step)
    ensures OneUnmarked(Next(c, s, step))
  {
    var s' := Next(c, s, step);
    if s' != s {
      assert step.id !in s.dedup;
      assert !WasEnqueued(s.history, step.id);
      assert s'.queue[1..] == s.queue;
      NoCopies(s, s.queue, step.id);
      NoCopies(s, s.processing, step.id);
      forall w | 0 <= w < |s'.workers| && s'.workers[w].Waiting? && !s'.workers[w].copy.Marked()
        ensures Fresh(s', s'.workers[w].copy)
      {
        InFlight(s, w);
      }
    }
  }

  lemma {:induction false} NoCopies(s: State, copies: seq<Copy>, id: Id)
    requires forall copy :: copy in copies ==> Known(s.history, copy)
    requires forall id, chat :: EnqueuedIn(s.history, id, chat) ==> id in s.dedup
    requires id !in s.dedup
    ensures IdCount(copies, id) == 0
  {
    if copies != [] {
      assert copies[0] in copies && Known(s.history, copies[0]);
      NoCopies(s, copies[1..], id);
    }
  }

  lemma PopFresh(c: Config, s: State, w: nat)
    requires OneUnmarked(s) && Enabled(c, s, Pop(w))
    ensures OneUnmarked(Next(c, s, Pop(w)))
  {
    var s' := Next(c, s, Pop(w));
    var copy := s.queue[|s.queue| - 1];
    forall id ensures IdCount(s'.queue, id) + IdCount(s'.processing, id) == IdCount(s.queue, id) + IdCount(s.processing, id) {
      assert s.queue == s'.queue + [copy];
      IdCountAppend(s'.queue, [copy], id);
      assert s'.processing[1..] == s.processing;
    }
    assert copy in s.queue;
  }

  lemma AcquireFresh(c: Config, s: State, w: nat)
    requires Base(s) && OneUnmarked(s) && Enabled(c, s, Acquire(w))
    ensures OneUnmarked(Next(c, s, Acquire(w)))
  {
    var s', copy := Next(c, s, Acquire(w)), s.workers[w].copy;
    InFlight(s, w);
    IdCountMember(s.processing, copy);
    forall x | x in s'.queue && !x.Marked() ensures Fresh(s', x) {
      IdCountMember(s.queue, x);
    }
    forall v | 0 <= v < |s'.workers| && s'.workers[v].Waiting? && !s'.workers[v].copy.Marked()
      ensures Fresh(s', s'.workers[v].copy)
    {
      if s.workers[v].copy.id == copy.id { TwoHolders(s, v, w); }
    }
  }

  lemma RemoveFresh(c: Config, s: State, w: nat)
    requires WorkersStarted(s) && KeysKept(s) && OneUnmarked(s) && Enabled(c, s, Remove(w))
    ensures OneUnmarked(Next(c, s, Remove(w)))
  {
    forall id ensures id != s.workers[w].copy.id ==>
                        IdCount(RemoveFirst(s.processing, s.workers[w].copy), id) == IdCount(s.processing, id)
    {
      IdCountRemove(s.processing, s.workers[w].copy, id);
    }
  }

  lemma RecoverPushFresh(c: Config, s: State)
    requires Base(s) && OneUnmarked(s) && Enabled(c, s, RecoverPush)
    ensures OneUnmarked(Next(c, s, RecoverPush))
  {
    var s', marked := Next(c, s, RecoverPush), Mark(s.processing[0]);
    forall copy | copy in s'.queue && !copy.Marked() ensures Fresh(s', copy) {
      assert copy in s.queue;
      IdCountMember(s.queue, copy);
      IdCountMember(s.processing, s.processing[0]);
      IdCountAppend(s.queue, [marked], copy.id);
    }
  }

  lemma RecoverRemoveFresh(c: Config, s: State)
    requires Base(s) && OneUnmarked(s) && Enabled(c, s, RecoverRemove)
    ensures OneUnmarked(Next(c, s, RecoverRemove))
  {
    var s' := Next(c, s, RecoverRemove);
    forall copy | copy in s'.queue && !copy.Marked() ensures Fresh(s', copy) {
      IdCountMember(s.queue, copy);
      IdCountMember(s.processing, s.processing[0]);
      IdCountRemove(s.processing, s.processing[0], copy.id);
    }
  }

  lemma InsideFresh(c: Config, s: State, step: Step)
    requires OneUnmarked(s) && step.Inside() && Enabled(c, s, step)
    ensures OneUnmarked(Next(c, s, step))
  {
    InsideShape(c, s, step);
    var s' := Next(c, s, step);
    assert forall id :: HasStarted(s'.history, id) == HasStarted(s.history, id);
  }

  lemma PlaceFresh(c: Config, s: State)
    requires EntriesStarted(s) && KeysKept(s) && OneUnmarked(s) && Enabled(c, s, DlqPlace)
    ensures OneUnmarked(Next(c, s, DlqPlace))
  {
    var s' := Next(c, s, DlqPlace);
    var e := s.hand.value;
    assert FromDlq(s, e);
    if e.attempts + 1 <= c.maxAttempts {
      var retry := e.copy.(attempts := e.attempts + 1);
      PrependMarked(s, retry);
      assert s' == s.(queue := [retry] + s.queue).(hand := None);
    }
  }

  lemma PrependMarked(s: State, marked: Copy)
    requires OneUnmarked(s) && marked.Marked() && HasStarted(s.history, marked.id)
    ensures OneUnmarked(s.(queue := [marked] + s.queue))
  {
    assert ([marked] + s.queue)[1..] == s.queue;
  }

  lemma QuietFresh(c: Config, s: State, step: Step)
    requires OneUnmarked(s) && Enabled(c, s, step)
    requires step.Tick? || step.Finish? || step.DlqPop? || step.CancelDlq? || step.Crash? || step.RecoverDone?
    ensures OneUnmarked(Next(c, s, step))
  {
    assert forall id :: HasStarted(Next(c, s, step).history, id) == HasStarted(s.history, id);
  }

  lemma FreshStep(c: Config, s: State, step: Step)
    requires Identified(s) && OneUnmarked(s) && Enabled(c, s, step) && PromptStep(s, step)
    ensures OneUnmarked(Next(c, s, step))
  {
    if step.Inside() {
      InsideFresh(c, s, step);
    } else {
      match step
      case Publish(_, _) => PublishFresh(c, s, step);
      case Pop(w) => PopFresh(c, s, w);
      case Acquire(w) => AcquireFresh(c, s, w);
      case Remove(w) => RemoveFresh(c, s, w);
      case RecoverPush => RecoverPushFresh(c, s);
      case RecoverRemove => RecoverRemoveFresh(c, s);
      case DlqPlace => PlaceFresh(c, s);
      case _ => QuietFresh(c, s, step);
    }
  }

  // Delivery: what a running worker may still send, and the exact count of accepted sends.

  ghost predicate WorkerOk(rows: Rows, worker: Worker) {
    && (worker.Looking? && !worker.copy.Marked() ==> forall b :: !IsDelivered(rows, worker.copy.id, b))
    && (worker.Running? ==>
          && Distinct(worker.todo)
          && (forall b :: b in worker.todo && b !in worker.delivered ==> !IsDelivered(rows, worker.copy.id, b))
          && (!worker.phase.Ready? ==> worker.todo != [] && worker.todo[0] !in worker.delivered))
  }

  ghost predicate Tracked(s: State) {
    && Identified(s) && OneUnmarked(s)
    && (forall w :: 0 <= w < |s.workers| ==> WorkerOk(s.rows, s.workers[w]))
  }

  lemma OthersOk(c: Config, s: State, step: Step, v: nat)
    requires Tracked(s) && step.Inside() && Enabled(c, s, step) && v < |s.workers| && v != step.w
    ensures WorkerOk(Next(c, s, step).rows, s.workers[v])
  {
    InsideShape(c, s, step);
    var s', w := Next(c, s, step), step.w;
    assert forall id, b :: id != s.workers[w].copy.id ==> IsDelivered(s'.rows, id, b) == IsDelivered(s.rows, id, b);
    if s.workers[v].HoldsLock() && s.workers[v].copy.id == s.workers[w].copy.id { OneRunPerMessage(s, v, w); }
  }

  lemma SelfOk(c: Config, s: State, step: Step)
    requires c.Valid() && Tracked(s) && step.Inside() && Enabled(c, s, step)
    requires step.w < |s.workers| == |Next(c, s, step).workers|
    ensures WorkerOk(Next(c, s, step).rows, Next(c, s, step).workers[step.w])
  {
    var s', w := Next(c, s, step), step.w;
    var worker := s.workers[w];
    assert WorkerOk(s.rows, worker);
    match step
    case Load(_) =>
      BranchesDistinct(c, worker.copy.chat);
      assert forall b :: IsDelivered(s.rows, worker.copy.id, b) ==> b in DeliveredTo(s.rows, worker.copy.id);
    case _ =>
  }

  lemma AcquireOk(c: Config, s: State, w: nat)
    requires Tracked(s) && Enabled(c, s, Acquire(w))
    ensures WorkerOk(s.rows, Looking(s.workers[w].copy))
  {
    var copy := s.workers[w].copy;
    if !copy.Marked() {
      assert Fresh(s, copy);
      assert forall b :: (copy.id, b) in s.rows ==> HasStarted(s.history, (copy.id, b).0);
    }
  }

  lemma TrackedInside(c: Config, s: State, step: Step)
    requires c.Valid() && Tracked(s) && step.Inside() && Enabled(c, s, step) && PromptStep(s, step)
    ensures var s' := Next(c, s, step); forall v :: 0 <= v < |s'.workers| ==> WorkerOk(s'.rows, s'.workers[v])
  {
    var s' := Next(c, s, step);
    InsideShape(c, s, step);
    SelfOk(c, s, step);
    forall v | 0 <= v < |s'.workers| ensures WorkerOk(s'.rows, s'.workers[v]) {
      if v != step.w { OthersOk(c, s, step, v); }
    }
  }

  lemma TrackedOutside(c: Config, s: State, step: Step)
    requires Tracked(s) && !step.Inside() && Enabled(c, s, step)
    ensures var s' := Next(c, s, step); forall v :: 0 <= v < |s'.workers| ==> WorkerOk(s'.rows, s'.workers[v])
  {
    if step.Acquire? { AcquireOk(c, s, step.w); }
  }

  lemma TrackedStep(c: Config, s: State, step: Step)
    requires c.Valid() && Tracked(s) && Enabled(c, s, step) && PromptStep(s, step)
    ensures Tracked(Next(c, s, step))
  {
    IdentifiedStep(c, s, step);
    FreshStep(c, s, step);
    if step.Inside() {
      TrackedInside(c, s, step);
    } else {
      TrackedOutside(c, s, step);
    }
  }

  lemma TrackedInit(workers: nat)
    ensures Tracked(Init(workers))
  {
    BaseInit(workers);
  }

  lemma {:induction false} TrackedAlways(c: Config, s: State, steps: seq<Step>)
    requires c.Valid() && Tracked(s) && Allowed(c, s, steps) && Prompt(c, s, steps)
    ensures Tracked(After(c, s, steps))
    decreases |steps|
  {
    if steps != [] {
      TrackedStep(c, s, steps[0]);
      TrackedAlways(c, Next(c, s, steps[0]), steps[1..]);
    }
  }

  /** A prompt run sends nothing that is delivered, so it records nothing twice. */
  lemma {:induction false} PromptNeverRepeats(c: Config, s: State, steps: seq<Step>, id: Id, b: Branch)
    requires c.Valid() && Tracked(s) && Allowed(c, s, steps) && Prompt(c, s, steps)
    ensures Repeats(c, s, steps, id, b) == 0
    decreases |steps|
  {
    if steps != [] {
      if steps[0].Record? && AtBranch(s, steps[0].w) { assert WorkerOk(s.rows, s.workers[steps[0].w]); }
      TrackedStep(c, s, steps[0]);
      PromptNeverRepeats(c, Next(c, s, steps[0]), steps[1..], id, b);
    }
  }

  /** The exact account of accepted sends of one message to one pair, over every prompt run:
      the delivered row, every crash that caught a send before its record, and the send that is
      being recorded right now.  So at most one send, plus those crashes. */
  lemma AtMostOnce(c: Config, workers: nat, steps: seq<Step>, id: Id, b: Branch)
    requires c.Valid() && Allowed(c, Init(workers), steps) && Prompt(c, Init(workers), steps)
    ensures var s := After(c, Init(workers), steps);
            && Sends(s.history, id, b) <= 1 + CrashesInDoubt(s.history, id, b)
            && Sends(s.history, id, b) ==
               (if IsDelivered(s.rows, id, b) then 1 else 0) + CrashesInDoubt(s.history, id, b)
               + if (id, b) in InDoubt(s.workers) then 1 else 0
  {
    TrackedInit(workers);
    TrackedAlways(c, Init(workers), steps);
    PromptNeverRepeats(c, Init(workers), steps, id, b);
    SendsAreAccounted(c, workers, steps, id, b);
    var s := After(c, Init(workers), steps);
    if (id, b) in InDoubt(s.workers) {
      var w :| 0 <= w < |s.workers| && s.workers[w].Running? && s.workers[w].phase.Sent? && s.workers[w].phase.ok
               && s.workers[w].todo != [] && (id, b) == (s.workers[w].copy.id, s.workers[w].todo[0]);
      assert WorkerOk(s.rows, s.workers[w]);
    }
  }

  /** A queued unmarked copy is the only copy of its message anywhere, and nothing has been done
      for that message yet. */
  lemma UnmarkedIsAlone(c: Config, workers: nat, steps: seq<Step>, copy: Copy)
    requires c.Valid() && Allowed(c, Init(workers), steps) && Prompt(c, Init(workers), steps)
    requires copy in After(c, Init(workers), steps).queue && !copy.Marked()
    ensures var s := After(c, Init(workers), steps);
            && IdCount(s.queue, copy.id) + IdCount(s.processing, copy.id) == 1
            && !HasStarted(s.history, copy.id)
            && (forall e :: e in s.dlq || s.hand == Some(e) || e in s.dead ==> e.copy.id != copy.id)
            && (forall b :: (copy.id, b) !in s.rows)
  {
    TrackedInit(workers);
    TrackedAlways(c, Init(workers), steps);
    var s := After(c, Init(workers), steps);
    assert Fresh(s, copy);
    assert forall e :: e in s.dlq || s.hand == Some(e) || e in s.dead ==> FromDlq(s, e);
    assert forall b :: (copy.id, b) in s.rows ==> HasStarted(s.history, (copy.id, b).0);
  }

  lemma InsideKeepsDelivered(c: Config, s: State, step: Step, id: Id, b: Branch)
    requires step.Inside() && Enabled(c, s, step) && step.w < |s.workers| && WorkerOk(s.rows, s.workers[step.w])
    requires IsDelivered(s.rows, id, b)
    ensures IsDelivered(Next(c, s, step).rows, id, b)
    ensures Sends(Next(c, s, step).history, id, b) == Sends(s.history, id, b)
  {
  }

  lemma DeliveredStep(c: Config, s: State, step: Step, id: Id, b: Branch)
    requires Tracked(s) && Enabled(c, s, step) && IsDelivered(s.rows, id, b)
    ensures IsDelivered(Next(c, s, step).rows, id, b)
    ensures Sends(Next(c, s, step).history, id, b) == Sends(s.history, id, b)
  {
    if step.Inside() {
      InsideShape(c, s, step);
      InsideKeepsDelivered(c, s, step, id, b);
    } else {
      OutsideIsQuiet(c, s, step, id, b);
    }
  }

  /** From a delivered row on, the message is never sent to that pair again in the rest of a
      prompt run, crashes or not; that the row itself stays needs no promptness (QueueRows). */
  lemma {:induction false} DeliveredIsFinal(c: Config, s: State, steps: seq<Step>, id: Id, b: Branch)
    requires c.Valid() && Tracked(s) && Allowed(c, s, steps) && Prompt(c, s, steps) && IsDelivered(s.rows, id, b)
    ensures IsDelivered(After(c, s, steps).rows, id, b)
    ensures Sends(After(c, s, steps).history, id, b) == Sends(s.history, id, b)
    decreases |steps|
  {
    if steps != [] {
      DeliveredStep(c, s, steps[0], id, b);
      TrackedStep(c, s, steps[0]);
      DeliveredIsFinal(c, Next(c, s, steps[0]), steps[1..], id, b);
    }
  }

  /** What a prompt run delivered, no continuation sends again. */
  lemma DeliveredIsNotResent(c: Config, workers: nat, steps: seq<Step>, more: seq<Step>, id: Id, b: Branch)
    requires c.Valid() && Allowed(c, Init(workers), steps) && Prompt(c, Init(workers), steps)
    requires Allowed(c, After(c, Init(workers), steps), more) && Prompt(c, After(c, Init(workers), steps), more)
    requires IsDelivered(After(c, Init(workers), steps).rows, id, b)
    ensures var s := After(c, Init(workers), steps); var s' := After(c, s, more);
            IsDelivered(s'.rows, id, b) && Sends(s'.history, id, b) == Sends(s.history, id, b)
  {
    TrackedInit(workers);
    TrackedAlways(c, Init(workers), steps);
    DeliveredIsFinal(c, After(c, Init(workers), steps), more, id, b);
  }
}
