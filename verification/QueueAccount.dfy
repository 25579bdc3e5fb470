/** The exact account of accepted sends, over every run in which a message has one lock key: late
    re-emits, retries, and crashes anywhere.  A send is the one the delivered row stands for, was
    caught by a crash before its record, is being recorded, or was recorded over a delivered row. */
module QueueAccount {
  import opened Wrappers
  import opened QueueModel
  import opened QueueLocks
  import opened QueueTrace
  import opened QueueRows

  ghost predicate Identified(s: State) {
    Traced(s) && OneChat(s.history)
  }

  // Runs that asked what was delivered.

  /** What a run of a marked copy still has to do was not delivered. */
  predicate AsksFirst(rows: Rows, worker: Worker) {
    worker.Running? ==>
      && Distinct(worker.todo)
      && (worker.copy.Marked() ==> forall b :: b in worker.todo && b !in worker.delivered ==> !IsDelivered(rows, worker.copy.id, b))
      && (!worker.phase.Ready? ==> worker.todo != [] && worker.todo[0] !in worker.delivered)
  }

  ghost predicate AllAsk(s: State) {
    forall w :: 0 <= w < |s.workers| ==> AsksFirst(s.rows, s.workers[w])
  }

  lemma OwnAsks(c: Config, s: State, step: Step)
    requires c.Valid() && step.Inside() && Enabled(c, s, step) && step.w < |s.workers| == |Next(c, s, step).workers|
    requires AsksFirst(s.rows, s.workers[step.w])
    ensures AsksFirst(Next(c, s, step).rows, Next(c, s, step).workers[step.w])
  {
    var worker := s.workers[step.w];
    if step.Load? {
      BranchesDistinct(c, worker.copy.chat);
      assert forall b :: IsDelivered(s.rows, worker.copy.id, b) ==> b in DeliveredTo(s.rows, worker.copy.id);
    }
  }

  lemma OtherAsks(c: Config, s: State, step: Step, v: nat)
    requires Identified(s) && step.Inside() && Enabled(c, s, step) && v < |s.workers| && v != step.w
    requires AsksFirst(s.rows, s.workers[v])
    ensures AsksFirst(Next(c, s, step).rows, s.workers[v])
  {
    InsideShape(c, s, step);
    if s.workers[v].Running? {
      if s.workers[v].copy.id == s.workers[step.w].copy.id { OneRunPerMessage(s, v, step.w); }
      forall b ensures IsDelivered(Next(c, s, step).rows, s.workers[v].copy.id, b) == IsDelivered(s.rows, s.workers[v].copy.id, b) {
        OtherRowsStay(c, s, step, s.workers[v].copy.id, b);
      }
    }
  }

  lemma AllAskStep(c: Config, s: State, step: Step)
    requires c.Valid() && Identified(s) && AllAsk(s) && Enabled(c, s, step)
    ensures AllAsk(Next(c, s, step))
  {
    var s' := Next(c, s, step);
    if step.Inside() {
      InsideShape(c, s, step);
      OwnAsks(c, s, step);
      forall v | 0 <= v < |s'.workers| ensures AsksFirst(s'.rows, s'.workers[v]) {
        if v != step.w { OtherAsks(c, s, step, v); }
      }
    } else {
      ListsKeepRows(c, s, step);
      ListsAsk(c, s, step);
    }
  }

  lemma ListsAsk(c: Config, s: State, step: Step)
    requires AllAsk(s) && !step.Inside() && Enabled(c, s, step)
    ensures forall v :: 0 <= v < |Next(c, s, step).workers| ==> AsksFirst(s.rows, Next(c, s, step).workers[v])
  {
  }

  // Who is in doubt.

  /** A worker that is not in doubt before or after leaves the set alone. */
  lemma SameDoubt(workers: seq<Worker>, w: nat, worker: Worker)
    requires w < |workers|
    requires !(workers[w].Running? && workers[w].phase.Sent? && workers[w].phase.ok && workers[w].todo != [])
    requires !(worker.Running? && worker.phase.Sent? && worker.phase.ok && worker.todo != [])
    ensures InDoubt(workers[w := worker]) == InDoubt(workers)
  {
    var workers' := workers[w := worker];
    forall key ensures key in InDoubt(workers') <==> key in InDoubt(workers) {
      if key in InDoubt(workers) {
        var v :| 0 <= v < |workers| && workers[v].Running? && workers[v].phase.Sent? && workers[v].phase.ok
                 && workers[v].todo != [] && key == (workers[v].copy.id, workers[v].todo[0]);
        assert workers'[v] == workers[v];
      }
      if key in InDoubt(workers') {
        var v :| 0 <= v < |workers| && workers'[v].Running? && workers'[v].phase.Sent? && workers'[v].phase.ok
                 && workers'[v].todo != [] && key == (workers'[v].copy.id, workers'[v].todo[0]);
        assert workers'[v] == workers[v];
      }
    }
  }

  lemma DoubtOf(s: State, w: nat, id: Id, b: Branch)
    requires Identified(s) && w < |s.workers| && s.workers[w].HoldsLock() && s.workers[w].copy.id == id
    ensures (id, b) in InDoubt(s.workers) <==>
            s.workers[w].Running? && s.workers[w].phase.Sent? && s.workers[w].phase.ok
            && s.workers[w].todo != [] && s.workers[w].todo[0] == b
  {
    if (id, b) in InDoubt(s.workers) {
      var v :| 0 <= v < |s.workers| && s.workers[v].Running? && s.workers[v].phase.Sent? && s.workers[v].phase.ok
               && s.workers[v].todo != [] && (id, b) == (s.workers[v].copy.id, s.workers[v].todo[0]);
      OneRunPerMessage(s, v, w);
    }
  }

  lemma DoubtOfOthers(s: State, s': State, w: nat, id: Id, b: Branch)
    requires w < |s.workers| == |s'.workers| && s'.workers == s.workers[w := s'.workers[w]]
    requires s.workers[w].HoldsLock() && s'.workers[w].HoldsLock()
    requires s.workers[w].copy.id != id && s'.workers[w].copy.id != id
    ensures (id, b) in InDoubt(s.workers) <==> (id, b) in InDoubt(s'.workers)
  {
    if (id, b) in InDoubt(s.workers) {
      var v :| 0 <= v < |s.workers| && s.workers[v].Running? && s.workers[v].phase.Sent? && s.workers[v].phase.ok
               && s.workers[v].todo != [] && (id, b) == (s.workers[v].copy.id, s.workers[v].todo[0]);
      assert s'.workers[v] == s.workers[v];
    }
    if (id, b) in InDoubt(s'.workers) {
      var v :| 0 <= v < |s.workers| && s'.workers[v].Running? && s'.workers[v].phase.Sent? && s'.workers[v].phase.ok
               && s'.workers[v].todo != [] && (id, b) == (s'.workers[v].copy.id, s'.workers[v].todo[0]);
      assert s'.workers[v] == s.workers[v];
    }
  }

  /** The message is in doubt for `b` exactly while its one run is between send and record. */
  lemma OwnDoubt(s: State, w: nat, b: Branch)
    requires Identified(s) && w < |s.workers| && s.workers[w].HoldsLock()
    ensures var worker := s.workers[w];
            (worker.copy.id, b) in InDoubt(s.workers) <==>
            worker.Running? && worker.phase.Sent? && worker.phase.ok && worker.todo != [] && worker.todo[0] == b
  {
    DoubtOf(s, w, s.workers[w].copy.id, b);
  }

  /** Only steps inside _process_message write rows or send. */
  lemma OutsideIsQuiet(c: Config, s: State, step: Step, id: Id, b: Branch)
    requires !step.Inside() && Enabled(c, s, step)
    ensures Next(c, s, step).rows == s.rows && Sends(Next(c, s, step).history, id, b) == Sends(s.history, id, b)
  {
  }

  /** Outside _process_message only a crash changes who is in doubt, and it counts them. */
  lemma OutsideDoubt(c: Config, s: State, step: Step)
    requires !step.Inside() && Enabled(c, s, step)
    ensures InDoubt(Next(c, s, step).workers) == if step.Crash? then {} else InDoubt(s.workers)
  {
    match step
    case Pop(w) => SameDoubt(s.workers, w, Next(c, s, step).workers[w]);
    case Acquire(w) => SameDoubt(s.workers, w, Looking(s.workers[w].copy));
    case Finish(w) => SameDoubt(s.workers, w, Finished(s.workers[w].copy));
    case Remove(w) => SameDoubt(s.workers, w, Idle);
    case Crash => assert InDoubt(Next(c, s, step).workers) == {};
    case _ =>
  }

  lemma OutsideCount(c: Config, s: State, step: Step, id: Id, b: Branch)
    requires !step.Inside() && Enabled(c, s, step)
    ensures CrashesInDoubt(Next(c, s, step).history, id, b)
         == CrashesInDoubt(s.history, id, b) + if step.Crash? && (id, b) in InDoubt(s.workers) then 1 else 0
  {
  }

  lemma InsideCrashes(c: Config, s: State, step: Step, id: Id, b: Branch)
    requires step.Inside() && Enabled(c, s, step)
    ensures CrashesInDoubt(Next(c, s, step).history, id, b) == CrashesInDoubt(s.history, id, b)
  {
  }

  // The account.

  function Doubt(s: State, id: Id, b: Branch): nat {
    if (id, b) in InDoubt(s.workers) then 1 else 0
  }

  /** The step records an accepted send of (id, b) although its row is delivered already. */
  predicate Repeating(s: State, step: Step, id: Id, b: Branch) {
    step.Record? && AtBranch(s, step.w) && s.workers[step.w].phase.Sent? && s.workers[step.w].phase.ok
    && (s.workers[step.w].copy.id, s.workers[step.w].todo[0]) == (id, b) && IsDelivered(s.rows, id, b)
  }

  /** How often a run does. */
  function Repeats(c: Config, s: State, steps: seq<Step>, id: Id, b: Branch): nat
    requires Allowed(c, s, steps)
    decreases |steps|
  {
    if steps == [] then 0
    else (if Repeating(s, steps[0], id, b) then 1 else 0) + Repeats(c, Next(c, s, steps[0]), steps[1..], id, b)
  }

  ghost predicate Account(s: State, id: Id, b: Branch, repeats: nat) {
    && Sends(s.history, id, b) ==
       (if IsDelivered(s.rows, id, b) then 1 else 0) + CrashesInDoubt(s.history, id, b) + Doubt(s, id, b) + repeats
    && (repeats > 0 ==> IsDelivered(s.rows, id, b))
  }

  ghost predicate Watched(s: State) {
    Traced(s) && RowsGuarded(s) && AllAsk(s)
  }

  lemma WatchedStep(c: Config, s: State, step: Step)
    requires c.Valid() && Watched(s) && OneChat(s.history) && Enabled(c, s, step)
    ensures Watched(Next(c, s, step))
  {
    TracedStep(c, s, step);
    GuardedStep(c, s, step);
    AllAskStep(c, s, step);
  }

  lemma WatchedInit(workers: nat)
    ensures Watched(Init(workers))
  {
    TracedInit(workers);
  }

  lemma OwnAccount(c: Config, s: State, step: Step, b: Branch, repeats: nat)
    requires step.Inside() && Enabled(c, s, step) && step.w < |s.workers| && Identified(s) && Identified(Next(c, s, step))
    requires AsksFirst(s.rows, s.workers[step.w]) && Account(s, s.workers[step.w].copy.id, b, repeats)
    requires !Overwrites(s, step, s.workers[step.w].copy.id, b) || !IsDelivered(s.rows, s.workers[step.w].copy.id, b)
    ensures Account(Next(c, s, step), s.workers[step.w].copy.id, b,
                    repeats + if Repeating(s, step, s.workers[step.w].copy.id, b) then 1 else 0)
  {
    InsideShape(c, s, step);
    OwnDoubt(s, step.w, b);
    OwnDoubt(Next(c, s, step), step.w, b);
    InsideCrashes(c, s, step, s.workers[step.w].copy.id, b);
  }

  lemma OtherAccount(c: Config, s: State, step: Step, id: Id, b: Branch, repeats: nat)
    requires step.Inside() && Enabled(c, s, step) && step.w < |s.workers| && s.workers[step.w].copy.id != id
    requires Account(s, id, b, repeats)
    ensures Account(Next(c, s, step), id, b, repeats) && !Repeating(s, step, id, b)
  {
    InsideShape(c, s, step);
    DoubtOfOthers(s, Next(c, s, step), step.w, id, b);
    OtherRowsStay(c, s, step, id, b);
  }

  lemma OutsideAccount(c: Config, s: State, step: Step, id: Id, b: Branch, repeats: nat)
    requires !step.Inside() && Enabled(c, s, step) && Account(s, id, b, repeats)
    ensures Account(Next(c, s, step), id, b, repeats)
  {
    OutsideIsQuiet(c, s, step, id, b);
    OutsideCount(c, s, step, id, b);
    OutsideDoubt(c, s, step);
  }

  lemma AccountStep(c: Config, s: State, step: Step, id: Id, b: Branch, repeats: nat)
    requires Enabled(c, s, step) && Watched(s) && Identified(s) && Identified(Next(c, s, step)) && Account(s, id, b, repeats)
    ensures Account(Next(c, s, step), id, b, repeats + if Repeating(s, step, id, b) then 1 else 0)
  {
    if step.Inside() {
      InsideShape(c, s, step);
      if s.workers[step.w].copy.id != id {
        OtherAccount(c, s, step, id, b, repeats);
      } else {
        if IsDelivered(s.rows, id, b) { GuardedHolds(s, step, id, b); }
        OwnAccount(c, s, step, b, repeats);
      }
    } else {
      OutsideAccount(c, s, step, id, b, repeats);
    }
  }

  lemma {:induction false} AccountAlways(c: Config, s: State, steps: seq<Step>, id: Id, b: Branch, repeats: nat)
    requires c.Valid() && Watched(s) && Account(s, id, b, repeats) && Allowed(c, s, steps) && OneChat(After(c, s, steps).history)
    ensures Watched(After(c, s, steps)) && Account(After(c, s, steps), id, b, repeats + Repeats(c, s, steps, id, b))
    decreases |steps|
  {
    if steps != [] {
      OneChatBefore(c, s, steps);
      OneChatBefore(c, Next(c, s, steps[0]), steps[1..]);
      WatchedStep(c, s, steps[0]);
      AccountStep(c, s, steps[0], id, b, repeats);
      AccountAlways(c, Next(c, s, steps[0]), steps[1..], id, b, repeats + if Repeating(s, steps[0], id, b) then 1 else 0);
    }
  }

  /** Accepted sends of one message to one pair, exactly: the delivered row, the crashes that caught a
      send before its record, the send being recorded, and those recorded over a delivered row. */
  lemma SendsAreAccounted(c: Config, workers: nat, steps: seq<Step>, id: Id, b: Branch)
    requires c.Valid() && Allowed(c, Init(workers), steps) && OneChat(After(c, Init(workers), steps).history)
    ensures var s := After(c, Init(workers), steps);
            && Sends(s.history, id, b) ==
               (if IsDelivered(s.rows, id, b) then 1 else 0) + CrashesInDoubt(s.history, id, b)
               + (if (id, b) in InDoubt(s.workers) then 1 else 0) + Repeats(c, Init(workers), steps, id, b)
            && (Repeats(c, Init(workers), steps, id, b) > 0 ==> IsDelivered(s.rows, id, b))
  {
    WatchedInit(workers);
    AccountAlways(c, Init(workers), steps, id, b, 0);
  }

  /** The run of an unmarked copy, which did not ask what was delivered, is at `b` and Telegram accepts. */
  predicate SendsUnasked(s: State, step: Step, id: Id, b: Branch) {
    step.Send? && step.ok && AtBranch(s, step.w)
    && (s.workers[step.w].copy.id, s.workers[step.w].todo[0]) == (id, b) && !s.workers[step.w].copy.Marked()
  }

  lemma ResendStep(c: Config, s: State, step: Step, id: Id, b: Branch)
    requires AllAsk(s) && Enabled(c, s, step) && IsDelivered(s.rows, id, b)
    ensures Sends(Next(c, s, step).history, id, b) == Sends(s.history, id, b) + if SendsUnasked(s, step, id, b) then 1 else 0
  {
    if step.Inside() {
      InsideShape(c, s, step);
      assert AsksFirst(s.rows, s.workers[step.w]);
    } else {
      OutsideIsQuiet(c, s, step, id, b);
    }
  }

  /** What is delivered is sent again exactly by the run of an unmarked copy: at-most-once fails there
      and nowhere else. */
  lemma ResentIff(c: Config, workers: nat, steps: seq<Step>, step: Step, id: Id, b: Branch)
    requires c.Valid() && Allowed(c, Init(workers), steps) && OneChat(After(c, Init(workers), steps).history)
    requires Enabled(c, After(c, Init(workers), steps), step) && IsDelivered(After(c, Init(workers), steps).rows, id, b)
    ensures var s := After(c, Init(workers), steps);
            Sends(Next(c, s, step).history, id, b) > Sends(s.history, id, b) <==> SendsUnasked(s, step, id, b)
  {
    WatchedInit(workers);
    AccountAlways(c, Init(workers), steps, id, b, 0);
    ResendStep(c, After(c, Init(workers), steps), step, id, b);
  }
}
