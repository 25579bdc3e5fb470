/** Where messages go: over every run, rows and sends are of a message and a pair of a chat it was
    enqueued in, and a run passes a pair over exactly when it asked and the pair has the message. */
module QueueFanOut {
  import opened Wrappers
  import opened QueueModel
  import opened QueueLocks
  import opened QueueTrace
  import opened QueueRows
  import opened QueueConservation
  import opened QueueAccount
  import opened QueueProgress

  /** Message `id` was enqueued in a chat that has branch `b`. */
  ghost predicate DueIn(c: Config, h: History, id: Id, b: Branch) {
    exists chat :: EnqueuedIn(h, id, chat) && IsDue(c, chat, b)
  }

  /** Only the row of a chat without pairs is `skipped`. */
  ghost predicate RowsOnTarget(c: Config, s: State) {
    forall id, b :: (id, b) in s.rows ==> DueIn(c, s.history, id, b) && (s.rows[(id, b)].Skipped? <==> b.PairLess?)
  }

  ghost predicate SendsOnTarget(c: Config, s: State) {
    forall id, b :: Sends(s.history, id, b) > 0 ==> b.ForPair? && DueIn(c, s.history, id, b)
  }

  ghost predicate OnTarget(c: Config, s: State) {
    Traced(s) && RunsOwnBranches(c, s) && PhasesOk(s) && RowsOnTarget(c, s) && SendsOnTarget(c, s)
  }

  lemma StillDue(c: Config, s: State, step: Step, id: Id, b: Branch)
    requires Enabled(c, s, step) && DueIn(c, s.history, id, b)
    ensures DueIn(c, Next(c, s, step).history, id, b)
  {
    var chat :| EnqueuedIn(s.history, id, chat) && IsDue(c, chat, b);
    assert EnqueuedIn(Next(c, s, step).history, id, chat);
  }

  /** The branch a worker is at belongs to a chat of its message. */
  lemma FrontIsDue(c: Config, s: State, w: nat)
    requires Traced(s) && RunsOwnBranches(c, s) && AtBranch(s, w)
    ensures DueIn(c, s.history, s.workers[w].copy.id, s.workers[w].todo[0])
  {
    InFlight(s, w);
    assert Known(s.history, s.workers[w].copy);
    assert s.workers[w].todo[0] in s.workers[w].todo;
  }

  lemma WritesAtFront(c: Config, s: State, step: Step, id: Id, b: Branch)
    requires step.Inside() && Enabled(c, s, step) && step.w < |s.workers| && PhaseOk(s.workers[step.w])
    ensures var s' := Next(c, s, step);
            (id, b) in s'.rows && ((id, b) !in s.rows || s'.rows[(id, b)] != s.rows[(id, b)]) ==>
              AtBranch(s, step.w) && (id, b) == (s.workers[step.w].copy.id, s.workers[step.w].todo[0])
              && (s'.rows[(id, b)].Skipped? <==> b.PairLess?)
  {
  }

  lemma SendsAtFront(c: Config, s: State, step: Step, id: Id, b: Branch)
    requires step.Inside() && Enabled(c, s, step) && step.w < |s.workers|
    ensures Sends(Next(c, s, step).history, id, b) > Sends(s.history, id, b) ==>
              AtBranch(s, step.w) && (id, b) == (s.workers[step.w].copy.id, s.workers[step.w].todo[0]) && b.ForPair?
  {
  }

  lemma InsideOnTarget(c: Config, s: State, step: Step)
    requires OnTarget(c, s) && step.Inside() && Enabled(c, s, step)
    ensures RowsOnTarget(c, Next(c, s, step)) && SendsOnTarget(c, Next(c, s, step))
  {
    var s' := Next(c, s, step);
    InsideShape(c, s, step);
    assert PhaseOk(s.workers[step.w]);
    if AtBranch(s, step.w) { FrontIsDue(c, s, step.w); }
    forall id, b | (id, b) in s'.rows ensures DueIn(c, s'.history, id, b) && (s'.rows[(id, b)].Skipped? <==> b.PairLess?) {
      WritesAtFront(c, s, step, id, b);
      StillDue(c, s, step, id, b);
    }
    forall id, b | Sends(s'.history, id, b) > 0 ensures b.ForPair? && DueIn(c, s'.history, id, b) {
      SendsAtFront(c, s, step, id, b);
      StillDue(c, s, step, id, b);
    }
  }

  lemma OutsideOnTarget(c: Config, s: State, step: Step)
    requires OnTarget(c, s) && !step.Inside() && Enabled(c, s, step)
    ensures RowsOnTarget(c, Next(c, s, step)) && SendsOnTarget(c, Next(c, s, step))
  {
    var s' := Next(c, s, step);
    forall id, b ensures s'.rows == s.rows && Sends(s'.history, id, b) == Sends(s.history, id, b) {
      OutsideIsQuiet(c, s, step, id, b);
    }
    forall id, b | DueIn(c, s.history, id, b) ensures DueIn(c, s'.history, id, b) { StillDue(c, s, step, id, b); }
  }

  lemma OnTargetStep(c: Config, s: State, step: Step)
    requires OnTarget(c, s) && Enabled(c, s, step)
    ensures OnTarget(c, Next(c, s, step))
  {
    TracedStep(c, s, step);
    PhasesStep(c, s, step);
    if step.Inside() {
      InsideKeepsBranches(c, s, step);
      InsideOnTarget(c, s, step);
    } else {
      OutsideOnTarget(c, s, step);
    }
  }

  lemma {:induction false} OnTargetAlways(c: Config, s: State, steps: seq<Step>)
    requires OnTarget(c, s) && Allowed(c, s, steps)
    ensures OnTarget(c, After(c, s, steps))
    decreases |steps|
  {
    if steps != [] {
      OnTargetStep(c, s, steps[0]);
      OnTargetAlways(c, Next(c, s, steps[0]), steps[1..]);
    }
  }

  /** Over every run, crashes and re-emits included: what was sent was sent to a pair of a chat the
      message was enqueued in; so is every row, and only a chat without pairs has a `skipped` one. */
  lemma NothingGoesAstray(c: Config, workers: nat, steps: seq<Step>, id: Id, b: Branch)
    requires Allowed(c, Init(workers), steps)
    ensures var s := After(c, Init(workers), steps);
            && (Sends(s.history, id, b) > 0 ==> b.ForPair? && exists chat :: EnqueuedIn(s.history, id, chat) && b.pair in c.pairs(chat))
            && ((id, b) in s.rows && b.ForPair? ==>
                  s.rows[(id, b)] != Skipped && exists chat :: EnqueuedIn(s.history, id, chat) && b.pair in c.pairs(chat))
            && ((id, b) in s.rows && b.PairLess? ==>
                  s.rows[(id, b)] == Skipped && exists chat :: EnqueuedIn(s.history, id, chat) && c.pairs(chat) == [])
  {
    TracedInit(workers);
    OnTargetAlways(c, Init(workers), steps);
    var s := After(c, Init(workers), steps);
    if DueIn(c, s.history, id, b) {
      var chat :| EnqueuedIn(s.history, id, chat) && IsDue(c, chat, b);
      assert if b.ForPair? then b.pair in c.pairs(chat) else c.pairs(chat) == [];
    }
  }

  // What a run passes over.

  /** What a run passes over is delivered, and it asked. */
  predicate PassesOver(rows: Rows, worker: Worker) {
    worker.Running? ==> forall b :: b in worker.delivered ==> worker.copy.Marked() && IsDelivered(rows, worker.copy.id, b)
  }

  ghost predicate AllPassOver(s: State) {
    forall w :: 0 <= w < |s.workers| ==> PassesOver(s.rows, s.workers[w])
  }

  lemma OwnPassesOver(c: Config, s: State, step: Step)
    requires step.Inside() && Enabled(c, s, step) && step.w < |s.workers| == |Next(c, s, step).workers|
    requires PassesOver(s.rows, s.workers[step.w])
    ensures PassesOver(Next(c, s, step).rows, Next(c, s, step).workers[step.w])
  {
    var worker, s' := s.workers[step.w], Next(c, s, step);
    if step.Load? {
      assert forall b :: b in DeliveredTo(s.rows, worker.copy.id) ==> IsDelivered(s.rows, worker.copy.id, b);
    } else if worker.Running? {
      forall b | b in worker.delivered ensures IsDelivered(s'.rows, worker.copy.id, b) {
        DeliveredLostIff(c, s, step, worker.copy.id, b);
      }
    }
  }

  lemma PassOverStep(c: Config, s: State, step: Step)
    requires Identified(s) && AllPassOver(s) && Enabled(c, s, step)
    ensures AllPassOver(Next(c, s, step))
  {
    var s' := Next(c, s, step);
    if step.Inside() {
      InsideShape(c, s, step);
      OwnPassesOver(c, s, step);
      forall v | 0 <= v < |s'.workers| && v != step.w ensures PassesOver(s'.rows, s'.workers[v]) {
        OtherPassesOver(c, s, step, v);
      }
    } else {
      ListsKeepRows(c, s, step);
      ListsPassOver(c, s, step);
    }
  }

  lemma OtherPassesOver(c: Config, s: State, step: Step, v: nat)
    requires Identified(s) && step.Inside() && Enabled(c, s, step) && v < |s.workers| && v != step.w
    requires PassesOver(s.rows, s.workers[v])
    ensures PassesOver(Next(c, s, step).rows, s.workers[v])
  {
    InsideShape(c, s, step);
    if s.workers[v].Running? {
      if s.workers[v].copy.id == s.workers[step.w].copy.id { OneRunPerMessage(s, v, step.w); }
      forall b ensures IsDelivered(Next(c, s, step).rows, s.workers[v].copy.id, b) == IsDelivered(s.rows, s.workers[v].copy.id, b) {
        OtherRowsStay(c, s, step, s.workers[v].copy.id, b);
      }
    }
  }

  lemma ListsPassOver(c: Config, s: State, step: Step)
    requires AllPassOver(s) && !step.Inside() && Enabled(c, s, step)
    ensures forall v :: 0 <= v < |Next(c, s, step).workers| ==> PassesOver(s.rows, Next(c, s, step).workers[v])
  {
  }

  lemma {:induction false} PassOverAlways(c: Config, s: State, steps: seq<Step>)
    requires c.Valid() && Watched(s) && AllPassOver(s) && Allowed(c, s, steps) && OneChat(After(c, s, steps).history)
    ensures Watched(After(c, s, steps)) && AllPassOver(After(c, s, steps))
    decreases |steps|
  {
    if steps != [] {
      OneChatBefore(c, s, steps);
      WatchedStep(c, s, steps[0]);
      PassOverStep(c, s, steps[0]);
      PassOverAlways(c, Next(c, s, steps[0]), steps[1..]);
    }
  }

  /** At each branch a run passes over exactly what is delivered, if its copy came back through the DLQ
      or recovery, and nothing otherwise: no pair is skipped that does not have the message. */
  lemma SkippedIff(c: Config, workers: nat, steps: seq<Step>, w: nat)
    requires c.Valid() && Allowed(c, Init(workers), steps) && OneChat(After(c, Init(workers), steps).history)
    requires w < |After(c, Init(workers), steps).workers|
    requires After(c, Init(workers), steps).workers[w].Running? && After(c, Init(workers), steps).workers[w].todo != []
    ensures var s := After(c, Init(workers), steps);
            var copy, b := s.workers[w].copy, s.workers[w].todo[0];
            Enabled(c, s, DedupSkip(w)) <==>
            (copy.attempts > 0 || copy.requeued) && (copy.id, b) in s.rows && s.rows[(copy.id, b)] == Delivered
  {
    WatchedInit(workers);
    PassOverAlways(c, Init(workers), steps);
    var s := After(c, Init(workers), steps);
    assert PassesOver(s.rows, s.workers[w]) && AsksFirst(s.rows, s.workers[w]);
    assert s.workers[w].todo[0] in s.workers[w].todo;
  }
}
