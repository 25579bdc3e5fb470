/** What holds in every run, prompt or not: each copy anywhere was enqueued, and whatever has left
    the queue for a pipeline, a row or the dead-letter lists belongs to a message that was started. */
module QueueTrace {
  import opened Wrappers
  import opened QueueModel
  import opened QueueLocks

  lemma InFlight(s: State, w: nat)
    requires Base(s) && w < |s.workers| && !s.workers[w].Idle?
    ensures s.workers[w].copy in s.processing
  {
    HeldByPositive(s.workers, w);
    OccursIn(s.processing, s.workers[w].copy);
  }

  ghost predicate Known(h: History, copy: Copy) {
    EnqueuedIn(h, copy.id, copy.chat)
  }

  ghost predicate WasEnqueued(h: History, id: Id) {
    exists chat :: EnqueuedIn(h, id, chat)
  }

  /** Every message was enqueued under one lock key only. */
  ghost predicate OneChat(h: History) {
    forall id, a, b :: EnqueuedIn(h, id, a) && EnqueuedIn(h, id, b) ==> a == b
  }

  ghost predicate CopiesKnown(s: State) {
    forall copy :: copy in s.queue || copy in s.processing ==> Known(s.history, copy)
  }

  predicate FromDlq(s: State, e: Entry) {
    e in s.dlq || s.hand == Some(e) || e in s.dead
  }

  ghost predicate EntriesStarted(s: State) {
    forall e :: FromDlq(s, e) ==> Known(s.history, e.copy) && Begun(s.history, e.copy.id, e.copy.chat)
  }

  ghost predicate WorkersStarted(s: State) {
    forall w :: 0 <= w < |s.workers| && (s.workers[w].HoldsLock() || s.workers[w].Finished?) ==>
      Begun(s.history, s.workers[w].copy.id, s.workers[w].copy.chat)
  }

  ghost predicate RowsStarted(s: State) {
    forall key :: key in s.rows ==> HasStarted(s.history, key.0)
  }

  ghost predicate KeysKept(s: State) {
    && (forall id, chat :: EnqueuedIn(s.history, id, chat) ==> id in s.dedup)
    && (forall id :: HasStarted(s.history, id) ==> WasEnqueued(s.history, id))
    && (forall id, chat :: Begun(s.history, id, chat) ==> EnqueuedIn(s.history, id, chat) && HasStarted(s.history, id))
  }

  ghost predicate Traced(s: State) {
    Base(s) && CopiesKnown(s) && EntriesStarted(s) && WorkersStarted(s) && RowsStarted(s) && KeysKept(s)
  }

  /** Nothing is enqueued or started between two histories. */
  ghost predicate SameTrace(h: History, h': History) {
    && (forall id, chat :: EnqueuedIn(h', id, chat) == EnqueuedIn(h, id, chat))
    && (forall id :: HasStarted(h', id) == HasStarted(h, id))
    && (forall id, chat :: Begun(h', id, chat) == Begun(h, id, chat))
  }

  /** The history grows by at most the one event of the step. */
  lemma HistoryShape(c: Config, s: State, step: Step)
    requires Enabled(c, s, step) && !step.Publish? && !step.Acquire?
    ensures var h' := Next(c, s, step).history;
            h' == s.history || (h'.Then? && h'.before == s.history && (h'.event.Accepted? || h'.event.Crashed?))
  {
  }

  lemma QuietTrace(c: Config, s: State, step: Step)
    requires Enabled(c, s, step) && !step.Publish? && !step.Acquire?
    ensures SameTrace(s.history, Next(c, s, step).history)
  {
    HistoryShape(c, s, step);
    QuietEvent(s.history, Next(c, s, step).history);
  }

  lemma QuietEvent(h: History, h': History)
    requires h' == h || (h'.Then? && h'.before == h && (h'.event.Accepted? || h'.event.Crashed?))
    ensures SameTrace(h, h')
  {
  }

  lemma {:induction false} HistoryGrows(c: Config, s: State, steps: seq<Step>, id: Id, chat: Chat)
    requires Allowed(c, s, steps) && EnqueuedIn(s.history, id, chat)
    ensures EnqueuedIn(After(c, s, steps).history, id, chat)
    decreases |steps|
  {
    if steps != [] { HistoryGrows(c, Next(c, s, steps[0]), steps[1..], id, chat); }
  }

  /** One lock key per message at the end means one all along. */
  lemma OneChatBefore(c: Config, s: State, steps: seq<Step>)
    requires Allowed(c, s, steps) && OneChat(After(c, s, steps).history)
    ensures OneChat(s.history)
  {
    forall id, a, b | EnqueuedIn(s.history, id, a) && EnqueuedIn(s.history, id, b) ensures a == b {
      HistoryGrows(c, s, steps, id, a);
      HistoryGrows(c, s, steps, id, b);
    }
  }

  lemma InsideTraced(c: Config, s: State, step: Step)
    requires Traced(s) && step.Inside() && Enabled(c, s, step)
    ensures Traced(Next(c, s, step))
  {
    InsideShape(c, s, step);
    InsideBase(c, s, step);
    InFlight(s, step.w);
    QuietTrace(c, s, step);
    InsideWrites(c, s, step);
    assert Known(s.history, s.workers[step.w].copy);
  }

  lemma InsideWrites(c: Config, s: State, step: Step)
    requires step.Inside() && Enabled(c, s, step)
    ensures forall e :: e in Next(c, s, step).dlq ==> e in s.dlq || e.copy == s.workers[step.w].copy
    ensures forall key :: key in Next(c, s, step).rows ==> key in s.rows || key.0 == s.workers[step.w].copy.id
  {
  }

  lemma PublishTraced(c: Config, s: State, step: Step)
    requires Traced(s) && step.Publish?
    ensures Traced(Next(c, s, step))
  {
    var s' := Next(c, s, step);
    BaseStep(c, s, step);
    if s' != s {
      assert s'.queue[1..] == s.queue;
      assert forall copy :: copy in s'.queue && copy != s'.queue[0] ==> copy in s.queue;
      assert forall id :: HasStarted(s'.history, id) == HasStarted(s.history, id);
      assert forall id, chat :: Begun(s'.history, id, chat) == Begun(s.history, id, chat);
      assert forall id, chat :: EnqueuedIn(s.history, id, chat) ==> EnqueuedIn(s'.history, id, chat);
      forall id | HasStarted(s'.history, id) ensures WasEnqueued(s'.history, id) {
        var chat :| EnqueuedIn(s.history, id, chat);
        assert EnqueuedIn(s'.history, id, chat);
      }
    }
  }

  lemma AcquireTraced(c: Config, s: State, w: nat)
    requires Traced(s) && Enabled(c, s, Acquire(w))
    ensures Traced(Next(c, s, Acquire(w)))
  {
    var s' := Next(c, s, Acquire(w));
    BaseStep(c, s, Acquire(w));
    InFlight(s, w);
    assert Known(s.history, s.workers[w].copy);
    assert forall id, chat :: EnqueuedIn(s'.history, id, chat) == EnqueuedIn(s.history, id, chat);
    assert forall id :: HasStarted(s.history, id) ==> HasStarted(s'.history, id);
    assert forall id, chat :: Begun(s.history, id, chat) ==> Begun(s'.history, id, chat);
  }

  /** Where the copies after a step of the loops come from. */
  lemma ListsKeepCopies(c: Config, s: State, step: Step)
    requires Traced(s) && !step.Inside() && !step.Publish? && Enabled(c, s, step)
    ensures var s' := Next(c, s, step);
            forall copy :: copy in s'.queue || copy in s'.processing ==> Known(s.history, copy)
  {
    match step
    case Remove(w) => RemoveFirstSubset(s.processing, s.workers[w].copy);
    case RecoverRemove => RemoveFirstSubset(s.processing, s.processing[0]);
    case RecoverPush => assert Known(s.history, s.processing[0]);
    case DlqPlace => assert FromDlq(s, s.hand.value);
    case _ =>
  }

  lemma ListsKeepEntries(c: Config, s: State, step: Step)
    requires !step.Inside() && Enabled(c, s, step)
    ensures forall e :: FromDlq(Next(c, s, step), e) ==> FromDlq(s, e)
  {
  }

  /** Steps of the loops leave the workers as they are, or idle. */
  lemma LoopsKeepWorkers(c: Config, s: State, step: Step)
    requires !step.Inside() && !step.Acquire? && !step.Pop? && !step.Finish? && !step.Remove? && Enabled(c, s, step)
    ensures var s' := Next(c, s, step);
            && s'.rows == s.rows && |s'.workers| == |s.workers|
            && (s'.workers == s.workers || forall w :: 0 <= w < |s.workers| ==> s'.workers[w].Idle?)
  {
  }

  lemma HandKeepsWorkers(c: Config, s: State, step: Step)
    requires (step.Pop? || step.Finish? || step.Remove?) && Enabled(c, s, step)
    ensures var s' := Next(c, s, step);
            && s'.rows == s.rows && step.w < |s.workers| == |s'.workers| && s'.workers == s.workers[step.w := s'.workers[step.w]]
            && (s'.workers[step.w].HoldsLock() || s'.workers[step.w].Finished? ==>
                  s.workers[step.w].HoldsLock() && s'.workers[step.w].copy == s.workers[step.w].copy)
  {
  }

  lemma ListsKeepWorkers(c: Config, s: State, step: Step)
    requires !step.Inside() && !step.Acquire? && Enabled(c, s, step)
    ensures var s' := Next(c, s, step);
            && s'.rows == s.rows && |s'.workers| == |s.workers|
            && forall w :: 0 <= w < |s.workers| && (s'.workers[w].HoldsLock() || s'.workers[w].Finished?) ==>
                 (s.workers[w].HoldsLock() || s.workers[w].Finished?) && s'.workers[w].copy == s.workers[w].copy
  {
    if step.Pop? || step.Finish? || step.Remove? { HandKeepsWorkers(c, s, step); } else { LoopsKeepWorkers(c, s, step); }
  }

  lemma ListsTraced(c: Config, s: State, step: Step)
    requires Traced(s) && !step.Inside() && !step.Publish? && !step.Acquire? && Enabled(c, s, step)
    ensures Traced(Next(c, s, step))
  {
    BaseStep(c, s, step);
    QuietTrace(c, s, step);
    ListsKeepCopies(c, s, step);
    ListsKeepEntries(c, s, step);
    ListsKeepWorkers(c, s, step);
    assert Next(c, s, step).dedup == s.dedup;
  }

  lemma TracedStep(c: Config, s: State, step: Step)
    requires Traced(s) && Enabled(c, s, step)
    ensures Traced(Next(c, s, step))
  {
    if step.Inside() { InsideTraced(c, s, step); }
    else if step.Publish? { PublishTraced(c, s, step); }
    else if step.Acquire? { AcquireTraced(c, s, step.w); }
    else { ListsTraced(c, s, step); }
  }

  lemma TracedInit(workers: nat)
    ensures Traced(Init(workers))
  {
    BaseInit(workers);
  }

  lemma {:induction false} TracedAlways(c: Config, s: State, steps: seq<Step>)
    requires Traced(s) && Allowed(c, s, steps)
    ensures Traced(After(c, s, steps))
    decreases |steps|
  {
    if steps != [] {
      TracedStep(c, s, steps[0]);
      TracedAlways(c, Next(c, s, steps[0]), steps[1..]);
    }
  }

  /** Prompt re-emits never enqueue a message under a second key, or twice. */
  lemma PromptEnqueues(c: Config, s: State, step: Step)
    requires KeysKept(s) && OneChat(s.history) && Enabled(c, s, step) && PromptStep(s, step)
    ensures OneChat(Next(c, s, step).history)
    ensures step.Publish? && Next(c, s, step).history != s.history ==> forall chat :: !EnqueuedIn(s.history, step.id, chat)
  {
    var h, h' := s.history, Next(c, s, step).history;
    if step.Publish? {
      if h' != h {
        assert step.id !in s.dedup && forall chat :: !EnqueuedIn(h, step.id, chat);
        assert forall id, chat :: EnqueuedIn(h', id, chat) ==> EnqueuedIn(h, id, chat) || (id, chat) == (step.id, step.chat);
      }
    } else {
      assert forall id, chat :: EnqueuedIn(h', id, chat) == EnqueuedIn(h, id, chat);
    }
  }
}
