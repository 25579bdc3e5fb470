/** Sends without promptness.  In every run in which a message has one lock key, Telegram accepts it
    for a pair at most once per enqueue, plus the crashes that caught a send before its record: only
    the copy an enqueue puts in does not ask what was delivered, and it asks from its first crash or
    failure on. */
module QueueResends {
  import opened Wrappers
  import opened QueueModel
  import opened QueueLocks
  import opened QueueTrace
  import opened QueueRows
  import opened QueueAccount

  predicate IsFresh(copy: Copy, id: Id) {
    copy.id == id && !copy.Marked()
  }

  function FreshIn(copies: seq<Copy>, id: Id): nat {
    if copies == [] then 0 else (if IsFresh(copies[0], id) then 1 else 0) + FreshIn(copies[1..], id)
  }

  lemma {:induction false} FreshInAppend(a: seq<Copy>, b: seq<Copy>, id: Id)
    ensures FreshIn(a + b, id) == FreshIn(a, id) + FreshIn(b, id)
  {
    if a == [] {
      assert a + b == b;
    } else {
      assert (a + b)[1..] == a[1..] + b;
      FreshInAppend(a[1..], b, id);
    }
  }

  /** A fresh run that has not come to send to `b`; `Waiting` only, or all of them. */
  function Ticket(worker: Worker, id: Id, b: Option<Branch>): nat {
    if worker.Idle? || worker.Finished? || !IsFresh(worker.copy, id) then 0
    else if worker.Waiting? then 1
    else if b.None? then 0
    else if worker.Looking? then 1
    else if b.value in worker.todo && !(worker.todo[0] == b.value && worker.phase.Sent?) then 1 else 0
  }

  function Tickets(workers: seq<Worker>, id: Id, b: Option<Branch>): nat {
    if workers == [] then 0 else Ticket(workers[0], id, b) + Tickets(workers[1..], id, b)
  }

  lemma {:induction false} TicketsUpdate(workers: seq<Worker>, w: nat, worker: Worker, id: Id, b: Option<Branch>)
    requires w < |workers|
    ensures Tickets(workers[w := worker], id, b) == Tickets(workers, id, b) - Ticket(workers[w], id, b) + Ticket(worker, id, b)
  {
    var updated := workers[w := worker];
    if w == 0 {
      assert updated[1..] == workers[1..];
    } else {
      assert updated[1..] == workers[1..][w - 1 := worker];
      TicketsUpdate(workers[1..], w - 1, worker, id, b);
    }
  }

  lemma {:induction false} TicketsIdle(workers: seq<Worker>, id: Id, b: Option<Branch>)
    requires forall w :: 0 <= w < |workers| ==> workers[w].Idle?
    ensures Tickets(workers, id, b) == 0
  {
    if workers != [] { TicketsIdle(workers[1..], id, b); }
  }

  lemma {:induction false} TicketsPositive(workers: seq<Worker>, w: nat, id: Id)
    requires w < |workers| && workers[w].Waiting? && IsFresh(workers[w].copy, id)
    ensures Tickets(workers, id, None) > 0
  {
    if w > 0 { TicketsPositive(workers[1..], w - 1, id); }
  }

  lemma {:induction false} TicketsSame(workers: seq<Worker>, id: Id, b: Option<Branch>)
    requires forall w :: 0 <= w < |workers| ==> Ticket(workers[w], id, b) == Ticket(workers[w], id, None)
    ensures Tickets(workers, id, b) == Tickets(workers, id, None)
  {
    if workers != [] { TicketsSame(workers[1..], id, b); }
  }

  // Unstarted fresh copies.

  /** One enqueue of the message has been used up: it was started, or a copy of it comes from a crash. */
  ghost predicate Spent(s: State, id: Id) {
    HasStarted(s.history, id) || SpentCopy(s, id)
  }

  ghost predicate SpentCopy(s: State, id: Id) {
    exists copy :: (copy in s.queue || copy in s.processing) && IsSpent(s, copy, id)
  }

  predicate IsSpent(s: State, copy: Copy, id: Id) {
    copy.id == id && (copy.Marked() || (!s.serving && copy in s.processing))
  }

  ghost predicate FreshBounded(s: State, id: Id) {
    FreshIn(s.queue, id) + Tickets(s.workers, id, None) + (if Spent(s, id) then 1 else 0) <= Enqueues(s.history, id)
  }

  lemma InsideFreshBounded(c: Config, s: State, step: Step, id: Id)
    requires FreshBounded(s, id) && step.Inside() && Enabled(c, s, step)
    ensures FreshBounded(Next(c, s, step), id)
  {
    var s', w := Next(c, s, step), step.w;
    InsideShape(c, s, step);
    QuietTrace(c, s, step);
    EnqueuesSame(c, s, step, id);
    TicketsUpdate(s.workers, w, s'.workers[w], id, None);
    assert SpentCopy(s', id) ==> SpentCopy(s, id);
  }

  lemma EnqueuesSame(c: Config, s: State, step: Step, id: Id)
    requires Enabled(c, s, step) && !step.Publish?
    ensures Enqueues(Next(c, s, step).history, id) == Enqueues(s.history, id)
  {
    if !step.Acquire? { HistoryShape(c, s, step); }
  }

  lemma PublishFreshBounded(c: Config, s: State, step: Step, id: Id)
    requires FreshBounded(s, id) && step.Publish?
    ensures FreshBounded(Next(c, s, step), id)
  {
    var s' := Next(c, s, step);
    if s' != s {
      assert s'.queue[1..] == s.queue;
      if SpentCopy(s', id) {
        var copy :| (copy in s'.queue || copy in s'.processing) && IsSpent(s', copy, id);
        assert copy in s.queue || copy in s.processing;
        assert IsSpent(s, copy, id);
      }
    }
  }

  lemma PopFreshBounded(c: Config, s: State, w: nat, id: Id)
    requires FreshBounded(s, id) && Enabled(c, s, Pop(w))
    ensures FreshBounded(Next(c, s, Pop(w)), id)
  {
    var s', copy := Next(c, s, Pop(w)), s.queue[|s.queue| - 1];
    assert s.queue == s'.queue + [copy];
    FreshInAppend(s'.queue, [copy], id);
    TicketsUpdate(s.workers, w, Waiting(copy), id, None);
    if SpentCopy(s', id) {
      var x :| (x in s'.queue || x in s'.processing) && IsSpent(s', x, id);
      assert IsSpent(s, x, id);
    }
  }

  lemma AcquireFreshBounded(c: Config, s: State, w: nat, id: Id)
    requires Base(s) && FreshBounded(s, id) && Enabled(c, s, Acquire(w))
    ensures FreshBounded(Next(c, s, Acquire(w)), id)
  {
    var s', copy := Next(c, s, Acquire(w)), s.workers[w].copy;
    InFlight(s, w);
    EnqueuesSame(c, s, Acquire(w), id);
    TicketsUpdate(s.workers, w, Looking(copy), id, None);
    if copy.id == id && copy.Marked() { assert IsSpent(s, copy, id); }
    assert SpentCopy(s', id) ==> SpentCopy(s, id);
  }

  lemma CrashFreshBounded(c: Config, s: State, id: Id)
    requires Base(s) && WorkersStarted(s) && KeysKept(s) && FreshBounded(s, id)
    ensures FreshBounded(Next(c, s, Crash), id)
  {
    var s' := Next(c, s, Crash);
    TicketsIdle(s'.workers, id, None);
    QuietTrace(c, s, Crash);
    EnqueuesSame(c, s, Crash, id);
    if SpentCopy(s', id) && !Spent(s, id) {
      var copy :| (copy in s'.queue || copy in s'.processing) && IsSpent(s', copy, id);
      UnspentWaits(s, copy, id);
    }
  }

  /** Before a crash, a copy in flight whose message used up nothing waits. */
  lemma UnspentWaits(s: State, copy: Copy, id: Id)
    requires Base(s) && WorkersStarted(s) && KeysKept(s) && !Spent(s, id)
    requires copy.id == id && (copy in s.queue || copy in s.processing) && (copy.Marked() || copy in s.processing)
    ensures Tickets(s.workers, id, None) > 0
  {
    assert !IsSpent(s, copy, id);
    OccursIn(s.processing, copy);
    var w := HolderOf(s.workers, copy);
    TicketsPositive(s.workers, w, id);
  }

  lemma PlaceFreshBounded(c: Config, s: State, id: Id)
    requires EntriesStarted(s) && KeysKept(s) && FreshBounded(s, id) && Enabled(c, s, DlqPlace)
    ensures FreshBounded(Next(c, s, DlqPlace), id)
  {
    var s', e := Next(c, s, DlqPlace), s.hand.value;
    assert FromDlq(s, e);
    if e.attempts + 1 <= c.maxAttempts { assert s'.queue[1..] == s.queue; }
    if SpentCopy(s', id) && e.copy.id != id {
      var copy :| (copy in s'.queue || copy in s'.processing) && IsSpent(s', copy, id);
      assert (copy in s.queue || copy in s.processing) && IsSpent(s, copy, id);
    }
  }

  /** Recovery marks what it returns, and its message was used up by the crash. */
  lemma RecoveryFreshBounded(c: Config, s: State, step: Step, id: Id)
    requires Base(s) && FreshBounded(s, id) && Enabled(c, s, step)
    requires step.RecoverPush? || step.RecoverRemove? || step.RecoverDone?
    ensures FreshBounded(Next(c, s, step), id)
  {
    var s' := Next(c, s, step);
    if step.RecoverPush? { FreshInAppend(s.queue, [Mark(s.processing[0])], id); }
    if step.RecoverRemove? { RemoveFirstSubset(s.processing, s.processing[0]); }
    if SpentCopy(s', id) {
      var copy :| (copy in s'.queue || copy in s'.processing) && IsSpent(s', copy, id);
      RecoveredWasSpent(c, s, step, copy, id);
    }
  }

  lemma RecoveredWasSpent(c: Config, s: State, step: Step, copy: Copy, id: Id)
    requires (step.RecoverPush? || step.RecoverRemove? || step.RecoverDone?) && Enabled(c, s, step)
    requires var s' := Next(c, s, step); (copy in s'.queue || copy in s'.processing) && IsSpent(s', copy, id)
    ensures SpentCopy(s, id)
  {
    if step.RecoverPush? && copy == Mark(s.processing[0]) {
      assert IsSpent(s, s.processing[0], id);
    } else {
      if step.RecoverRemove? { RemoveFirstSubset(s.processing, s.processing[0]); }
      assert (copy in s.queue || copy in s.processing) && IsSpent(s, copy, id);
    }
  }

  lemma RestFreshBounded(c: Config, s: State, step: Step, id: Id)
    requires FreshBounded(s, id) && Enabled(c, s, step)
    requires step.Tick? || step.Finish? || step.Remove? || step.DlqPop? || step.CancelDlq?
    ensures FreshBounded(Next(c, s, step), id)
  {
    var s' := Next(c, s, step);
    if step.Finish? || step.Remove? { TicketsUpdate(s.workers, step.w, s'.workers[step.w], id, None); }
    if step.Remove? { RemoveFirstSubset(s.processing, s.workers[step.w].copy); }
    if SpentCopy(s', id) {
      var copy :| (copy in s'.queue || copy in s'.processing) && IsSpent(s', copy, id);
      assert IsSpent(s, copy, id);
    }
  }

  lemma FreshBoundedStep(c: Config, s: State, step: Step, id: Id)
    requires Traced(s) && FreshBounded(s, id) && Enabled(c, s, step)
    ensures FreshBounded(Next(c, s, step), id)
  {
    if step.Inside() {
      InsideFreshBounded(c, s, step, id);
    } else {
      match step
      case Publish(_, _) => PublishFreshBounded(c, s, step, id);
      case Pop(w) => PopFreshBounded(c, s, w, id);
      case Acquire(w) => AcquireFreshBounded(c, s, w, id);
      case Crash => CrashFreshBounded(c, s, id);
      case DlqPlace => PlaceFreshBounded(c, s, id);
      case RecoverPush => RecoveryFreshBounded(c, s, step, id);
      case RecoverRemove => RecoveryFreshBounded(c, s, step, id);
      case RecoverDone => RecoveryFreshBounded(c, s, step, id);
      case _ => RestFreshBounded(c, s, step, id);
    }
  }

  // The account of sends.

  /** What was sent without a delivered row was caught by a crash or is being recorded. */
  ghost predicate LostSends(s: State, id: Id, b: Branch) {
    !IsDelivered(s.rows, id, b) ==> Sends(s.history, id, b) == CrashesInDoubt(s.history, id, b) + Doubt(s, id, b)
  }

  ghost predicate SendsBounded(s: State, id: Id, b: Branch) {
    Sends(s.history, id, b) + FreshIn(s.queue, id) + Tickets(s.workers, id, Some(b))
    <= Enqueues(s.history, id) + CrashesInDoubt(s.history, id, b)
  }

  // The bound.

  /** A branch of a fresh run uses its ticket when it sends; any other step of a run leaves or drops it. */
  lemma RunTicket(c: Config, s: State, step: Step, id: Id, b: Branch)
    requires step.Inside() && Enabled(c, s, step) && step.w < |s.workers| == |Next(c, s, step).workers|
    requires AsksFirst(s.rows, s.workers[step.w]) && IsFresh(s.workers[step.w].copy, id)
    ensures var s' := Next(c, s, step);
            Sends(s'.history, id, b) + Ticket(s'.workers[step.w], id, Some(b))
            <= Sends(s.history, id, b) + Ticket(s.workers[step.w], id, Some(b))
  {
  }

  lemma OtherRun(c: Config, s: State, step: Step, id: Id, b: Branch)
    requires step.Inside() && Enabled(c, s, step) && step.w < |s.workers| == |Next(c, s, step).workers|
    requires s.workers[step.w].copy.id != id
    ensures var s' := Next(c, s, step);
            && Sends(s'.history, id, b) == Sends(s.history, id, b)
            && Ticket(s'.workers[step.w], id, Some(b)) == Ticket(s.workers[step.w], id, Some(b)) == 0
  {
  }

  /** While a marked copy of the message runs, no fresh one does. */
  lemma OnlyWaitingTickets(s: State, w: nat, id: Id, b: Branch)
    requires Identified(s) && w < |s.workers| && s.workers[w].HoldsLock() && s.workers[w].copy.id == id && s.workers[w].copy.Marked()
    ensures Tickets(s.workers, id, Some(b)) == Tickets(s.workers, id, None)
  {
    forall v | 0 <= v < |s.workers| ensures Ticket(s.workers[v], id, Some(b)) == Ticket(s.workers[v], id, None) {
      if s.workers[v].HoldsLock() && s.workers[v].copy.id == id { OneRunPerMessage(s, v, w); }
    }
    TicketsSame(s.workers, id, Some(b));
  }

  /** A marked run sends only what is not delivered: all sends so far were lost to crashes, and one
      enqueue is used up, so there is room for one more. */
  lemma MarkedRun(c: Config, s: State, step: Step, id: Id, b: Branch)
    requires Identified(s) && FreshBounded(s, id) && LostSends(s, id, b) && SendsBounded(s, id, b)
    requires step.Inside() && Enabled(c, s, step) && step.w < |s.workers| && s.workers[step.w].HoldsLock()
    requires AsksFirst(s.rows, s.workers[step.w]) && s.workers[step.w].copy.id == id && s.workers[step.w].copy.Marked()
    ensures Sends(Next(c, s, step).history, id, b) + FreshIn(s.queue, id) + Tickets(s.workers, id, Some(b))
            <= Enqueues(s.history, id) + CrashesInDoubt(s.history, id, b)
  {
    if step.Send? && s.workers[step.w].todo[0] == b && step.ok {
      OwnDoubt(s, step.w, b);
      OnlyWaitingTickets(s, step.w, id, b);
      assert HasStarted(s.history, id);
    }
  }

  lemma InsideBounded(c: Config, s: State, step: Step, id: Id, b: Branch)
    requires Identified(s) && AllAsk(s) && FreshBounded(s, id) && LostSends(s, id, b) && SendsBounded(s, id, b)
    requires step.Inside() && Enabled(c, s, step)
    ensures SendsBounded(Next(c, s, step), id, b)
  {
    var s', w := Next(c, s, step), step.w;
    InsideShape(c, s, step);
    EnqueuesSame(c, s, step, id);
    InsideCrashes(c, s, step, id, b);
    TicketsUpdate(s.workers, w, s'.workers[w], id, Some(b));
    assert AsksFirst(s.rows, s.workers[w]);
    if s.workers[w].copy.id != id { OtherRun(c, s, step, id, b); }
    else if s.workers[w].copy.Marked() { MarkedRun(c, s, step, id, b); }
    else { RunTicket(c, s, step, id, b); }
  }

  /** Fresh copies in the queue and tickets together do not grow outside _process_message but by an enqueue. */
  lemma OutsideTickets(c: Config, s: State, step: Step, id: Id, b: Branch)
    requires !step.Inside() && Enabled(c, s, step)
    ensures var s' := Next(c, s, step);
            FreshIn(s'.queue, id) + Tickets(s'.workers, id, Some(b)) + Enqueues(s.history, id)
            <= FreshIn(s.queue, id) + Tickets(s.workers, id, Some(b)) + Enqueues(s'.history, id)
  {
    var s' := Next(c, s, step);
    if !step.Publish? { EnqueuesSame(c, s, step, id); }
    if step.Pop? || step.Acquire? || step.Finish? || step.Remove? {
      WorkerTickets(c, s, step, id, b);
    } else {
      ListTickets(c, s, step, id, b);
    }
  }

  lemma WorkerTickets(c: Config, s: State, step: Step, id: Id, b: Branch)
    requires (step.Pop? || step.Acquire? || step.Finish? || step.Remove?) && Enabled(c, s, step)
    ensures var s' := Next(c, s, step);
            FreshIn(s'.queue, id) + Tickets(s'.workers, id, Some(b)) <= FreshIn(s.queue, id) + Tickets(s.workers, id, Some(b))
  {
    var s' := Next(c, s, step);
    TicketsUpdate(s.workers, step.w, s'.workers[step.w], id, Some(b));
    if step.Pop? {
      var copy := s.queue[|s.queue| - 1];
      assert s.queue == s'.queue + [copy];
      FreshInAppend(s'.queue, [copy], id);
    }
  }

  lemma ListTickets(c: Config, s: State, step: Step, id: Id, b: Branch)
    requires !step.Inside() && !step.Pop? && !step.Acquire? && !step.Finish? && !step.Remove? && Enabled(c, s, step)
    ensures var s' := Next(c, s, step);
            && FreshIn(s'.queue, id) + Enqueues(s.history, id) <= FreshIn(s.queue, id) + Enqueues(s'.history, id)
            && Tickets(s'.workers, id, Some(b)) <= Tickets(s.workers, id, Some(b))
  {
    var s' := Next(c, s, step);
    if !step.Publish? { EnqueuesSame(c, s, step, id); }
    match step
    case Publish(_, _) => PublishTickets(c, s, step, id);
    case Crash => TicketsIdle(s'.workers, id, Some(b));
    case RecoverPush => FreshInAppend(s.queue, [Mark(s.processing[0])], id);
    case DlqPlace => PlaceTickets(c, s, id);
    case _ =>
  }

  lemma PlaceTickets(c: Config, s: State, id: Id)
    requires Enabled(c, s, DlqPlace)
    ensures var s' := Next(c, s, DlqPlace); s'.workers == s.workers && FreshIn(s'.queue, id) <= FreshIn(s.queue, id)
  {
    if Next(c, s, DlqPlace).queue != s.queue { assert Next(c, s, DlqPlace).queue[1..] == s.queue; }
  }

  lemma PublishTickets(c: Config, s: State, step: Step, id: Id)
    requires step.Publish?
    ensures var s' := Next(c, s, step);
            s'.workers == s.workers && FreshIn(s'.queue, id) + Enqueues(s.history, id) <= FreshIn(s.queue, id) + Enqueues(s'.history, id)
  {
    if Next(c, s, step) != s { assert Next(c, s, step).queue[1..] == s.queue; }
  }

  lemma OutsideBounded(c: Config, s: State, step: Step, id: Id, b: Branch)
    requires SendsBounded(s, id, b) && !step.Inside() && Enabled(c, s, step)
    ensures SendsBounded(Next(c, s, step), id, b)
  {
    OutsideIsQuiet(c, s, step, id, b);
    OutsideCount(c, s, step, id, b);
    OutsideTickets(c, s, step, id, b);
  }

  // Runs.

  ghost predicate Counted(s: State, id: Id, b: Branch, repeats: nat) {
    Watched(s) && Account(s, id, b, repeats) && FreshBounded(s, id) && SendsBounded(s, id, b)
  }

  lemma CountedStep(c: Config, s: State, step: Step, id: Id, b: Branch, repeats: nat)
    requires c.Valid() && Counted(s, id, b, repeats) && Enabled(c, s, step) && OneChat(s.history) && OneChat(Next(c, s, step).history)
    ensures Counted(Next(c, s, step), id, b, repeats + if Repeating(s, step, id, b) then 1 else 0)
  {
    WatchedStep(c, s, step);
    AccountStep(c, s, step, id, b, repeats);
    FreshBoundedStep(c, s, step, id);
    if step.Inside() { InsideBounded(c, s, step, id, b); } else { OutsideBounded(c, s, step, id, b); }
  }

  lemma {:induction false} CountedAlways(c: Config, s: State, steps: seq<Step>, id: Id, b: Branch, repeats: nat)
    requires c.Valid() && Counted(s, id, b, repeats) && Allowed(c, s, steps) && OneChat(After(c, s, steps).history)
    ensures SendsBounded(After(c, s, steps), id, b)
    decreases |steps|
  {
    if steps != [] {
      OneChatBefore(c, s, steps);
      OneChatBefore(c, Next(c, s, steps[0]), steps[1..]);
      CountedStep(c, s, steps[0], id, b, repeats);
      CountedAlways(c, Next(c, s, steps[0]), steps[1..], id, b, repeats + if Repeating(s, steps[0], id, b) then 1 else 0);
    }
  }

  /** Over every run with one lock key per message, late re-emits included: accepted sends of a message
      to a pair are at most its enqueues plus the crashes that caught one before its record; and as long
      as no row says delivered, they are exactly those crashes and the send being recorded. */
  lemma SendsAreBounded(c: Config, workers: nat, steps: seq<Step>, id: Id, b: Branch)
    requires c.Valid() && Allowed(c, Init(workers), steps) && OneChat(After(c, Init(workers), steps).history)
    ensures var s := After(c, Init(workers), steps);
            && Sends(s.history, id, b) <= Enqueues(s.history, id) + CrashesInDoubt(s.history, id, b)
            && (!IsDelivered(s.rows, id, b) ==>
                  Sends(s.history, id, b) == CrashesInDoubt(s.history, id, b) + if (id, b) in InDoubt(s.workers) then 1 else 0)
  {
    WatchedInit(workers);
    TicketsIdle(Init(workers).workers, id, None);
    TicketsIdle(Init(workers).workers, id, Some(b));
    CountedAlways(c, Init(workers), steps, id, b, 0);
    SendsAreAccounted(c, workers, steps, id, b);
  }
}
