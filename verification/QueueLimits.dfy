/** The bounds are met, losses are real and the hypotheses are needed: concrete runs with one worker
    and one pair, or two of each. */
module QueueLimits {
  import opened Wrappers
  import opened QueueModel
  import opened QueueRuns
  import opened QueueConservation
  import opened QueueRows
  import opened QueueLoops
  import opened QueueSimulation

  /** One pair per chat; dedup keys that live one tick. */
  const ONE_PAIR := Config(_ => [7], 5, 1)

  function Fresh0(): Copy {
    Copy("m", "u:c", 0, false)
  }

  /** The part of a state these runs talk about. */
  ghost predicate Looks(s: State, prompt: bool, queue: seq<Copy>, processing: seq<Copy>, worker: Worker, line: seq<nat>) {
    && Reachable(ONE_PAIR, 1, s, prompt) && s.serving
    && s.queue == queue && s.processing == processing && s.workers == [worker] && Line(s.locks, "u:c") == line
  }

  lemma DoPop(s: State, prompt: bool, copy: Copy) returns (s': State)
    requires Looks(s, prompt, [copy], [], Idle, []) && copy.chat == "u:c"
    ensures Looks(s', prompt, [], [copy], Waiting(copy), [0])
    ensures s'.history == s.history && s'.rows == s.rows && s'.dedup == s.dedup && s'.now == s.now
    ensures s'.dlq == s.dlq && s'.dead == s.dead && s'.hand == s.hand
  {
    OneMore(ONE_PAIR, 1, s, prompt, Pop(0));
    s' := Next(ONE_PAIR, s, Pop(0));
    assert s'.processing == [copy] && s'.workers == [Waiting(copy)] && Line(s'.locks, "u:c") == [0];
  }

  lemma DoAcquire(s: State, prompt: bool, copy: Copy) returns (s': State)
    requires Looks(s, prompt, [], [copy], Waiting(copy), [0]) && copy.chat == "u:c"
    ensures Looks(s', prompt, [], [copy], Looking(copy), [0])
    ensures s'.history == Then(s.history, Started(copy)) && s'.rows == s.rows && s'.dedup == s.dedup && s'.now == s.now
    ensures s'.dlq == s.dlq && s'.dead == s.dead && s'.hand == s.hand
  {
    OneMore(ONE_PAIR, 1, s, prompt, Acquire(0));
    s' := Next(ONE_PAIR, s, Acquire(0));
  }

  lemma DoLoad(s: State, prompt: bool, copy: Copy) returns (s': State)
    requires Looks(s, prompt, [], [copy], Looking(copy), [0]) && copy.chat == "u:c"
    requires copy.Marked() ==> DeliveredTo(s.rows, copy.id) == {}
    ensures Looks(s', prompt, [], [copy], Running(copy, [ForPair(7)], {}, Ready), [0])
    ensures s'.history == s.history && s'.rows == s.rows && s'.dedup == s.dedup && s'.now == s.now
    ensures s'.dlq == s.dlq && s'.dead == s.dead && s'.hand == s.hand
  {
    OneMore(ONE_PAIR, 1, s, prompt, Load(0));
    assert ONE_PAIR.Branches("u:c") == [ForPair(7)];
    s' := Next(ONE_PAIR, s, Load(0));
  }

  lemma DoSend(s: State, prompt: bool, copy: Copy) returns (s': State)
    requires Looks(s, prompt, [], [copy], Running(copy, [ForPair(7)], {}, Ready), [0])
    ensures Looks(s', prompt, [], [copy], Running(copy, [ForPair(7)], {}, Sent(true, false)), [0])
    ensures s'.history == Then(s.history, Accepted(copy.id, ForPair(7)))
    ensures s'.rows == s.rows && s'.dedup == s.dedup && s'.now == s.now
  {
    OneMore(ONE_PAIR, 1, s, prompt, Send(0, true));
    s' := Next(ONE_PAIR, s, Send(0, true));
  }

  /** From a queue holding just `copy`, an idle worker gets as far as an accepted send. */
  lemma SendNext(s: State, prompt: bool, copy: Copy) returns (s': State)
    requires Looks(s, prompt, [copy], [], Idle, []) && copy.chat == "u:c"
    requires copy.Marked() ==> DeliveredTo(s.rows, copy.id) == {}
    ensures Looks(s', prompt, [], [copy], Running(copy, [ForPair(7)], {}, Sent(true, false)), [0])
    ensures Sends(s'.history, copy.id, ForPair(7)) == Sends(s.history, copy.id, ForPair(7)) + 1
    ensures CrashesInDoubt(s'.history, copy.id, ForPair(7)) == CrashesInDoubt(s.history, copy.id, ForPair(7))
    ensures s'.rows == s.rows && s'.dedup == s.dedup && s'.now == s.now
  {
    s' := DoPop(s, prompt, copy);
    s' := DoAcquire(s', prompt, copy);
    s' := DoLoad(s', prompt, copy);
    s' := DoSend(s', prompt, copy);
  }

  lemma PublishFirst(prompt: bool) returns (s: State)
    ensures Looks(s, prompt, [Fresh0()], [], Idle, [])
    ensures s.rows == map[] && s.dedup == map["m" := 1] && s.now == 0 && s.dlq == [] && s.dead == [] && s.hand == None
    ensures s.history == Then(Empty, Enqueued("m", "u:c"))
  {
    Start(ONE_PAIR, 1, prompt);
    OneMore(ONE_PAIR, 1, Init(1), prompt, Publish("m", "u:c"));
    s := Next(ONE_PAIR, Init(1), Publish("m", "u:c"));
    assert s.queue == [Fresh0()] && s.workers == [Idle];
  }

  /** Publish one message and get as far as its accepted send. */
  lemma FirstSend(prompt: bool) returns (s: State)
    ensures Looks(s, prompt, [], [Fresh0()], Running(Fresh0(), [ForPair(7)], {}, Sent(true, false)), [0])
    ensures s.rows == map[] && s.dedup == map["m" := 1] && s.now == 0
    ensures Sends(s.history, "m", ForPair(7)) == 1 && CrashesInDoubt(s.history, "m", ForPair(7)) == 0
  {
    s := PublishFirst(prompt);
    s := SendNext(s, prompt, Fresh0());
  }

  lemma DoCrash(s: State, copy: Copy) returns (s': State)
    requires Looks(s, true, [], [copy], Running(copy, [ForPair(7)], {}, Sent(true, false)), [0])
    ensures Reachable(ONE_PAIR, 1, s', true) && !s'.serving && !s'.pushed
    ensures s'.queue == [] && s'.processing == [copy] && s'.workers == [Idle] && s'.locks == map[] && s'.rows == s.rows
    ensures Sends(s'.history, copy.id, ForPair(7)) == Sends(s.history, copy.id, ForPair(7))
    ensures CrashesInDoubt(s'.history, copy.id, ForPair(7)) == CrashesInDoubt(s.history, copy.id, ForPair(7)) + 1
  {
    assert s.workers[0].phase.ok && s.workers[0].todo[0] == ForPair(7);
    assert (copy.id, ForPair(7)) in InDoubt(s.workers);
    OneMore(ONE_PAIR, 1, s, true, Crash);
    s' := Next(ONE_PAIR, s, Crash);
  }

  lemma DoRecover(s: State, copy: Copy) returns (s': State)
    requires Reachable(ONE_PAIR, 1, s, true) && !s.serving && !s.pushed
    requires s.queue == [] && s.processing == [copy] && s.workers == [Idle] && s.locks == map[]
    ensures Looks(s', true, [Mark(copy)], [], Idle, [])
    ensures s'.history == s.history && s'.rows == s.rows
  {
    s' := DoRecoverPush(s, copy);
    OneMore(ONE_PAIR, 1, s', true, RecoverRemove);
    s' := Next(ONE_PAIR, s', RecoverRemove);
    s' := DoRecoverDone(s', copy);
  }

  lemma DoRecoverPush(s: State, copy: Copy) returns (s': State)
    requires Reachable(ONE_PAIR, 1, s, true) && !s.serving && !s.pushed
    requires s.queue == [] && s.processing == [copy]
    ensures Reachable(ONE_PAIR, 1, s', true) && s' == s.(queue := [Mark(copy)], pushed := true)
  {
    OneMore(ONE_PAIR, 1, s, true, RecoverPush);
    s' := Next(ONE_PAIR, s, RecoverPush);
    assert s'.queue == [Mark(copy)];
  }

  lemma DoRecoverDone(s: State, copy: Copy) returns (s': State)
    requires Reachable(ONE_PAIR, 1, s, true) && !s.serving && s.processing == []
    ensures Reachable(ONE_PAIR, 1, s', true) && s' == s.(serving := true)
  {
    OneMore(ONE_PAIR, 1, s, true, RecoverDone);
    s' := Next(ONE_PAIR, s, RecoverDone);
  }

  /** The bound of AtMostOnce is met: one crash between a send and its record, one extra send. */
  lemma CrashInDoubtResends() returns (s: State)
    ensures Reachable(ONE_PAIR, 1, s, true)
    ensures Sends(s.history, "m", ForPair(7)) == 2 && CrashesInDoubt(s.history, "m", ForPair(7)) == 1
  {
    s := FirstSend(true);
    s := DoCrash(s, Fresh0());
    s := DoRecover(s, Fresh0());
    s := SendNext(s, true, Mark(Fresh0()));
  }

  lemma DoRecord(s: State, copy: Copy) returns (s': State)
    requires Looks(s, false, [], [copy], Running(copy, [ForPair(7)], {}, Sent(true, false)), [0]) && copy.chat == "u:c"
    ensures Looks(s', false, [], [copy], Running(copy, [], {}, Ready), [0])
    ensures s'.history == s.history && s'.dedup == s.dedup && s'.now == s.now
  {
    assert AtBranch(s, 0);
    OneMore(ONE_PAIR, 1, s, false, Record(0));
    s' := Next(ONE_PAIR, s, Record(0));
    assert [ForPair(7)][1..] == [];
    assert s'.workers == [Running(copy, [], {}, Ready)];
  }

  lemma DoFinish(s: State, prompt: bool, copy: Copy) returns (s': State)
    requires Looks(s, prompt, [], [copy], Running(copy, [], {}, Ready), [0]) && copy.chat == "u:c"
    ensures Looks(s', prompt, [], [copy], Finished(copy), [])
    ensures s' == s.(workers := s'.workers, locks := s'.locks, processing := s'.processing)
  {
    OneMore(ONE_PAIR, 1, s, prompt, Finish(0));
    s' := Next(ONE_PAIR, s, Finish(0));
    assert Line(s'.locks, "u:c") == [];
  }

  lemma DoRemove(s: State, prompt: bool, copy: Copy) returns (s': State)
    requires Looks(s, prompt, [], [copy], Finished(copy), [])
    ensures Looks(s', prompt, [], [], Idle, [])
    ensures s' == s.(workers := s'.workers, locks := s'.locks, processing := s'.processing)
  {
    OneMore(ONE_PAIR, 1, s, prompt, Remove(0));
    s' := Next(ONE_PAIR, s, Remove(0));
    assert s'.workers == [Idle];
  }

  lemma ReEmit(s: State) returns (s': State)
    requires Looks(s, false, [], [], Idle, []) && s.dedup == map["m" := 1] && s.now == 0
    ensures Looks(s', false, [Fresh0()], [], Idle, [])
    ensures Sends(s'.history, "m", ForPair(7)) == Sends(s.history, "m", ForPair(7))
    ensures CrashesInDoubt(s'.history, "m", ForPair(7)) == CrashesInDoubt(s.history, "m", ForPair(7))
  {
    OneMore(ONE_PAIR, 1, s, false, Tick);
    s' := Next(ONE_PAIR, s, Tick);
    OneMore(ONE_PAIR, 1, s', false, Publish("m", "u:c"));
    s' := Next(ONE_PAIR, s', Publish("m", "u:c"));
    assert s'.queue == [Fresh0()];
  }

  lemma DeliverFirst() returns (s: State)
    ensures Looks(s, false, [], [], Idle, []) && s.dedup == map["m" := 1] && s.now == 0
    ensures Sends(s.history, "m", ForPair(7)) == 1 && CrashesInDoubt(s.history, "m", ForPair(7)) == 0
  {
    s := FirstSend(false);
    s := DoRecord(s, Fresh0());
    s := DoFinish(s, false, Fresh0());
    s := DoRemove(s, false, Fresh0());
  }

  /** Without prompt re-emits the bound fails: a copy re-emitted after its dedup key expired is
      unmarked again, does not ask what was delivered, and is sent twice with no crash at all. */
  lemma LateReemitSendsTwice() returns (s: State)
    ensures Reachable(ONE_PAIR, 1, s, false)
    ensures Sends(s.history, "m", ForPair(7)) == 2 && CrashesInDoubt(s.history, "m", ForPair(7)) == 0
  {
    s := DeliverFirst();
    s := ReEmit(s);
    s := SendNext(s, false, Fresh0());
  }

  // The entry in the DLQ loop's hand.

  lemma DoRaise(s: State, copy: Copy) returns (s': State)
    requires Looks(s, true, [], [copy], Running(copy, [ForPair(7)], {}, Ready), [0]) && copy.chat == "u:c"
    ensures Looks(s', true, [], [copy], Running(copy, [], {}, Ready), [0])
    ensures s' == s.(workers := s'.workers, dlq := [Entry(copy, copy.attempts)] + s.dlq)
  {
    assert AtBranch(s, 0);
    OneMore(ONE_PAIR, 1, s, true, Raise(0));
    s' := Next(ONE_PAIR, s, Raise(0));
    assert [ForPair(7)][1..] == [];
    assert s'.workers == [Running(copy, [], {}, Ready)];
  }

  lemma LoadFirst() returns (s: State)
    ensures Looks(s, true, [], [Fresh0()], Running(Fresh0(), [ForPair(7)], {}, Ready), [0])
    ensures s.rows == map[] && s.dlq == [] && s.dead == [] && s.hand == None && EnqueuedIn(s.history, "m", "u:c")
  {
    s := PublishFirst(true);
    s := DoPop(s, true, Fresh0());
    s := DoAcquire(s, true, Fresh0());
    s := DoLoad(s, true, Fresh0());
  }

  /** The branch raised, its worker is done with the message, and the DLQ loop has popped the copy. */
  lemma OnlyInHand() returns (s: State)
    ensures Reachable(ONE_PAIR, 1, s, true) && EnqueuedIn(s.history, "m", "u:c")
    ensures s.hand == Some(Entry(Fresh0(), 0)) && s.rows == map[] && s.queue == [] && s.processing == [] && s.dlq == [] && s.dead == []
    ensures s.workers == [Idle] && s.serving
  {
    s := LoadFirst();
    s := DoRaise(s, Fresh0());
    s := DoFinish(s, true, Fresh0());
    s := DoRemove(s, true, Fresh0());
    assert s.dlq == [Entry(Fresh0(), 0)];
    OneMore(ONE_PAIR, 1, s, true, DlqPop);
    s := Next(ONE_PAIR, s, DlqPop);
  }

  /** The loss is real: in a prompt run a crash, or a graceful shutdown, loses the only copy. */
  lemma HandIsLost(step: Step) returns (s: State)
    requires step == Crash || step == CancelDlq
    ensures Reachable(ONE_PAIR, 1, s, true) && EnqueuedIn(s.history, "m", "u:c") && Loses(ONE_PAIR, s, step, "m", ForPair(7))
    ensures Reachable(ONE_PAIR, 1, Next(ONE_PAIR, s, step), true) && !Safe(ONE_PAIR, Next(ONE_PAIR, s, step), "m", ForPair(7))
  {
    s := OnlyInHand();
    NothingElse(s, step);
    OneMore(ONE_PAIR, 1, s, true, step);
    NothingLeft(s, step);
  }

  lemma NothingElse(s: State, step: Step)
    requires step == Crash || step == CancelDlq
    requires s.hand == Some(Entry(Fresh0(), 0)) && s.rows == map[] && s.queue == [] && s.processing == [] && s.dlq == [] && s.dead == []
    requires s.workers == [Idle] && s.serving
    ensures Loses(ONE_PAIR, s, step, "m", ForPair(7))
  {
    assert ONE_PAIR.Branches("u:c")[0] == ForPair(7);
  }

  lemma NothingLeft(s: State, step: Step)
    requires step == Crash || step == CancelDlq
    requires s.rows == map[] && s.queue == [] && s.processing == [] && s.dlq == [] && s.dead == [] && s.workers == [Idle] && s.serving
    ensures !Safe(ONE_PAIR, Next(ONE_PAIR, s, step), "m", ForPair(7))
  {
    assert Next(ONE_PAIR, s, step).workers == [Idle];
  }

  // One group message through two clients.

  /** A group with two chat pairs, whoever received the message. */
  const GROUP := Config(_ => [7, 8], 5, 1)

  const TODO: seq<Branch> := [ForPair(7), ForPair(8)]

  lemma GroupBranches(chat: Chat)
    ensures GROUP.Branches(chat) == TODO
  {
  }

  function By(user: string, attempts: nat): Copy {
    Copy("m", user, attempts, false)
  }

  function Ran(copy: Copy, todo: seq<Branch>, phase: Phase): Worker {
    Running(copy, todo, {}, phase)
  }

  /** What these runs need of a state; each of the two copies has its own lock line. */
  ghost predicate Group(s: State, queue: seq<Copy>, processing: seq<Copy>, dlq: seq<Entry>, v: Worker, w: Worker, rows: Rows) {
    && Reachable(GROUP, 2, s, false) && s.serving && s.hand == None
    && s.queue == queue && s.processing == processing && s.dlq == dlq && s.workers == [v, w] && s.rows == rows
    && (!v.Idle? && !v.Finished? ==> Line(s.locks, v.copy.chat) == [0])
    && (!w.Idle? && !w.Finished? ==> Line(s.locks, w.copy.chat) == [1])
    && forall chat :: Line(s.locks, chat) != [] ==> (v.Engaged() && v.copy.chat == chat) || (w.Engaged() && w.copy.chat == chat)
  }

  /** Accepted sends to pair 7 so far, without a crash, of a message enqueued twice. */
  ghost predicate Tally(s: State, sends: nat) {
    && Sends(s.history, "m", ForPair(7)) == sends && CrashesInDoubt(s.history, "m", ForPair(7)) == 0
    && Enqueues(s.history, "m") == 2
  }

  lemma ReachedBy(s: State, t: State)
    requires Reachable(GROUP, 2, s, false) && Leads(GROUP, s, t)
    ensures Reachable(GROUP, 2, t, false)
  {
    var steps :| Allowed(GROUP, Init(2), steps) && After(GROUP, Init(2), steps) == s;
    LeadsThrough(GROUP, Init(2), s, t);
  }

  lemma PublishOnce() returns (s: State)
    ensures Group(s, [By("u1:c", 0)], [], [], Idle, Idle, map[])
    ensures s.dedup == map["m" := 1] && s.now == 1 && s.history == Then(Empty, Enqueued("m", "u1:c"))
  {
    Start(GROUP, 2, false);
    OneMore(GROUP, 2, Init(2), false, Publish("m", "u1:c"));
    s := Next(GROUP, Init(2), Publish("m", "u1:c"));
    OneMore(GROUP, 2, s, false, Tick);
    s := Next(GROUP, s, Tick);
    assert s.workers == [Idle, Idle];
  }

  /** The second client emits the message after its dedup key expired. */
  lemma PublishTwice() returns (s: State)
    ensures Group(s, [By("u2:c", 0), By("u1:c", 0)], [], [], Idle, Idle, map[]) && Tally(s, 0)
  {
    s := PublishOnce();
    OneMore(GROUP, 2, s, false, Publish("m", "u2:c"));
    s := Next(GROUP, s, Publish("m", "u2:c"));
  }

  lemma PopOne(s: State, x: Copy, y: Copy, rows: Rows) returns (s': State)
    requires Group(s, [y, x], [], [], Idle, Idle, rows) && x.chat != y.chat
    ensures Group(s', [y], [x], [], Waiting(x), Idle, rows) && s'.history == s.history
  {
    OneMore(GROUP, 2, s, false, Pop(0));
    s' := Next(GROUP, s, Pop(0));
    assert s'.workers == [Waiting(x), Idle];
    assert Line(s'.locks, x.chat) == [] + [0] == [0];
    assert forall chat :: chat != x.chat ==> Line(s'.locks, chat) == Line(s.locks, chat);
  }

  lemma PopOther(s: State, x: Copy, y: Copy, rows: Rows) returns (s': State)
    requires Group(s, [y], [x], [], Waiting(x), Idle, rows) && x.chat != y.chat
    ensures Group(s', [], [y, x], [], Waiting(x), Waiting(y), rows) && s'.history == s.history
  {
    OneMore(GROUP, 2, s, false, Pop(1));
    s' := Next(GROUP, s, Pop(1));
    assert s'.workers == [Waiting(x), Waiting(y)] && s'.processing == [y, x];
    assert Line(s'.locks, y.chat) == [] + [1] == [1];
    assert forall chat :: chat != y.chat ==> Line(s'.locks, chat) == Line(s.locks, chat);
  }

  lemma AcquireTwo(s: State, x: Copy, y: Copy, rows: Rows) returns (s': State)
    requires Group(s, [], [y, x], [], Waiting(x), Waiting(y), rows)
    ensures Group(s', [], [y, x], [], Looking(x), Looking(y), rows)
    ensures s'.history == Then(Then(s.history, Started(x)), Started(y))
  {
    OneMore(GROUP, 2, s, false, Acquire(0));
    s' := Next(GROUP, s, Acquire(0));
    assert Group(s', [], [y, x], [], Looking(x), Waiting(y), rows);
    OneMore(GROUP, 2, s', false, Acquire(1));
    s' := Next(GROUP, s', Acquire(1));
    assert s'.workers == [Looking(x), Looking(y)];
  }

  lemma LoadOne(s: State, x: Copy, y: Copy, rows: Rows) returns (s': State)
    requires Group(s, [], [y, x], [], Looking(x), Looking(y), rows) && DeliveredTo(rows, x.id) == {}
    ensures Group(s', [], [y, x], [], Ran(x, TODO, Ready), Looking(y), rows) && s'.history == s.history
  {
    GroupBranches(x.chat);
    OneMore(GROUP, 2, s, false, Load(0));
    s' := Next(GROUP, s, Load(0));
    assert s'.workers == [Ran(x, TODO, Ready), Looking(y)];
  }

  lemma LoadOther(s: State, x: Copy, y: Copy, rows: Rows) returns (s': State)
    requires Group(s, [], [y, x], [], Ran(x, TODO, Ready), Looking(y), rows) && DeliveredTo(rows, y.id) == {}
    ensures Group(s', [], [y, x], [], Ran(x, TODO, Ready), Ran(y, TODO, Ready), rows) && s'.history == s.history
  {
    GroupBranches(y.chat);
    OneMore(GROUP, 2, s, false, Load(1));
    s' := Next(GROUP, s, Load(1));
    assert s'.workers == [Ran(x, TODO, Ready), Ran(y, TODO, Ready)];
  }

  /** Two queued copies under different keys get as far as running side by side. */
  lemma LoadTwo(s: State, x: Copy, y: Copy, rows: Rows, sends: nat) returns (s': State)
    requires Group(s, [y, x], [], [], Idle, Idle, rows) && x.chat != y.chat && x.id == y.id == "m" && DeliveredTo(rows, "m") == {}
    requires Tally(s, sends)
    ensures Group(s', [], [y, x], [], Ran(x, TODO, Ready), Ran(y, TODO, Ready), rows) && Tally(s', sends)
  {
    s' := PopOne(s, x, y, rows);
    s' := PopOther(s', x, y, rows);
    s' := AcquireTwo(s', x, y, rows);
    s' := LoadOne(s', x, y, rows);
    s' := LoadOther(s', x, y, rows);
  }

  const A0: Copy := By("u1:c", 0)
  const B0: Copy := By("u2:c", 0)

  function Row7(status: Status): Rows {
    map[("m", ForPair(7)) := status]
  }

  lemma FirstHasRow() returns (s: State)
    ensures Group(s, [], [B0, A0], [], Ran(A0, TODO, HasRow), Ran(B0, TODO, Ready), Row7(Pending)) && Tally(s, 0)
  {
    s := PublishTwice();
    s := LoadTwo(s, A0, B0, map[], 0);
    assert AtBranch(s, 0);
    OneMore(GROUP, 2, s, false, InsertPending(0));
    s := Next(GROUP, s, InsertPending(0));
    assert s.workers == [Ran(A0, TODO, HasRow), Ran(B0, TODO, Ready)];
  }

  /** The first run has its pending row, the second delivers and records it. */
  lemma SecondDelivers() returns (s: State)
    ensures Group(s, [], [B0, A0], [], Ran(A0, TODO, HasRow), Ran(B0, [ForPair(8)], Ready), Row7(Delivered)) && Tally(s, 1)
  {
    s := FirstHasRow();
    var t := BranchDone(s, 1, Accept);
    BranchIsARun(GROUP, s, 1, Accept);
    ReachedBy(s, t);
    assert TODO[1..] == [ForPair(8)];
    assert t.workers == [Ran(A0, TODO, HasRow), Ran(B0, [ForPair(8)], Ready)];
    s := t;
  }

  /** One lock key per message is needed for DeliveredIsAbsorbing: a message re-emitted through a
      second client after its dedup key expired runs beside the first copy, and the update of the
      first, which fails, turns the delivered row into a failed one. */
  lemma TwoClientsUndoDelivered() returns (s: State, step: Step)
    ensures Reachable(GROUP, 2, s, false) && IsDelivered(s.rows, "m", ForPair(7))
    ensures Enabled(GROUP, s, step) && Overwrites(s, step, "m", ForPair(7))
    ensures Next(GROUP, s, step).rows == Row7(Failed)
  {
    s := SecondDelivers();
    assert AtBranch(s, 0);
    OneMore(GROUP, 2, s, false, Send(0, false));
    s := Next(GROUP, s, Send(0, false));
    step := Record(0);
  }

  /** The second run raises at the other pair and ends: its copy is in the DLQ. */
  lemma SecondRaises() returns (s: State)
    ensures Group(s, [], [B0, A0], [Entry(B0, 0)], Ran(A0, TODO, HasRow), Ran(B0, [], Ready), Row7(Delivered)) && Tally(s, 1)
  {
    s := SecondDelivers();
    var t := BranchDone(s, 1, Throw(false));
    BranchIsARun(GROUP, s, 1, Throw(false));
    ReachedBy(s, t);
    assert [ForPair(8)][1..] == [];
    assert t.workers == [Ran(A0, TODO, HasRow), Ran(B0, [], Ready)] && t.dlq == [Entry(B0, 0)];
    s := t;
  }

  /** A run that has nothing left to do leaves the head of its line. */
  lemma LineAfterFinish(s: State, w: nat, chat: Chat)
    requires w < |s.workers| && Enabled(GROUP, s, Finish(w)) && s.workers[w].copy.chat == chat && Line(s.locks, chat) == [w]
    ensures forall k :: Line(Next(GROUP, s, Finish(w)).locks, k) == if k == chat then [] else Line(s.locks, k)
  {
    assert [w][1..] == [];
  }

  lemma SecondFinishes() returns (s: State)
    ensures Group(s, [], [B0, A0], [Entry(B0, 0)], Ran(A0, TODO, HasRow), Finished(B0), Row7(Delivered)) && Tally(s, 1)
  {
    s := SecondRaises();
    LineAfterFinish(s, 1, "u2:c");
    OneMore(GROUP, 2, s, false, Finish(1));
    s := Next(GROUP, s, Finish(1));
    assert s.workers == [Ran(A0, TODO, HasRow), Finished(B0)];
  }

  lemma SecondEnds() returns (s: State)
    ensures Group(s, [], [A0], [Entry(B0, 0)], Ran(A0, TODO, HasRow), Idle, Row7(Delivered)) && Tally(s, 1)
  {
    s := SecondFinishes();
    OneMore(GROUP, 2, s, false, Remove(1));
    s := Next(GROUP, s, Remove(1));
    assert s.workers == [Ran(A0, TODO, HasRow), Idle] && s.processing == [A0];
  }

  /** Now the first is refused: its update undoes the delivered row. */
  lemma FirstUndoes() returns (s: State)
    ensures Group(s, [], [A0], [Entry(B0, 0)], Ran(A0, [ForPair(8)], Ready), Idle, Row7(Failed)) && Tally(s, 1)
  {
    s := SecondEnds();
    assert AtBranch(s, 0);
    OneMore(GROUP, 2, s, false, Send(0, false));
    s := Next(GROUP, s, Send(0, false));
    assert s.workers == [Ran(A0, TODO, Sent(false, true)), Idle] && AtBranch(s, 0);
    OneMore(GROUP, 2, s, false, Record(0));
    s := Next(GROUP, s, Record(0));
    assert TODO[1..] == [ForPair(8)];
    assert s.workers == [Ran(A0, [ForPair(8)], Ready), Idle];
  }

  lemma FirstRaises() returns (s: State)
    ensures Group(s, [], [A0], [Entry(A0, 0), Entry(B0, 0)], Ran(A0, [], Ready), Idle, Row7(Failed)) && Tally(s, 1)
  {
    s := FirstUndoes();
    var t := BranchDone(s, 0, Throw(false));
    BranchIsARun(GROUP, s, 0, Throw(false));
    ReachedBy(s, t);
    assert [ForPair(8)][1..] == [];
    assert t.workers == [Ran(A0, [], Ready), Idle] && t.dlq == [Entry(A0, 0), Entry(B0, 0)];
    s := t;
  }

  lemma FirstFinishes() returns (s: State)
    ensures Group(s, [], [A0], [Entry(A0, 0), Entry(B0, 0)], Finished(A0), Idle, Row7(Failed)) && Tally(s, 1)
  {
    s := FirstRaises();
    LineAfterFinish(s, 0, "u1:c");
    OneMore(GROUP, 2, s, false, Finish(0));
    s := Next(GROUP, s, Finish(0));
    assert s.workers == [Finished(A0), Idle];
  }

  lemma FirstEnds() returns (s: State)
    ensures Group(s, [], [], [Entry(A0, 0), Entry(B0, 0)], Idle, Idle, Row7(Failed)) && Tally(s, 1)
  {
    s := FirstFinishes();
    OneMore(GROUP, 2, s, false, Remove(0));
    s := Next(GROUP, s, Remove(0));
    assert s.workers == [Idle, Idle] && s.processing == [];
  }

  lemma BothRetried() returns (s: State)
    ensures Group(s, [By("u1:c", 1), By("u2:c", 1)], [], [], Idle, Idle, Row7(Failed)) && Tally(s, 1)
  {
    s := FirstEnds();
    DlqPassIsARun(GROUP, s, 2);
    var t := Passed(GROUP, s, 2);
    ReachedBy(s, t);
    RetriedBoth(s.dlq);
    assert s.dlq[..0] == [] && s.dlq[0..] == s.dlq;
    s := t;
  }

  lemma RetriedBoth(dlq: seq<Entry>)
    requires dlq == [Entry(A0, 0), Entry(B0, 0)]
    ensures Retried(dlq, GROUP.maxAttempts) == [By("u1:c", 1), By("u2:c", 1)]
  {
    PlacedOne(Entry(A0, 0), [Entry(B0, 0)], GROUP.maxAttempts);
    PlacedOne(Entry(B0, 0), [], GROUP.maxAttempts);
    assert dlq == [Entry(A0, 0)] + [Entry(B0, 0)] && [Entry(B0, 0)] == [Entry(B0, 0)] + [];
  }

  lemma SendOne(s: State, w: nat, x: Copy, y: Copy, rows: Rows, sends: nat) returns (s': State)
    requires Group(s, [], [y, x], [], Ran(x, TODO, if w == 1 then Sent(true, false) else Ready), Ran(y, TODO, Ready), rows)
    requires w < 2 && x.id == y.id == "m" && Tally(s, sends)
    ensures Group(s', [], [y, x], [], Ran(x, TODO, Sent(true, false)), Ran(y, TODO, if w == 1 then Sent(true, false) else Ready), rows)
    ensures Tally(s', sends + 1)
  {
    assert AtBranch(s, w);
    OneMore(GROUP, 2, s, false, Send(w, true));
    s' := Next(GROUP, s, Send(w, true));
    assert s'.workers == [Ran(x, TODO, Sent(true, false)), Ran(y, TODO, if w == 1 then Sent(true, false) else Ready)];
  }

  /** One lock key per message is needed for SendsAreBounded: both copies are retried while the row
      says failed, run side by side and are accepted; three sends for two enqueues, and no crash. */
  lemma TwoClientsSendThrice() returns (s: State)
    ensures Reachable(GROUP, 2, s, false) && Tally(s, 3)
    ensures Sends(s.history, "m", ForPair(7)) > Enqueues(s.history, "m") + CrashesInDoubt(s.history, "m", ForPair(7))
  {
    s := BothRetried();
    assert DeliveredTo(Row7(Failed), "m") == {};
    s := LoadTwo(s, By("u2:c", 1), By("u1:c", 1), Row7(Failed), 1);
    s := SendOne(s, 0, By("u2:c", 1), By("u1:c", 1), Row7(Failed), 1);
    s := SendOne(s, 1, By("u2:c", 1), By("u1:c", 1), Row7(Failed), 2);
  }
}
