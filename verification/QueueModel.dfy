/** The message queue between wa-service and the processor, as a labelled step system.

    Four Redis lists, N workers behind per-chat FIFO locks, the dead-letter loop with the one
    entry it holds between its two Redis commands, the `message_events` table, the dedup keys
    and a clock.  One step is one command (or one uninterrupted stretch of code between two
    awaits), so every interleaving of the real processes is a sequence of steps.

    Lists are written left to right as Redis stores them: LPUSH adds at index 0, BLMOVE and
    RPOP take the last element. */
module QueueModel {
  import opened Wrappers

  /** The dedup id of a message: `payload.wa_message_id` after publishMessage rewrote it. */
  type Id = string

  /** The lock key `user_id:wa_chat_id`. */
  type Chat = string

  /** One run of the pipeline: for a chat pair, or the single run of a chat without pairs. */
  datatype Branch = ForPair(pair: nat) | PairLess

  /** What travels through the lists; `attempts` and `requeued` are the payload's
      `_dlq_attempts` and `_requeued`. */
  datatype Copy = Copy(id: Id, chat: Chat, attempts: nat, requeued: bool) {
    predicate Marked() {
      attempts > 0 || requeued
    }
  }

  datatype Entry = Entry(copy: Copy, attempts: nat)

  datatype Status = Pending | Failed | Skipped | Delivered

  type Rows = map<(Id, Branch), Status>

  /** Where a branch is: nothing sent, a `pending` row holds its event id, or Telegram
      answered and the row still has to be written. */
  datatype Phase = Ready | HasRow | Sent(ok: bool, viaRow: bool)

  datatype Worker =
    | Idle
    | Waiting(copy: Copy)                       // popped, queued on the chat lock
    | Looking(copy: Copy)                       // lock held, pairs being looked up
    | Running(copy: Copy, todo: seq<Branch>, delivered: set<Branch>, phase: Phase)
    | Finished(copy: Copy)                      // lock released, LREM still to come
  {
    predicate Engaged() {
      Waiting? || Looking? || Running?
    }

    predicate HoldsLock() {
      Looking? || Running?
    }
  }

  /** `pairs` is the lookup of a chat's active pairs, `maxAttempts` is DLQ_MAX_ATTEMPTS and
      `ttl` is DEDUP_TTL. */
  datatype Config = Config(pairs: Chat -> seq<nat>, maxAttempts: nat, ttl: nat) {
    /** A lookup returns rows of one table, each pair once. */
    ghost predicate Valid() {
      forall chat: Chat, i, j :: 0 <= i < j < |pairs(chat)| ==> pairs(chat)[i] != pairs(chat)[j]
    }

    function Branches(chat: Chat): (r: seq<Branch>)
      ensures |r| == if |pairs(chat)| == 0 then 1 else |pairs(chat)|
    {
      if |pairs(chat)| == 0 then [PairLess]
      else seq(|pairs(chat)|, i requires 0 <= i < |pairs(chat)| => ForPair(pairs(chat)[i]))
    }
  }

  /** A message of `chat` is due at each of the chat's pairs, and at no pair when the chat has none. */
  predicate IsDue(c: Config, chat: Chat, b: Branch) {
    if b.ForPair? then b.pair in c.pairs(chat) else c.pairs(chat) == []
  }

  /** The fan-out goes exactly there. */
  lemma BranchesAreDue(c: Config, chat: Chat, b: Branch)
    ensures b in c.Branches(chat) <==> IsDue(c, chat, b)
  {
    var branches, pairs := c.Branches(chat), c.pairs(chat);
    if pairs != [] {
      if b in branches {
        var i :| 0 <= i < |branches| && branches[i] == b;
        assert b == ForPair(pairs[i]);
      }
      if b.ForPair? && b.pair in pairs {
        var i :| 0 <= i < |pairs| && pairs[i] == b.pair;
        assert branches[i] == b;
      }
    }
  }

  datatype Event =
    | Enqueued(id: Id, chat: Chat)
    | Started(copy: Copy)
    | Accepted(id: Id, branch: Branch)
    | Crashed(inDoubt: set<(Id, Branch)>)

  /** What an observer of the whole run has seen so far, latest event outermost. */
  datatype History = Empty | Then(before: History, event: Event)

  datatype State = State(
    queue: seq<Copy>,                 // messages:in
    processing: seq<Copy>,            // messages:processing
    dlq: seq<Entry>,                  // messages:dlq
    dead: seq<Entry>,                 // messages:dlq:dead
    hand: Option<Entry>,              // popped by the DLQ loop, not placed yet
    workers: seq<Worker>,
    locks: map<Chat, seq<nat>>,       // FIFO of workers per chat, the holder first
    rows: Rows,                       // message_events
    dedup: map<Id, nat>,              // dedup key -> expiry time
    now: nat,
    serving: bool,                    // false while _requeue_inflight runs
    pushed: bool,                     // recovery: RPUSH done, LREM not yet
    history: History)

  function Init(workers: nat): State {
    State([], [], [], [], None, seq(workers, _ => Idle), map[], map[], map[], 0, true, false, Empty)
  }

  function Line(locks: map<Chat, seq<nat>>, chat: Chat): seq<nat> {
    if chat in locks then locks[chat] else []
  }

  function Mark(copy: Copy): Copy {
    copy.(requeued := true)
  }

  /** LREM list 1 x: the leftmost element equal to x goes. */
  function RemoveFirst<T(==)>(s: seq<T>, x: T): seq<T> {
    if s == [] then [] else if s[0] == x then s[1..] else [s[0]] + RemoveFirst(s[1..], x)
  }

  function DeliveredTo(rows: Rows, id: Id): set<Branch> {
    set key | key in rows.Keys && key.0 == id && rows[key] == Delivered :: key.1
  }

  /** `on conflict do update ... where delivery_status != 'delivered'`. */
  function Upsert(rows: Rows, key: (Id, Branch), status: Status): Rows {
    if key in rows && rows[key] == Delivered then rows else rows[key := status]
  }

  /** Messages whose send Telegram accepted and whose row is not written yet. */
  function InDoubt(workers: seq<Worker>): set<(Id, Branch)> {
    set w | 0 <= w < |workers| && workers[w].Running? && workers[w].phase.Sent? && workers[w].phase.ok
            && workers[w].todo != [] :: (workers[w].copy.id, workers[w].todo[0])
  }

  datatype Step =
    | Publish(id: Id, chat: Chat)
    | Tick
    | Pop(w: nat)                     // BLMOVE and joining the lock's queue
    | Acquire(w: nat)
    | Load(w: nat)                    // pairs and, for a marked copy, the delivered pairs read
    | LoadFailed(w: nat)
    | DedupSkip(w: nat)
    | InsertPending(w: nat)
    | Send(w: nat, ok: bool)
    | Record(w: nat)
    | SkipBranch(w: nat)              // no chat pair
    | Raise(w: nat)                   // the branch raised: its copy goes to the DLQ
    | Finish(w: nat)
    | Remove(w: nat)                  // LREM
    | DlqPop
    | DlqPlace
    | CancelDlq                       // graceful shutdown cancels the DLQ loop
    | Crash
    | RecoverPush
    | RecoverRemove
    | RecoverDone
  {
    /** Steps inside _process_message: lists `in` and `processing` and the locks stay put. */
    predicate Inside() {
      Load? || LoadFailed? || DedupSkip? || InsertPending? || Send? || Record? || SkipBranch? || Raise?
    }
  }

  predicate DedupLive(s: State, id: Id) {
    id in s.dedup && s.now < s.dedup[id]
  }

  /** Worker `w` is at a branch that its delivered check did not rule out. */
  predicate AtBranch(s: State, w: nat) {
    w < |s.workers| && s.workers[w].Running? && s.workers[w].todo != []
    && s.workers[w].todo[0] !in s.workers[w].delivered
  }

  predicate Enabled(c: Config, s: State, step: Step) {
    match step
    case Publish(_, _) => true
    case Tick => true
    case Pop(w) => s.serving && w < |s.workers| && s.workers[w].Idle? && s.queue != []
    case Acquire(w) =>
      w < |s.workers| && s.workers[w].Waiting?
      && Line(s.locks, s.workers[w].copy.chat) != [] && Line(s.locks, s.workers[w].copy.chat)[0] == w
    case Load(w) => w < |s.workers| && s.workers[w].Looking?
    case LoadFailed(w) => w < |s.workers| && s.workers[w].Looking?
    case DedupSkip(w) =>
      w < |s.workers| && s.workers[w].Running? && s.workers[w].todo != [] && s.workers[w].todo[0] in s.workers[w].delivered
    case InsertPending(w) => AtBranch(s, w) && s.workers[w].phase.Ready? && s.workers[w].todo[0].ForPair?
    case Send(w, _) => AtBranch(s, w) && !s.workers[w].phase.Sent? && s.workers[w].todo[0].ForPair?
    case Record(w) => AtBranch(s, w) && s.workers[w].phase.Sent?
    case SkipBranch(w) => AtBranch(s, w) && s.workers[w].phase.Ready? && s.workers[w].todo[0].PairLess?
    case Raise(w) => AtBranch(s, w) && !(s.workers[w].phase.Sent? && s.workers[w].phase.ok)
    case Finish(w) =>
      w < |s.workers| && s.workers[w].Running? && s.workers[w].todo == []
      && Line(s.locks, s.workers[w].copy.chat) != []
    case Remove(w) => w < |s.workers| && s.workers[w].Finished?
    case DlqPop => s.hand.None? && s.dlq != []
    case DlqPlace => s.hand.Some?
    case CancelDlq => true
    case Crash => true
    case RecoverPush => !s.serving && !s.pushed && s.processing != []
    case RecoverRemove => !s.serving && s.pushed && s.processing != []
    case RecoverDone => !s.serving && s.processing == []
  }

  function Log(s: State, event: Event): History {
    Then(s.history, event)
  }

  /** The branch at the front of worker `w` is over. */
  function Advance(workers: seq<Worker>, w: nat): seq<Worker>
    requires w < |workers| && workers[w].Running? && workers[w].todo != []
  {
    workers[w := workers[w].(todo := workers[w].todo[1..], phase := Ready)]
  }

  function DlqPush(dlq: seq<Entry>, copy: Copy): seq<Entry> {
    [Entry(copy, copy.attempts)] + dlq
  }

  function NextInside(c: Config, s: State, step: Step): State
    requires step.Inside() && Enabled(c, s, step)
  {
    var worker := s.workers[step.w];
    match step
    case Load(w) =>
      var delivered := if worker.copy.Marked() then DeliveredTo(s.rows, worker.copy.id) else {};
      s.(workers := s.workers[w := Running(worker.copy, c.Branches(worker.copy.chat), delivered, Ready)])
    case LoadFailed(w) =>
      s.(workers := s.workers[w := Running(worker.copy, [], {}, Ready)], dlq := DlqPush(s.dlq, worker.copy))
    case DedupSkip(w) => s.(workers := Advance(s.workers, w))
    case InsertPending(w) =>
      var key := (worker.copy.id, worker.todo[0]);
      if key in s.rows && s.rows[key] == Delivered then s   // no event id: plain delivery instead
      else s.(rows := s.rows[key := Pending], workers := s.workers[w := worker.(phase := HasRow)])
    case Send(w, ok) =>
      s.(workers := s.workers[w := worker.(phase := Sent(ok, worker.phase.HasRow?))],
         history := if ok then Log(s, Accepted(worker.copy.id, worker.todo[0])) else s.history)
    case Record(w) =>
      var key := (worker.copy.id, worker.todo[0]);
      var status := if worker.phase.ok then Delivered else Failed;
      s.(rows := if worker.phase.viaRow then s.rows[key := status] else Upsert(s.rows, key, status),
         workers := Advance(s.workers, w))
    case SkipBranch(w) =>
      s.(rows := Upsert(s.rows, (worker.copy.id, worker.todo[0]), Skipped), workers := Advance(s.workers, w))
    case Raise(w) => s.(workers := Advance(s.workers, w), dlq := DlqPush(s.dlq, worker.copy))
  }

  /** Where the DLQ loop puts the entry it holds. */
  function Placed(c: Config, s: State, e: Entry): State {
    if e.attempts + 1 > c.maxAttempts then s.(hand := None, dead := [e] + s.dead)
    else s.(hand := None, queue := [e.copy.(attempts := e.attempts + 1)] + s.queue)
  }

  function Next(c: Config, s: State, step: Step): State
    requires Enabled(c, s, step)
  {
    if step.Inside() then NextInside(c, s, step) else
    match step
    case Publish(id, chat) =>
      if DedupLive(s, id) then s
      else s.(dedup := s.dedup[id := s.now + c.ttl], queue := [Copy(id, chat, 0, false)] + s.queue,
              history := Log(s, Enqueued(id, chat)))
    case Tick => s.(now := s.now + 1)
    case Pop(w) =>
      var copy := s.queue[|s.queue| - 1];
      s.(queue := s.queue[..|s.queue| - 1], processing := [copy] + s.processing,
         workers := s.workers[w := Waiting(copy)],
         locks := s.locks[copy.chat := Line(s.locks, copy.chat) + [w]])
    case Acquire(w) =>
      var copy := s.workers[w].copy;
      s.(workers := s.workers[w := Looking(copy)], history := Log(s, Started(copy)))
    case Finish(w) =>
      var copy := s.workers[w].copy;
      s.(workers := s.workers[w := Finished(copy)], locks := s.locks[copy.chat := Line(s.locks, copy.chat)[1..]])
    case Remove(w) =>
      s.(workers := s.workers[w := Idle], processing := RemoveFirst(s.processing, s.workers[w].copy))
    case DlqPop => s.(hand := Some(s.dlq[|s.dlq| - 1]), dlq := s.dlq[..|s.dlq| - 1])
    case DlqPlace => Placed(c, s, s.hand.value)
    case CancelDlq => s.(hand := None)
    case Crash =>
      s.(workers := seq(|s.workers|, _ => Idle), locks := map[], hand := None, serving := false, pushed := false,
         history := Log(s, Crashed(InDoubt(s.workers))))
    case RecoverPush => s.(queue := s.queue + [Mark(s.processing[0])], pushed := true)
    case RecoverRemove => s.(processing := RemoveFirst(s.processing, s.processing[0]), pushed := false)
    case RecoverDone => s.(serving := true)
  }

  predicate Allowed(c: Config, s: State, steps: seq<Step>)
    decreases |steps|
  {
    steps == [] || (Enabled(c, s, steps[0]) && Allowed(c, Next(c, s, steps[0]), steps[1..]))
  }

  /** The state after a run. */
  function After(c: Config, s: State, steps: seq<Step>): State
    requires Allowed(c, s, steps)
    decreases |steps|
  {
    if steps == [] then s else After(c, Next(c, s, steps[0]), steps[1..])
  }

  /** A message is re-emitted only while its dedup key lives (DEDUP_TTL after its enqueue). */
  predicate PromptStep(s: State, step: Step) {
    step.Publish? && step.id in s.dedup ==> s.now < s.dedup[step.id]
  }

  predicate Prompt(c: Config, s: State, steps: seq<Step>)
    requires Allowed(c, s, steps)
    decreases |steps|
  {
    steps == [] || (PromptStep(s, steps[0]) && Prompt(c, Next(c, s, steps[0]), steps[1..]))
  }

  // What a history says.

  predicate EnqueuedIn(h: History, id: Id, chat: Chat) {
    h.Then? && (h.event == Enqueued(id, chat) || EnqueuedIn(h.before, id, chat))
  }

  predicate HasStarted(h: History, id: Id) {
    h.Then? && ((h.event.Started? && h.event.copy.id == id) || HasStarted(h.before, id))
  }

  /** The same under one lock key. */
  predicate Begun(h: History, id: Id, chat: Chat) {
    h.Then? && ((h.event.Started? && h.event.copy.id == id && h.event.copy.chat == chat) || Begun(h.before, id, chat))
  }

  /** How often message `id` was enqueued. */
  function Enqueues(h: History, id: Id): nat {
    if h.Empty? then 0 else Enqueues(h.before, id) + if h.event.Enqueued? && h.event.id == id then 1 else 0
  }

  /** How often Telegram accepted message `id` for `branch`. */
  function Sends(h: History, id: Id, branch: Branch): nat {
    if h.Empty? then 0 else Sends(h.before, id, branch) + if h.event == Accepted(id, branch) then 1 else 0
  }

  /** Crashes that fell between an accepted send of (id, branch) and its record. */
  function CrashesInDoubt(h: History, id: Id, branch: Branch): nat {
    if h.Empty? then 0 else
    CrashesInDoubt(h.before, id, branch) + if h.event.Crashed? && (id, branch) in h.event.inDoubt then 1 else 0
  }

  /** Messages of a chat in the order they were enqueued. */
  function QueuedIds(h: History, chat: Chat): seq<Id> {
    if h.Empty? then [] else
    QueuedIds(h.before, chat) + if h.event.Enqueued? && h.event.chat == chat then [h.event.id] else []
  }

  /** Messages of a chat in the order they were first enqueued. */
  function FirstQueued(h: History, chat: Chat): seq<Id> {
    if h.Empty? then [] else
    FirstQueued(h.before, chat)
    + if h.event.Enqueued? && h.event.chat == chat && !EnqueuedIn(h.before, h.event.id, chat) then [h.event.id] else []
  }

  /** Messages of a chat in the order their first processing began. */
  function FirstStarts(h: History, chat: Chat): seq<Id> {
    if h.Empty? then [] else
    FirstStarts(h.before, chat)
    + if h.event.Started? && h.event.copy.chat == chat && !Begun(h.before, h.event.copy.id, chat)
      then [h.event.copy.id] else []
  }

  function Starts(h: History, id: Id): nat {
    if h.Empty? then 0 else Starts(h.before, id) + if h.event.Started? && h.event.copy.id == id then 1 else 0
  }
}
