/** Per-chat order over every run: under each lock key, first processings begin in the order of
    first enqueues, with any number of workers, late re-emits, retries, and crashes in any step,
    recovery steps included.

    Two invariants carry it.  In `messages:in` followed by `messages:processing`, read as one list,
    every copy of a message not started yet has, to its right, a copy of each earlier message of its
    chat not started yet; and in a chat's lock line such a copy has them before it. */
module QueueOrder {
  import opened QueueModel
  import opened QueueLocks
  import opened QueueTrace

  function Find<T(==)>(s: seq<T>, x: T): (r: nat)
    ensures r <= |s| && (r < |s| <==> x in s) && (x in s ==> s[r] == x)
  {
    if s == [] then 0 else if s[0] == x then 0 else 1 + Find(s[1..], x)
  }

  lemma {:induction false} FindAppend<T>(s: seq<T>, y: T, x: T)
    ensures Find(s + [y], x) == if x in s then Find(s, x) else if x == y then |s| else |s| + 1
  {
    if s != [] && s[0] != x {
      assert (s + [y])[1..] == s[1..] + [y];
      FindAppend(s[1..], y, x);
    }
  }

  lemma {:induction false} FindAt<T>(s: seq<T>, n: nat)
    requires n < |s| && forall i, j :: 0 <= i < j < |s| ==> s[i] != s[j]
    ensures Find(s, s[n]) == n
  {
    if n > 0 { FindAt(s[1..], n - 1); }
  }

  // The enqueue order of a chat.

  lemma {:induction false} FirstQueuedMembers(h: History, chat: Chat, id: Id)
    ensures id in FirstQueued(h, chat) <==> EnqueuedIn(h, id, chat)
  {
    if h.Then? {
      FirstQueuedMembers(h.before, chat, id);
      if h.event.Enqueued? { FirstQueuedMembers(h.before, chat, h.event.id); }
    }
  }

  lemma {:induction false} FirstQueuedDistinct(h: History, chat: Chat)
    ensures forall i, j :: 0 <= i < j < |FirstQueued(h, chat)| ==> FirstQueued(h, chat)[i] != FirstQueued(h, chat)[j]
  {
    if h.Then? {
      FirstQueuedDistinct(h.before, chat);
      if h.event.Enqueued? { FirstQueuedMembers(h.before, chat, h.event.id); }
    }
  }

  lemma {:induction false} FirstStartsStarted(h: History, chat: Chat, id: Id)
    requires id in FirstStarts(h, chat)
    ensures Begun(h, id, chat)
  {
    if id in FirstStarts(h.before, chat) { FirstStartsStarted(h.before, chat, id); }
  }

  /** `y` is of the chat of `x`, was enqueued first before `x` was, and is not started. */
  predicate Due(h: History, y: Id, x: Copy) {
    && EnqueuedIn(h, y, x.chat) && !Begun(h, y, x.chat)
    && Find(FirstQueued(h, x.chat), y) < Find(FirstQueued(h, x.chat), x.id)
  }

  ghost predicate HasCopy(copies: seq<Copy>, id: Id, chat: Chat) {
    exists copy :: copy in copies && copy.id == id && copy.chat == chat
  }

  ghost predicate Covers(h: History, x: Copy, rest: seq<Copy>) {
    !Begun(h, x.id, x.chat) ==> forall y :: Due(h, y, x) ==> HasCopy(rest, y, x.chat)
  }

  /** Every copy is covered by those to its right. */
  ghost predicate InOrder(h: History, copies: seq<Copy>) {
    copies == [] || (Covers(h, copies[0], copies[1..]) && InOrder(h, copies[1..]))
  }

  ghost predicate UnstartedIn(h: History, copies: seq<Copy>) {
    forall id, chat :: EnqueuedIn(h, id, chat) && !Begun(h, id, chat) ==> HasCopy(copies, id, chat)
  }

  function Backlog(s: State): seq<Copy> {
    s.queue + s.processing
  }

  ghost predicate WaitsBefore(workers: seq<Worker>, line: seq<nat>, j: nat, y: Id) {
    exists i :: 0 <= i < j && i < |line| && line[i] < |workers| && !workers[line[i]].Idle? && workers[line[i]].copy.id == y
  }

  /** Place `j` of a line is covered by the places before it. */
  ghost predicate PlaceCovered(h: History, workers: seq<Worker>, line: seq<nat>, j: nat) {
    j < |line| && line[j] < |workers| && !workers[line[j]].Idle? && !Begun(h, workers[line[j]].copy.id, workers[line[j]].copy.chat) ==>
      forall y :: Due(h, y, workers[line[j]].copy) ==> WaitsBefore(workers, line, j, y)
  }

  ghost predicate LinesOrdered(s: State) {
    forall chat, j: nat :: chat in s.locks && j < |s.locks[chat]| ==> PlaceCovered(s.history, s.workers, s.locks[chat], j)
  }

  ghost predicate StartsOrdered(h: History) {
    && (forall chat :: FirstStarts(h, chat) <= FirstQueued(h, chat))
    && (forall chat, id :: EnqueuedIn(h, id, chat) && Begun(h, id, chat) ==> id in FirstStarts(h, chat))
  }

  ghost predicate Ordered(s: State) {
    && Traced(s)
    && InOrder(s.history, Backlog(s)) && UnstartedIn(s.history, Backlog(s))
    && LinesOrdered(s) && StartsOrdered(s.history)
  }

  // Changing the history.

  /** Whatever is due or unstarted afterwards was so before. */
  ghost predicate Calmer(h: History, h': History) {
    && (forall y, x :: Due(h', y, x) && Known(h, x) ==> Due(h, y, x))
    && (forall id, chat :: Begun(h, id, chat) ==> Begun(h', id, chat))
  }

  lemma {:induction false} InOrderCalmer(h: History, h': History, copies: seq<Copy>)
    requires Calmer(h, h') && InOrder(h, copies) && forall copy :: copy in copies ==> Known(h, copy)
    ensures InOrder(h', copies)
  {
    if copies != [] {
      assert copies[0] in copies;
      InOrderCalmer(h, h', copies[1..]);
    }
  }

  /** Neither enqueued nor started anything. */
  lemma QuietLedger(c: Config, s: State, step: Step)
    requires Enabled(c, s, step) && !step.Publish? && !step.Acquire?
    ensures var h, h' := s.history, Next(c, s, step).history;
            forall chat :: FirstQueued(h', chat) == FirstQueued(h, chat) && FirstStarts(h', chat) == FirstStarts(h, chat)
  {
    HistoryShape(c, s, step);
    QuietLists(s.history, Next(c, s, step).history);
  }

  lemma QuietLists(h: History, h': History)
    requires h' == h || (h'.Then? && h'.before == h && (h'.event.Accepted? || h'.event.Crashed?))
    ensures forall chat :: FirstQueued(h', chat) == FirstQueued(h, chat) && FirstStarts(h', chat) == FirstStarts(h, chat)
  {
  }

  ghost predicate SameLedger(h: History, h': History) {
    && SameTrace(h, h')
    && forall chat :: FirstQueued(h', chat) == FirstQueued(h, chat) && FirstStarts(h', chat) == FirstStarts(h, chat)
  }

  lemma SameIsCalmer(h: History, h': History)
    requires SameLedger(h, h')
    ensures Calmer(h, h') && Calmer(h', h)
  {
  }

  // Changing the backlog.

  lemma UnstartedStays(h: History, copies: seq<Copy>, more: seq<Copy>)
    requires UnstartedIn(h, copies) && forall copy :: copy in copies ==> copy in more
    ensures UnstartedIn(h, more)
  {
    forall id, chat | EnqueuedIn(h, id, chat) && !Begun(h, id, chat) ensures HasCopy(more, id, chat) {
      assert HasCopy(copies, id, chat);
    }
  }

  lemma HasCopyStays(copies: seq<Copy>, more: seq<Copy>, y: Id, chat: Chat)
    requires HasCopy(copies, y, chat)
    requires forall copy :: copy in copies && copy.id == y && copy.chat == chat ==> copy in more
    ensures HasCopy(more, y, chat)
  {
  }

  /** A copy may go when its message was started. */
  lemma {:induction false} DropStarted(h: History, a: seq<Copy>, x: Copy, b: seq<Copy>)
    requires InOrder(h, a + [x] + b) && Begun(h, x.id, x.chat)
    ensures InOrder(h, a + b)
  {
    var whole := a + [x] + b;
    if a == [] {
      assert whole[1..] == b && a + b == b;
    } else {
      assert whole[1..] == a[1..] + [x] + b && (a + b)[1..] == a[1..] + b;
      DropStarted(h, a[1..], x, b);
      assert Covers(h, a[0], a[1..] + [x] + b);
      forall y | !Begun(h, a[0].id, a[0].chat) && Due(h, y, a[0]) ensures HasCopy(a[1..] + b, y, a[0].chat) {
        HasCopyStays(a[1..] + [x] + b, a[1..] + b, y, a[0].chat);
      }
    }
  }

  lemma DropStartedKept(h: History, a: seq<Copy>, x: Copy, b: seq<Copy>)
    requires UnstartedIn(h, a + [x] + b) && Begun(h, x.id, x.chat)
    ensures UnstartedIn(h, a + b)
  {
    forall id, chat | EnqueuedIn(h, id, chat) && !Begun(h, id, chat) ensures HasCopy(a + b, id, chat) {
      HasCopyStays(a + [x] + b, a + b, id, chat);
    }
  }

  /** The marked twin RPUSHed by recovery stands right next to its original. */
  lemma {:induction false} TwinJoins(h: History, a: seq<Copy>, x: Copy, b: seq<Copy>)
    requires InOrder(h, a + ([x] + b))
    ensures InOrder(h, a + ([Mark(x), x] + b))
  {
    var before, after := a + ([x] + b), a + ([Mark(x), x] + b);
    if a == [] {
      assert before == [x] + b && after == [Mark(x)] + before && after[1..] == before && before[1..] == b;
      forall y | !Begun(h, x.id, x.chat) && Due(h, y, Mark(x)) ensures HasCopy(before, y, x.chat) {
        assert Due(h, y, x);
        HasCopyStays(b, before, y, x.chat);
      }
    } else {
      assert before[1..] == a[1..] + ([x] + b) && after[1..] == a[1..] + ([Mark(x), x] + b);
      TwinJoins(h, a[1..], x, b);
      forall y | !Begun(h, a[0].id, a[0].chat) && Due(h, y, a[0]) ensures HasCopy(after[1..], y, a[0].chat) {
        HasCopyStays(before[1..], after[1..], y, a[0].chat);
      }
    }
  }

  lemma TwinCopy(x: Copy, a: seq<Copy>, b: seq<Copy>, y: Id, chat: Chat)
    requires HasCopy(a + ([Mark(x), x] + b), y, chat)
    ensures HasCopy(a + ([Mark(x)] + b), y, chat)
  {
    var copy :| copy in a + ([Mark(x), x] + b) && copy.id == y && copy.chat == chat;
    assert Mark(x) in a + ([Mark(x)] + b);
    if copy != x { assert copy in a + ([Mark(x)] + b); }
  }

  /** The original goes, its twin stays. */
  lemma {:induction false} OriginalLeaves(h: History, a: seq<Copy>, x: Copy, b: seq<Copy>)
    requires InOrder(h, a + ([Mark(x), x] + b))
    ensures InOrder(h, a + ([Mark(x)] + b))
  {
    var before, after := a + ([Mark(x), x] + b), a + ([Mark(x)] + b);
    if a == [] {
      assert before[1..] == [x] + b && before[1..][1..] == b && after[1..] == b;
      forall y | !Begun(h, x.id, x.chat) && Due(h, y, Mark(x)) ensures HasCopy(b, y, x.chat) {
        HasCopyStays([x] + b, b, y, x.chat);
      }
    } else {
      assert before[1..] == a[1..] + ([Mark(x), x] + b) && after[1..] == a[1..] + ([Mark(x)] + b);
      OriginalLeaves(h, a[1..], x, b);
      forall y | !Begun(h, a[0].id, a[0].chat) && Due(h, y, a[0]) ensures HasCopy(after[1..], y, a[0].chat) {
        TwinCopy(x, a[1..], b, y, a[0].chat);
      }
    }
  }

  /** What covers a copy inside the list. */
  lemma {:induction false} CoveredInside(h: History, a: seq<Copy>, x: Copy, b: seq<Copy>)
    requires InOrder(h, a + ([x] + b))
    ensures Covers(h, x, b)
  {
    var whole := a + ([x] + b);
    if a == [] {
      assert whole[1..] == b;
    } else {
      assert whole[1..] == a[1..] + ([x] + b);
      CoveredInside(h, a[1..], x, b);
    }
  }

  lemma {:induction false} RemoveSplit<T>(s: seq<T>, x: T) returns (k: nat)
    requires x in s
    ensures k < |s| && s[k] == x && s == s[..k] + [x] + s[k + 1..] && RemoveFirst(s, x) == s[..k] + s[k + 1..]
  {
    if s[0] == x {
      k := 0;
    } else {
      var rest := s[1..];
      var j := RemoveSplit(rest, x);
      k := j + 1;
      assert s[..k] == [s[0]] + rest[..j] && s[k + 1..] == rest[j + 1..];
    }
  }

  /** The backlog part of the invariant. */
  ghost predicate BacklogOk(h: History, copies: seq<Copy>) {
    InOrder(h, copies) && UnstartedIn(h, copies)
  }

  lemma RemoveFromBacklog(h: History, queue: seq<Copy>, processing: seq<Copy>, x: Copy)
    requires x in processing && Begun(h, x.id, x.chat) && BacklogOk(h, queue + processing)
    ensures BacklogOk(h, queue + RemoveFirst(processing, x))
  {
    var k := RemoveSplit(processing, x);
    var left, right := queue + processing[..k], processing[k + 1..];
    assert queue + processing == left + [x] + right;
    assert queue + RemoveFirst(processing, x) == left + right;
    DropStarted(h, left, x, right);
    DropStartedKept(h, left, x, right);
  }

  lemma RecoverPushBacklog(h: History, queue: seq<Copy>, processing: seq<Copy>)
    requires processing != [] && BacklogOk(h, queue + processing)
    ensures BacklogOk(h, (queue + [Mark(processing[0])]) + processing)
  {
    var x, rest := processing[0], processing[1..];
    assert queue + processing == queue + ([x] + rest);
    assert (queue + [Mark(x)]) + processing == queue + ([Mark(x), x] + rest);
    TwinJoins(h, queue, x, rest);
    UnstartedStays(h, queue + processing, (queue + [Mark(x)]) + processing);
  }

  lemma RecoverRemoveBacklog(h: History, queue: seq<Copy>, processing: seq<Copy>)
    requires processing != [] && queue != [] && queue[|queue| - 1] == Mark(processing[0])
    requires BacklogOk(h, queue + processing)
    ensures BacklogOk(h, queue + processing[1..])
  {
    var a, x, rest := queue[..|queue| - 1], processing[0], processing[1..];
    assert queue + processing == a + ([Mark(x), x] + rest);
    assert queue + rest == a + ([Mark(x)] + rest);
    OriginalLeaves(h, a, x, rest);
    forall id, chat | EnqueuedIn(h, id, chat) && !Begun(h, id, chat) ensures HasCopy(queue + rest, id, chat) {
      TwinCopy(x, a, rest, id, chat);
    }
  }

  lemma StartedJoins(h: History, x: Copy, copies: seq<Copy>)
    requires Begun(h, x.id, x.chat) && BacklogOk(h, copies)
    ensures BacklogOk(h, [x] + copies)
  {
    assert ([x] + copies)[1..] == copies;
    UnstartedStays(h, copies, [x] + copies);
  }

  lemma {:induction false} InOrderTail(h: History, a: seq<Copy>, b: seq<Copy>)
    requires InOrder(h, a + b)
    ensures InOrder(h, b)
  {
    if a == [] {
      assert a + b == b;
    } else {
      assert (a + b)[1..] == a[1..] + b;
      InOrderTail(h, a[1..], b);
    }
  }

  // Enqueueing.

  lemma EnqueueCalmer(h: History, id: Id, chat: Chat)
    ensures Calmer(h, Then(h, Enqueued(id, chat)))
  {
    var h' := Then(h, Enqueued(id, chat));
    forall y, x | Due(h', y, x) && Known(h, x) ensures Due(h, y, x) {
      EnqueueDue(h, id, chat, y, x);
    }
  }

  /** A message enqueued now is due before none that is known. */
  lemma EnqueueDue(h: History, id: Id, chat: Chat, y: Id, x: Copy)
    requires Known(h, x) && Due(Then(h, Enqueued(id, chat)), y, x)
    ensures Due(h, y, x)
  {
    var ids := FirstQueued(h, x.chat);
    FirstQueuedMembers(h, x.chat, x.id);
    FirstQueuedMembers(h, x.chat, y);
    FirstQueuedMembers(h, x.chat, id);
    var ids' := FirstQueued(Then(h, Enqueued(id, chat)), x.chat);
    assert ids' == ids || (ids' == ids + [id] && id !in ids);
    FirstQueuedMembers(Then(h, Enqueued(id, chat)), x.chat, y);
    FindAppend(ids, id, y);
    FindAppend(ids, id, x.id);
  }

  lemma PublishBacklog(h: History, id: Id, chat: Chat, copies: seq<Copy>)
    requires BacklogOk(h, copies) && forall copy :: copy in copies ==> Known(h, copy)
    ensures BacklogOk(Then(h, Enqueued(id, chat)), [Copy(id, chat, 0, false)] + copies)
  {
    var h', new0 := Then(h, Enqueued(id, chat)), Copy(id, chat, 0, false);
    EnqueueCalmer(h, id, chat);
    InOrderCalmer(h, h', copies);
    assert ([new0] + copies)[1..] == copies;
    forall y, k | EnqueuedIn(h', y, k) && !Begun(h', y, k) ensures HasCopy([new0] + copies, y, k) {
      if (y, k) == (id, chat) { assert new0 in [new0] + copies; } else { HasCopyStays(copies, [new0] + copies, y, k); }
    }
    forall y | Due(h', y, new0) ensures HasCopy(copies, y, chat) {
      assert y != id && EnqueuedIn(h, y, chat) && !Begun(h, y, chat);
    }
  }

  lemma PublishStarts(h: History, id: Id, chat: Chat)
    requires StartsOrdered(h) && (Begun(h, id, chat) ==> EnqueuedIn(h, id, chat))
    ensures StartsOrdered(Then(h, Enqueued(id, chat)))
  {
    var h' := Then(h, Enqueued(id, chat));
    forall k ensures FirstStarts(h', k) <= FirstQueued(h', k) {
      assert FirstStarts(h', k) == FirstStarts(h, k);
    }
    forall k, y | EnqueuedIn(h', y, k) && Begun(h', y, k) ensures y in FirstStarts(h', k) {
      assert FirstStarts(h', k) == FirstStarts(h, k);
      assert EnqueuedIn(h, y, k);
    }
  }

  // The lines.

  lemma LinesCalmer(s: State, s': State)
    requires LocksOk(s.workers, s.locks) && LinesOrdered(s) && s'.locks == s.locks && |s'.workers| == |s.workers|
    requires Calmer(s.history, s'.history)
    requires forall w :: 0 <= w < |s.workers| && s.workers[w].Engaged() ==>
               Known(s.history, s.workers[w].copy) && s'.workers[w].Engaged() && s'.workers[w].copy == s.workers[w].copy
    ensures LinesOrdered(s')
  {
    forall chat, j: nat | chat in s'.locks && j < |s'.locks[chat]|
      ensures PlaceCovered(s'.history, s'.workers, s'.locks[chat], j)
    {
      PlaceCalmer(s, s', chat, j);
    }
  }

  lemma PlaceCalmer(s: State, s': State, chat: Chat, j: nat)
    requires LocksOk(s.workers, s.locks) && s'.locks == s.locks && |s'.workers| == |s.workers|
    requires Calmer(s.history, s'.history)
    requires forall w :: 0 <= w < |s.workers| && s.workers[w].Engaged() ==>
               Known(s.history, s.workers[w].copy) && s'.workers[w].Engaged() && s'.workers[w].copy == s.workers[w].copy
    requires chat in s.locks && j < |s.locks[chat]| && PlaceCovered(s.history, s.workers, s.locks[chat], j)
    ensures PlaceCovered(s'.history, s'.workers, s.locks[chat], j)
  {
    var line := s.locks[chat];
    assert InLine(s.workers, chat, j, line[j]);
    forall y | Due(s'.history, y, s.workers[line[j]].copy) && !Begun(s'.history, s.workers[line[j]].copy.id, s.workers[line[j]].copy.chat)
      ensures WaitsBefore(s'.workers, line, j, y)
    {
      assert WaitsBefore(s.workers, line, j, y);
      var i :| 0 <= i < j && line[i] < |s.workers| && !s.workers[line[i]].Idle? && s.workers[line[i]].copy.id == y;
      assert InLine(s.workers, chat, i, line[i]);
    }
  }

  /** A copy in flight whose message is not started waits in its chat's line. */
  lemma UnstartedWaits(s: State, y: Id, chat: Chat) returns (v: nat)
    requires Traced(s) && s.serving && HasCopy(s.processing, y, chat) && !Begun(s.history, y, chat)
    ensures v < |s.workers| && s.workers[v].Waiting? && s.workers[v].copy.id == y && v in Line(s.locks, chat)
  {
    var copy :| copy in s.processing && copy.id == y && copy.chat == chat;
    OccursIn(s.processing, copy);
    v := HolderOf(s.workers, copy);
  }

  /** The copy BLMOVE takes is covered by what is in flight, so by the line it joins. */
  lemma JoinsCovered(s: State, copy: Copy, y: Id)
    requires Traced(s) && s.serving && s.queue != [] && copy == s.queue[|s.queue| - 1]
    requires InOrder(s.history, Backlog(s)) && !Begun(s.history, copy.id, copy.chat) && Due(s.history, y, copy)
    ensures exists v :: v in Line(s.locks, copy.chat) && v < |s.workers| && !s.workers[v].Idle? && s.workers[v].copy.id == y
  {
    var rest := s.queue[..|s.queue| - 1];
    assert Backlog(s) == rest + ([copy] + s.processing);
    CoveredInside(s.history, rest, copy, s.processing);
    var v := UnstartedWaits(s, y, copy.chat);
  }

  /** A worker joining at the end leaves the places before it alone. */
  lemma JoinWaits(workers: seq<Worker>, w: nat, copy: Copy, line: seq<nat>, j: nat, y: Id)
    requires w < |workers| && workers[w].Idle? && j <= |line| && WaitsBefore(workers, line, j, y)
    ensures WaitsBefore(workers[w := Waiting(copy)], line + [w], j, y)
  {
    var i :| 0 <= i < j && i < |line| && line[i] < |workers| && !workers[line[i]].Idle? && workers[line[i]].copy.id == y;
    assert (line + [w])[i] == line[i] && line[i] != w;
  }

  lemma MemberWaits(workers: seq<Worker>, line: seq<nat>, v: nat, y: Id)
    requires v in line && v < |workers| && !workers[v].Idle? && workers[v].copy.id == y
    ensures WaitsBefore(workers, line, |line|, y)
  {
    var i :| 0 <= i < |line| && line[i] == v;
  }

  lemma LastPlace(s: State, w: nat)
    requires Traced(s) && s.serving && s.queue != [] && w < |s.workers| && s.workers[w].Idle?
    requires InOrder(s.history, Backlog(s))
    ensures var copy := s.queue[|s.queue| - 1]; var line := Line(s.locks, copy.chat);
            PlaceCovered(s.history, s.workers[w := Waiting(copy)], line + [w], |line|)
  {
    var copy := s.queue[|s.queue| - 1];
    var line := Line(s.locks, copy.chat);
    forall y | Due(s.history, y, copy) && !Begun(s.history, copy.id, copy.chat)
      ensures WaitsBefore(s.workers[w := Waiting(copy)], line + [w], |line|, y)
    {
      JoinsCovered(s, copy, y);
      var v :| v in line && v < |s.workers| && !s.workers[v].Idle? && s.workers[v].copy.id == y;
      MemberWaits(s.workers, line, v, y);
      JoinWaits(s.workers, w, copy, line, |line|, y);
    }
  }

  lemma EarlierPlace(s: State, w: nat, copy: Copy, chat: Chat, j: nat)
    requires LocksOk(s.workers, s.locks) && w < |s.workers| && s.workers[w].Idle?
    requires chat in s.locks && j < |s.locks[chat]| && PlaceCovered(s.history, s.workers, s.locks[chat], j)
    ensures PlaceCovered(s.history, s.workers[w := Waiting(copy)], s.locks[chat] + [w], j)
    ensures PlaceCovered(s.history, s.workers[w := Waiting(copy)], s.locks[chat], j)
  {
    var line := s.locks[chat];
    assert InLine(s.workers, chat, j, line[j]);
    assert (line + [w])[j] == line[j] && line[j] != w;
    forall y | Due(s.history, y, s.workers[line[j]].copy) && !Begun(s.history, s.workers[line[j]].copy.id, s.workers[line[j]].copy.chat)
      ensures WaitsBefore(s.workers[w := Waiting(copy)], line + [w], j, y)
      ensures WaitsBefore(s.workers[w := Waiting(copy)], line, j, y)
    {
      JoinWaits(s.workers, w, copy, line, j, y);
      var i :| 0 <= i < j && i < |line + [w]| && (line + [w])[i] < |s.workers|
               && !s.workers[w := Waiting(copy)][(line + [w])[i]].Idle? && s.workers[w := Waiting(copy)][(line + [w])[i]].copy.id == y;
      assert line[i] == (line + [w])[i];
    }
  }

  /** Nothing that waits changes when a worker of the line finishes. */
  lemma SameWaits(workers: seq<Worker>, w: nat, line: seq<nat>, j: nat, y: Id)
    requires w < |workers| && !workers[w].Idle? && WaitsBefore(workers, line, j, y)
    ensures WaitsBefore(workers[w := Finished(workers[w].copy)], line, j, y)
  {
    var i :| 0 <= i < j && i < |line| && line[i] < |workers| && !workers[line[i]].Idle? && workers[line[i]].copy.id == y;
    assert workers[w := Finished(workers[w].copy)][line[i]].copy == workers[line[i]].copy;
  }

  lemma ShiftedWaits(workers: seq<Worker>, line: seq<nat>, j: nat, y: Id)
    requires line != [] && line[0] < |workers| && !workers[line[0]].Idle? && workers[line[0]].copy.id != y
    requires WaitsBefore(workers, line, j + 1, y)
    ensures WaitsBefore(workers, line[1..], j, y)
  {
    var i :| 0 <= i < j + 1 && i < |line| && line[i] < |workers| && !workers[line[i]].Idle? && workers[line[i]].copy.id == y;
    assert line[1..][i - 1] == line[i];
  }

  /** Leaving the head of a line shifts the others up; the head was started, so it covered none. */
  lemma FinishPlace(s: State, w: nat, chat: Chat, j: nat)
    requires LocksOk(s.workers, s.locks) && WorkersStarted(s) && LinesOrdered(s) && w < |s.workers| && s.workers[w].Running?
    requires var chat0 := s.workers[w].copy.chat; chat0 in s.locks && s.locks[chat0] != [] && s.locks[chat0][0] == w
    requires var chat0 := s.workers[w].copy.chat; chat in s.locks && j < |s.locks[chat]| - if chat == chat0 then 1 else 0
    ensures var chat0 := s.workers[w].copy.chat;
            PlaceCovered(s.history, s.workers[w := Finished(s.workers[w].copy)],
                         if chat == chat0 then s.locks[chat][1..] else s.locks[chat], j)
  {
    var h, workers, line := s.history, s.workers, s.locks[chat];
    var workers' := workers[w := Finished(workers[w].copy)];
    var shift := if chat == workers[w].copy.chat then 1 else 0;
    var v := line[j + shift];
    assert InLine(workers, chat, j + shift, v) && PlaceCovered(h, workers, line, j + shift);
    assert workers'[v].copy == workers[v].copy;
    forall y | Due(h, y, workers[v].copy) && !Begun(h, workers[v].copy.id, workers[v].copy.chat)
      ensures WaitsBefore(workers', if shift == 1 then line[1..] else line, j, y)
    {
      if shift == 1 { ShiftedWaits(workers, line, j, y); }
      SameWaits(workers, w, if shift == 1 then line[1..] else line, j, y);
    }
  }

  // Steps.

  lemma PopKeepsBacklog(c: Config, s: State, w: nat)
    requires Enabled(c, s, Pop(w))
    ensures Backlog(Next(c, s, Pop(w))) == Backlog(s)
  {
    var copy := s.queue[|s.queue| - 1];
    assert s.queue == s.queue[..|s.queue| - 1] + [copy];
  }

  lemma PopOrder(c: Config, s: State, w: nat)
    requires Ordered(s) && Enabled(c, s, Pop(w))
    ensures LinesOrdered(Next(c, s, Pop(w)))
  {
    var s', copy := Next(c, s, Pop(w)), s.queue[|s.queue| - 1];
    LastPlace(s, w);
    forall chat, j: nat | chat in s'.locks && j < |s'.locks[chat]|
      ensures PlaceCovered(s.history, s'.workers, s'.locks[chat], j)
    {
      if chat != copy.chat || j < |Line(s.locks, chat)| { EarlierPlace(s, w, copy, chat, j); }
    }
  }

  lemma FinishOrder(c: Config, s: State, w: nat)
    requires Traced(s) && LinesOrdered(s) && Enabled(c, s, Finish(w))
    ensures LinesOrdered(Next(c, s, Finish(w)))
  {
    var s' := Next(c, s, Finish(w));
    HolderIsFirst(s, w);
    forall chat, j: nat | chat in s'.locks && j < |s'.locks[chat]|
      ensures PlaceCovered(s.history, s'.workers, s'.locks[chat], j)
    {
      FinishPlace(s, w, chat, j);
    }
  }

  lemma WorkersKnown(s: State)
    requires Traced(s)
    ensures forall w :: 0 <= w < |s.workers| && !s.workers[w].Idle? ==> Known(s.history, s.workers[w].copy)
  {
    forall w | 0 <= w < |s.workers| && !s.workers[w].Idle? ensures Known(s.history, s.workers[w].copy) { InFlight(s, w); }
  }

  // Starting.

  /** Every message enqueued before one with nothing due before it has begun, and it is the next. */
  lemma NothingDueIsNext(h: History, x: Copy)
    requires StartsOrdered(h) && Known(h, x) && !Begun(h, x.id, x.chat) && forall y :: !Due(h, y, x)
    ensures var ids, n := FirstQueued(h, x.chat), |FirstStarts(h, x.chat)|; n < |ids| && ids[n] == x.id
  {
    var ids, begun := FirstQueued(h, x.chat), FirstStarts(h, x.chat);
    var n, j := |begun|, Find(ids, x.id);
    FirstQueuedMembers(h, x.chat, x.id);
    FirstQueuedDistinct(h, x.chat);
    assert begun == ids[..n];
    assert x.id !in begun by { if x.id in begun { FirstStartsStarted(h, x.chat, x.id); } }
    assert forall i :: 0 <= i < n ==> ids[i] in begun;
    if n < |ids| {
      FindAt(ids, n);
      FirstQueuedMembers(h, x.chat, ids[n]);
      assert ids[n] !in begun;
      assert !Due(h, ids[n], x);
    }
  }

  lemma HeadHasNothingDue(s: State, w: nat)
    requires Ordered(s) && w < |s.workers| && s.workers[w].Waiting? && !Begun(s.history, s.workers[w].copy.id, s.workers[w].copy.chat)
    requires var chat := s.workers[w].copy.chat; Line(s.locks, chat) != [] && Line(s.locks, chat)[0] == w
    ensures forall y :: !Due(s.history, y, s.workers[w].copy)
  {
    var line := Line(s.locks, s.workers[w].copy.chat);
    assert PlaceCovered(s.history, s.workers, line, 0);
    forall y ensures !Due(s.history, y, s.workers[w].copy) {
      assert !WaitsBefore(s.workers, line, 0, y);
    }
  }

  /** When the head of a chat's line begins a message not begun before, it is the next one of the
      chat in the order of first enqueues. */
  lemma HeadIsNext(s: State, w: nat)
    requires Ordered(s) && w < |s.workers| && s.workers[w].Waiting? && !Begun(s.history, s.workers[w].copy.id, s.workers[w].copy.chat)
    requires var chat := s.workers[w].copy.chat; Line(s.locks, chat) != [] && Line(s.locks, chat)[0] == w
    ensures var x := s.workers[w].copy;
            var ids, n := FirstQueued(s.history, x.chat), |FirstStarts(s.history, x.chat)|;
            n < |ids| && ids[n] == x.id
  {
    HeadHasNothingDue(s, w);
    WorkersKnown(s);
    NothingDueIsNext(s.history, s.workers[w].copy);
  }

  lemma StartLedger(h: History, x: Copy)
    ensures var h' := Then(h, Started(x));
            && (forall chat :: FirstQueued(h', chat) == FirstQueued(h, chat))
            && (forall id, chat :: EnqueuedIn(h', id, chat) == EnqueuedIn(h, id, chat))
            && (forall id, chat :: Begun(h', id, chat) <==> Begun(h, id, chat) || (id, chat) == (x.id, x.chat))
            && (forall chat :: FirstStarts(h', chat) ==
                  FirstStarts(h, chat) + if x.chat == chat && !Begun(h, x.id, x.chat) then [x.id] else [])
  {
  }

  lemma StartOrdered(h: History, x: Copy)
    requires StartsOrdered(h) && Known(h, x)
    requires !Begun(h, x.id, x.chat) ==>
               var ids, n := FirstQueued(h, x.chat), |FirstStarts(h, x.chat)|; n < |ids| && ids[n] == x.id
    ensures StartsOrdered(Then(h, Started(x)))
  {
    var h' := Then(h, Started(x));
    StartLedger(h, x);
    forall chat ensures FirstStarts(h', chat) <= FirstQueued(h', chat) {
      if chat == x.chat && !Begun(h, x.id, x.chat) {
        var ids, n := FirstQueued(h, chat), |FirstStarts(h, chat)|;
        assert FirstStarts(h', chat) == ids[..n] + [ids[n]] == ids[..n + 1];
      }
    }
    forall chat, id | EnqueuedIn(h', id, chat) && Begun(h', id, chat) ensures id in FirstStarts(h', chat) {
      if Begun(h, id, chat) { assert id in FirstStarts(h, chat); }
    }
  }

  lemma AcquireOrder(c: Config, s: State, w: nat)
    requires Ordered(s) && Enabled(c, s, Acquire(w))
    ensures var s' := Next(c, s, Acquire(w));
            BacklogOk(s'.history, Backlog(s')) && LinesOrdered(s') && StartsOrdered(s'.history)
  {
    var s', x := Next(c, s, Acquire(w)), s.workers[w].copy;
    WorkersKnown(s);
    if !Begun(s.history, x.id, x.chat) { HeadIsNext(s, w); }
    StartOrdered(s.history, x);
    StartLedger(s.history, x);
    assert Calmer(s.history, s'.history);
    InOrderCalmer(s.history, s'.history, Backlog(s));
    LinesCalmer(s, s');
  }

  lemma PublishOrder(c: Config, s: State, step: Step)
    requires Ordered(s) && step.Publish?
    ensures Ordered(Next(c, s, step))
  {
    var s' := Next(c, s, step);
    TracedStep(c, s, step);
    if s' != s {
      WorkersKnown(s);
      EnqueueCalmer(s.history, step.id, step.chat);
      PublishBacklog(s.history, step.id, step.chat, Backlog(s));
      assert Backlog(s') == [Copy(step.id, step.chat, 0, false)] + Backlog(s);
      PublishStarts(s.history, step.id, step.chat);
      LinesCalmer(s, s');
    }
  }

  /** Steps that neither enqueue nor start: the backlog they leave. */
  lemma QuietBacklog(c: Config, s: State, step: Step)
    requires Ordered(s) && Enabled(c, s, step) && !step.Publish? && !step.Acquire?
    ensures BacklogOk(s.history, Backlog(Next(c, s, step)))
  {
    match step
    case Pop(w) => PopKeepsBacklog(c, s, w);
    case Remove(w) =>
      InFlight(s, w);
      RemoveFromBacklog(s.history, s.queue, s.processing, s.workers[w].copy);
    case DlqPlace => PlaceBacklog(c, s);
    case RecoverPush => RecoverPushBacklog(s.history, s.queue, s.processing);
    case RecoverRemove =>
      assert RemoveFirst(s.processing, s.processing[0]) == s.processing[1..];
      RecoverRemoveBacklog(s.history, s.queue, s.processing);
    case _ => ListsStay(c, s, step);
  }

  lemma PlaceBacklog(c: Config, s: State)
    requires BacklogOk(s.history, Backlog(s)) && EntriesStarted(s) && Enabled(c, s, DlqPlace)
    ensures BacklogOk(s.history, Backlog(Next(c, s, DlqPlace)))
  {
    var e := s.hand.value;
    assert FromDlq(s, e);
    if e.attempts + 1 <= c.maxAttempts {
      var x := e.copy.(attempts := e.attempts + 1);
      StartedJoins(s.history, x, Backlog(s));
      assert ([x] + s.queue) + s.processing == [x] + Backlog(s);
    }
  }

  lemma ListsStay(c: Config, s: State, step: Step)
    requires Enabled(c, s, step)
    requires step.Inside() || step.Tick? || step.DlqPop? || step.CancelDlq? || step.Crash? || step.RecoverDone? || step.Finish?
    ensures Backlog(Next(c, s, step)) == Backlog(s)
  {
    if step.Inside() { InsideShape(c, s, step); }
  }

  /** ... and the workers in the lines. */
  lemma LinesStay(c: Config, s: State, step: Step)
    requires Enabled(c, s, step)
    requires !step.Publish? && !step.Acquire? && !step.Pop? && !step.Finish?
    ensures var s' := Next(c, s, step);
            && (step.Crash? ==> s'.locks == map[])
            && (!step.Crash? ==> s'.locks == s.locks && |s'.workers| == |s.workers|)
            && (!step.Crash? ==>
                  forall w :: 0 <= w < |s.workers| && s.workers[w].Engaged() ==>
                    s'.workers[w].Engaged() && s'.workers[w].copy == s.workers[w].copy)
  {
    if step.Inside() { InsideShape(c, s, step); }
  }

  lemma QuietLines(c: Config, s: State, step: Step)
    requires Ordered(s) && Enabled(c, s, step) && !step.Publish? && !step.Acquire?
    ensures LinesOrdered(Next(c, s, step)) && StartsOrdered(Next(c, s, step).history)
    ensures SameLedger(s.history, Next(c, s, step).history)
  {
    var s' := Next(c, s, step);
    QuietTrace(c, s, step);
    QuietLedger(c, s, step);
    SameIsCalmer(s.history, s'.history);
    if step.Pop? { PopOrder(c, s, step.w); }
    else if step.Finish? { FinishOrder(c, s, step.w); }
    else {
      LinesStay(c, s, step);
      WorkersKnown(s);
      if !step.Crash? { LinesCalmer(s, s'); }
    }
  }

  lemma QuietOrder(c: Config, s: State, step: Step)
    requires Ordered(s) && Enabled(c, s, step) && !step.Publish? && !step.Acquire?
    ensures Ordered(Next(c, s, step))
  {
    var s' := Next(c, s, step);
    TracedStep(c, s, step);
    QuietBacklog(c, s, step);
    QuietLines(c, s, step);
    SameIsCalmer(s.history, s'.history);
    InOrderCalmer(s.history, s'.history, Backlog(s'));
  }

  lemma OrderedStep(c: Config, s: State, step: Step)
    requires Ordered(s) && Enabled(c, s, step)
    ensures Ordered(Next(c, s, step))
  {
    if step.Publish? {
      PublishOrder(c, s, step);
    } else if step.Acquire? {
      TracedStep(c, s, step);
      AcquireOrder(c, s, step.w);
    } else {
      QuietOrder(c, s, step);
    }
  }

  lemma {:induction false} OrderedAlways(c: Config, s: State, steps: seq<Step>)
    requires Ordered(s) && Allowed(c, s, steps)
    ensures Ordered(After(c, s, steps))
    decreases |steps|
  {
    if steps != [] {
      OrderedStep(c, s, steps[0]);
      OrderedAlways(c, Next(c, s, steps[0]), steps[1..]);
    }
  }

  /** Over every run: the messages of a chat whose processing has begun are, in the order it began,
      a prefix of the messages of that chat in the order they were first enqueued. */
  lemma FirstStartsInOrder(c: Config, workers: nat, steps: seq<Step>, chat: Chat)
    requires Allowed(c, Init(workers), steps)
    ensures var h := After(c, Init(workers), steps).history; FirstStarts(h, chat) <= FirstQueued(h, chat)
  {
    TracedInit(workers);
    OrderedAlways(c, Init(workers), steps);
  }

  // Prompt runs.

  /** In a prompt run no message is enqueued twice, so first enqueues are all enqueues. */
  lemma {:induction false} PromptEnqueuesOnce(c: Config, s: State, steps: seq<Step>, chat: Chat)
    requires Traced(s) && Allowed(c, s, steps) && Prompt(c, s, steps)
    requires OneChat(s.history) && FirstQueued(s.history, chat) == QueuedIds(s.history, chat)
    ensures var h := After(c, s, steps).history; FirstQueued(h, chat) == QueuedIds(h, chat)
    decreases |steps|
  {
    if steps != [] {
      PromptEnqueues(c, s, steps[0]);
      PromptStepOnce(c, s, steps[0], chat);
      TracedStep(c, s, steps[0]);
      PromptEnqueuesOnce(c, Next(c, s, steps[0]), steps[1..], chat);
    }
  }

  lemma PromptStepOnce(c: Config, s: State, step: Step, chat: Chat)
    requires Enabled(c, s, step) && FirstQueued(s.history, chat) == QueuedIds(s.history, chat)
    requires step.Publish? && Next(c, s, step).history != s.history ==> forall k :: !EnqueuedIn(s.history, step.id, k)
    ensures var h := Next(c, s, step).history; FirstQueued(h, chat) == QueuedIds(h, chat)
  {
    if !step.Publish? && !step.Acquire? { HistoryShape(c, s, step); }
  }

  /** With prompt re-emits: a prefix of the messages in the order they were enqueued. */
  lemma PromptStartsInOrder(c: Config, workers: nat, steps: seq<Step>, chat: Chat)
    requires Allowed(c, Init(workers), steps) && Prompt(c, Init(workers), steps)
    ensures var h := After(c, Init(workers), steps).history; FirstStarts(h, chat) <= QueuedIds(h, chat)
  {
    TracedInit(workers);
    PromptEnqueuesOnce(c, Init(workers), steps, chat);
    FirstStartsInOrder(c, workers, steps, chat);
  }
}
