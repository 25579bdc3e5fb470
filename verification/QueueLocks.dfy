/** What every step keeps about workers, the in-flight list and the chat locks: the lock lines
    are exactly the engaged workers in arrival order, and while the workers serve the queue
    `messages:processing` holds exactly the copies they hold. */
module QueueLocks {
  import opened QueueModel

  function Occurs<T(==)>(s: seq<T>, x: T): nat {
    if s == [] then 0 else (if s[0] == x then 1 else 0) + Occurs(s[1..], x)
  }

  function Holds(worker: Worker, copy: Copy): nat {
    if !worker.Idle? && worker.copy == copy then 1 else 0
  }

  /** How many workers hold `copy`. */
  function HeldBy(workers: seq<Worker>, copy: Copy): nat {
    if workers == [] then 0 else Holds(workers[0], copy) + HeldBy(workers[1..], copy)
  }

  lemma {:induction false} HeldByUpdate(workers: seq<Worker>, w: nat, worker: Worker, copy: Copy)
    requires w < |workers|
    ensures HeldBy(workers[w := worker], copy) == HeldBy(workers, copy) - Holds(workers[w], copy) + Holds(worker, copy)
  {
    var updated := workers[w := worker];
    if w == 0 {
      assert updated[1..] == workers[1..];
    } else {
      assert updated[1..] == workers[1..][w - 1 := worker];
      HeldByUpdate(workers[1..], w - 1, worker, copy);
    }
  }

  lemma {:induction false} HolderOf(workers: seq<Worker>, copy: Copy) returns (w: nat)
    requires HeldBy(workers, copy) > 0
    ensures w < |workers| && !workers[w].Idle? && workers[w].copy == copy
  {
    if Holds(workers[0], copy) == 1 { w := 0; } else {
      w := HolderOf(workers[1..], copy);
      w := w + 1;
    }
  }

  lemma {:induction false} HeldByPositive(workers: seq<Worker>, w: nat)
    requires w < |workers| && !workers[w].Idle?
    ensures HeldBy(workers, workers[w].copy) > 0
  {
    if w > 0 { HeldByPositive(workers[1..], w - 1); }
  }

  lemma {:induction false} HeldByIdle(workers: seq<Worker>, copy: Copy)
    requires forall w :: 0 <= w < |workers| ==> workers[w].Idle?
    ensures HeldBy(workers, copy) == 0
  {
    if workers != [] { HeldByIdle(workers[1..], copy); }
  }

  lemma {:induction false} OccursIn<T>(s: seq<T>, x: T)
    ensures Occurs(s, x) > 0 <==> x in s
  {
    if s != [] { OccursIn(s[1..], x); }
  }

  lemma {:induction false} OccursRemoveFirst<T>(s: seq<T>, x: T, y: T)
    requires x in s
    ensures Occurs(RemoveFirst(s, x), y) == Occurs(s, y) - if x == y then 1 else 0
  {
    if s[0] != x { OccursRemoveFirst(s[1..], x, y); }
  }

  lemma {:induction false} RemoveFirstSubset<T>(s: seq<T>, x: T)
    ensures forall y :: y in RemoveFirst(s, x) ==> y in s
  {
    if s != [] && s[0] != x { RemoveFirstSubset(s[1..], x); }
  }

  /** Every engaged worker stands in its chat's line, every place in a line is an engaged worker
      of that chat, and only the first place has got past the wait. */
  ghost predicate LocksOk(workers: seq<Worker>, locks: map<Chat, seq<nat>>) {
    && (forall w :: 0 <= w < |workers| && workers[w].Engaged() ==> w in Line(locks, workers[w].copy.chat))
    && (forall chat, i :: chat in locks && 0 <= i < |locks[chat]| ==> InLine(workers, chat, i, locks[chat][i]))
    && (forall chat, i, j :: chat in locks && 0 <= i < j < |locks[chat]| ==> locks[chat][i] != locks[chat][j])
  }

  predicate InLine(workers: seq<Worker>, chat: Chat, i: int, w: nat) {
    w < |workers| && workers[w].Engaged() && workers[w].copy.chat == chat && (i > 0 ==> workers[w].Waiting?)
  }

  ghost predicate InFlightOk(s: State) {
    if s.serving then
      !s.pushed && forall copy :: Occurs(s.processing, copy) == HeldBy(s.workers, copy)
    else
      && (forall w :: 0 <= w < |s.workers| ==> s.workers[w].Idle?)
      && s.locks == map[]
      && (s.pushed ==> s.processing != [] && s.queue != [] && s.queue[|s.queue| - 1] == Mark(s.processing[0]))
  }

  ghost predicate Base(s: State) {
    LocksOk(s.workers, s.locks) && InFlightOk(s)
  }

  /** What a step inside _process_message can touch. */
  lemma InsideShape(c: Config, s: State, step: Step)
    requires step.Inside() && Enabled(c, s, step)
    ensures step.w < |s.workers| == |Next(c, s, step).workers| && s.workers[step.w].HoldsLock()
    ensures var s' := Next(c, s, step); var worker := s'.workers[step.w];
            && worker.HoldsLock() && worker.copy == s.workers[step.w].copy
            && s' == s.(workers := s.workers[step.w := worker], rows := s'.rows, dlq := s'.dlq, history := s'.history)
  {
  }

  lemma UpdateHolder(s: State, s': State, w: nat)
    requires LocksOk(s.workers, s.locks) && w < |s.workers| == |s'.workers| && s'.locks == s.locks
    requires s'.workers == s.workers[w := s'.workers[w]] && s'.workers[w].HoldsLock()
    requires s.workers[w].Engaged() && s.workers[w].copy.chat == s'.workers[w].copy.chat
    requires Line(s.locks, s.workers[w].copy.chat) != [] && Line(s.locks, s.workers[w].copy.chat)[0] == w
    ensures LocksOk(s'.workers, s'.locks)
  {
    forall chat, i | chat in s'.locks && 0 <= i < |s'.locks[chat]|
      ensures InLine(s'.workers, chat, i, s'.locks[chat][i])
    {
      assert InLine(s.workers, chat, i, s.locks[chat][i]);
    }
  }

  lemma SameHeld(s: State, s': State, w: nat)
    requires InFlightOk(s) && s.serving && s'.serving && !s'.pushed && s'.processing == s.processing
    requires w < |s.workers| == |s'.workers| && s'.workers == s.workers[w := s'.workers[w]]
    requires !s.workers[w].Idle? && !s'.workers[w].Idle? && s.workers[w].copy == s'.workers[w].copy
    ensures InFlightOk(s')
  {
    forall copy ensures Occurs(s'.processing, copy) == HeldBy(s'.workers, copy) {
      HeldByUpdate(s.workers, w, s'.workers[w], copy);
    }
  }

  lemma HolderIsFirst(s: State, w: nat)
    requires LocksOk(s.workers, s.locks) && w < |s.workers| && s.workers[w].HoldsLock()
    ensures var line := Line(s.locks, s.workers[w].copy.chat); line != [] && line[0] == w
  {
    var chat := s.workers[w].copy.chat;
    var i :| 0 <= i < |Line(s.locks, chat)| && Line(s.locks, chat)[i] == w;
    assert InLine(s.workers, chat, i, s.locks[chat][i]);
  }

  lemma InsideBase(c: Config, s: State, step: Step)
    requires Base(s) && step.Inside() && Enabled(c, s, step)
    ensures Base(Next(c, s, step))
  {
    InsideShape(c, s, step);
    HolderIsFirst(s, step.w);
    UpdateHolder(s, Next(c, s, step), step.w);
    SameHeld(s, Next(c, s, step), step.w);
  }

  lemma PopBase(c: Config, s: State, w: nat)
    requires Base(s) && Enabled(c, s, Pop(w))
    ensures Base(Next(c, s, Pop(w)))
  {
    var s' := Next(c, s, Pop(w));
    var copy := s.queue[|s.queue| - 1];
    var worker := Waiting(copy);
    forall x ensures Occurs(s'.processing, x) == HeldBy(s'.workers, x) {
      HeldByUpdate(s.workers, w, worker, x);
      assert s'.processing[1..] == s.processing;
    }
    JoinLine(s.workers, s.locks, w, copy);
  }

  lemma JoinLine(workers: seq<Worker>, locks: map<Chat, seq<nat>>, w: nat, copy: Copy)
    requires LocksOk(workers, locks) && w < |workers| && workers[w].Idle?
    ensures LocksOk(workers[w := Waiting(copy)], locks[copy.chat := Line(locks, copy.chat) + [w]])
  {
    var workers', locks' := workers[w := Waiting(copy)], locks[copy.chat := Line(locks, copy.chat) + [w]];
    var line := Line(locks, copy.chat);
    forall i | 0 <= i < |line| ensures line[i] != w { assert InLine(workers, copy.chat, i, line[i]); }
    forall v | 0 <= v < |workers'| && workers'[v].Engaged()
      ensures v in Line(locks', workers'[v].copy.chat)
    {
      if v == w { assert locks'[copy.chat][|line|] == w; }
    }
    forall chat, i | chat in locks' && 0 <= i < |locks'[chat]|
      ensures InLine(workers', chat, i, locks'[chat][i])
    {
      if chat != copy.chat || i < |line| { assert InLine(workers, chat, i, locks[chat][i]); }
    }
    if workers'[w].copy.chat in locks' && |locks'[workers'[w].copy.chat]| > 0 && line == [] {
      assert locks'[copy.chat] == [w];
    }
  }

  lemma LeaveLine(workers: seq<Worker>, locks: map<Chat, seq<nat>>, w: nat)
    requires LocksOk(workers, locks) && w < |workers| && workers[w].Engaged()
    requires Line(locks, workers[w].copy.chat) != [] && Line(locks, workers[w].copy.chat)[0] == w
    ensures LocksOk(workers[w := Finished(workers[w].copy)],
                    locks[workers[w].copy.chat := Line(locks, workers[w].copy.chat)[1..]])
  {
    var copy := workers[w].copy;
    var workers', locks' := workers[w := Finished(copy)], locks[copy.chat := Line(locks, copy.chat)[1..]];
    forall chat, i | chat in locks' && 0 <= i < |locks'[chat]|
      ensures InLine(workers', chat, i, locks'[chat][i])
    {
      if chat == copy.chat {
        assert locks'[chat][i] == locks[chat][i + 1];
        assert InLine(workers, chat, i + 1, locks[chat][i + 1]);
        assert locks[chat][0] != locks[chat][i + 1];
      } else {
        assert InLine(workers, chat, i, locks[chat][i]);
      }
    }
    forall v | 0 <= v < |workers'| && workers'[v].Engaged()
      ensures v in Line(locks', workers'[v].copy.chat)
    {
      assert v != w && workers[v].Engaged();
      var line := Line(locks, workers[v].copy.chat);
      var i :| 0 <= i < |line| && line[i] == v;
      if workers[v].copy.chat == copy.chat { assert Line(locks', copy.chat)[i - 1] == v; }
    }
  }

  lemma FinishBase(c: Config, s: State, w: nat)
    requires Base(s) && Enabled(c, s, Finish(w))
    ensures Base(Next(c, s, Finish(w)))
  {
    HolderIsFirst(s, w);
    LeaveLine(s.workers, s.locks, w);
    SameHeld(s, Next(c, s, Finish(w)), w);
  }

  lemma RemoveBase(c: Config, s: State, w: nat)
    requires Base(s) && Enabled(c, s, Remove(w))
    ensures s.workers[w].copy in s.processing
    ensures Base(Next(c, s, Remove(w)))
  {
    var s' := Next(c, s, Remove(w));
    var copy := s.workers[w].copy;
    HeldByPositive(s.workers, w);
    OccursIn(s.processing, copy);
    forall x ensures Occurs(s'.processing, x) == HeldBy(s'.workers, x) {
      HeldByUpdate(s.workers, w, Idle, x);
      OccursRemoveFirst(s.processing, copy, x);
    }
    forall chat, i | chat in s'.locks && 0 <= i < |s'.locks[chat]|
      ensures InLine(s'.workers, chat, i, s'.locks[chat][i])
    {
      assert InLine(s.workers, chat, i, s.locks[chat][i]);
    }
  }

  lemma AcquireBase(c: Config, s: State, w: nat)
    requires Base(s) && Enabled(c, s, Acquire(w))
    ensures Base(Next(c, s, Acquire(w)))
  {
    UpdateHolder(s, Next(c, s, Acquire(w)), w);
    SameHeld(s, Next(c, s, Acquire(w)), w);
  }

  lemma RecoverDoneBase(c: Config, s: State)
    requires Base(s) && Enabled(c, s, RecoverDone)
    ensures Base(Next(c, s, RecoverDone))
  {
    forall copy ensures HeldBy(s.workers, copy) == 0 { HeldByIdle(s.workers, copy); }
  }

  lemma BaseStep(c: Config, s: State, step: Step)
    requires Base(s) && Enabled(c, s, step)
    ensures Base(Next(c, s, step))
  {
    if step.Inside() {
      InsideBase(c, s, step);
    } else {
      match step
      case Pop(w) => PopBase(c, s, w);
      case Acquire(w) => AcquireBase(c, s, w);
      case Finish(w) => FinishBase(c, s, w);
      case Remove(w) => RemoveBase(c, s, w);
      case RecoverDone => RecoverDoneBase(c, s);
      case _ =>
    }
  }

  lemma BaseInit(workers: nat)
    ensures Base(Init(workers))
  {
    forall copy ensures HeldBy(Init(workers).workers, copy) == 0 { HeldByIdle(Init(workers).workers, copy); }
  }

  lemma {:induction false} BaseAlways(c: Config, s: State, steps: seq<Step>)
    requires Base(s) && Allowed(c, s, steps)
    ensures Base(After(c, s, steps))
    decreases |steps|
  {
    if steps != [] {
      BaseStep(c, s, steps[0]);
      BaseAlways(c, Next(c, s, steps[0]), steps[1..]);
    }
  }

  /** Two messages of one chat are never in the pipeline at once, whatever the interleaving. */
  lemma ChatExclusion(c: Config, workers: nat, steps: seq<Step>, v: nat, w: nat)
    requires Allowed(c, Init(workers), steps)
    requires v < |After(c, Init(workers), steps).workers| && w < |After(c, Init(workers), steps).workers|
    requires var s := After(c, Init(workers), steps);
             s.workers[v].HoldsLock() && s.workers[w].HoldsLock() && s.workers[v].copy.chat == s.workers[w].copy.chat
    ensures v == w
  {
    BaseInit(workers);
    BaseAlways(c, Init(workers), steps);
    var s := After(c, Init(workers), steps);
    HolderIsFirst(s, v);
    HolderIsFirst(s, w);
  }

  /** While the workers serve, the in-flight list is exactly what they hold, copy for copy. */
  lemma InFlightIsHeld(c: Config, workers: nat, steps: seq<Step>, copy: Copy)
    requires Allowed(c, Init(workers), steps) && After(c, Init(workers), steps).serving
    ensures Occurs(After(c, Init(workers), steps).processing, copy) == HeldBy(After(c, Init(workers), steps).workers, copy)
  {
    BaseInit(workers);
    BaseAlways(c, Init(workers), steps);
  }
}
