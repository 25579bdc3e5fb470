/** The loops of QueueLoops are runs of the step system: one Redis command of the recovery or of the
    dead-letter pass is one step, one branch of the fan-out a few, and after any number of them both
    say the same of the lists and the table.  So what is proved over all interleavings and crashes
    applies between any two commands of a loop. */
module QueueSimulation {
  import opened Wrappers
  import opened QueueModel
  import opened QueueLoops
  import opened QueueRows
  import opened QueueRuns

  /** Recovery after `k` commands, as RequeueInflight is proved to leave it. */
  function Recovering(s: State, k: nat): State {
    s.(queue := s.queue + Returned(s.processing, k), processing := LeftInFlight(s.processing, k), pushed := k % 2 == 1)
  }

  /** Recovery with `i` items returned. */
  function Returning(s: State, i: nat): State
    requires i <= |s.processing|
  {
    s.(queue := s.queue + Marked(s.processing[..i]), processing := s.processing[i..], pushed := false)
  }

  /** The same with one more item pushed and not removed yet. */
  function Halfway(s: State, i: nat): State
    requires i < |s.processing|
  {
    s.(queue := s.queue + Marked(s.processing[..i + 1]), processing := s.processing[i..], pushed := true)
  }

  lemma ReturningIs(s: State, i: nat)
    requires i <= |s.processing|
    ensures Recovering(s, 2 * i) == Returning(s, i)
  {
    EvenCommands(s.processing, i);
    assert 2 * i % 2 == 0;
  }

  lemma HalfwayIs(s: State, i: nat)
    requires i < |s.processing|
    ensures Recovering(s, 2 * i + 1) == Halfway(s, i)
  {
    OddCommands(s.processing, i);
    assert (2 * i + 1) % 2 == 1;
  }

  /** RPUSH number `i` of the recovery loop is a step. */
  lemma PushIsAStep(c: Config, s: State, i: nat)
    requires !s.serving && i < |s.processing|
    ensures Enabled(c, Returning(s, i), RecoverPush)
    ensures Next(c, Returning(s, i), RecoverPush) == Halfway(s, i)
  {
    var first := [s.processing[i]];
    PushStep(c, Returning(s, i));
    assert s.processing[..i + 1] == s.processing[..i] + first;
    MarkedAppend(s.processing[..i], first);
    assert first[1..] == [];
    Associates(s.queue, Marked(s.processing[..i]), [Mark(s.processing[i])]);
  }

  /** ... and so is its LREM. */
  lemma RemoveIsAStep(c: Config, s: State, i: nat)
    requires !s.serving && i < |s.processing|
    ensures Enabled(c, Halfway(s, i), RecoverRemove)
    ensures Next(c, Halfway(s, i), RecoverRemove) == Returning(s, i + 1)
  {
    RemoveStep(c, Halfway(s, i));
    assert s.processing[i..][1..] == s.processing[i + 1..];
  }

  lemma ReturningStarts(s: State)
    requires !s.pushed
    ensures Returning(s, 0) == s
  {
  }

  lemma {:induction false} ItemsAreARun(c: Config, s: State, i: nat)
    requires !s.serving && !s.pushed && i <= |s.processing|
    ensures Leads(c, s, Returning(s, i))
  {
    if i == 0 {
      ReturningStarts(s);
      LeadsToItself(c, s);
    } else {
      ItemsAreARun(c, s, i - 1);
      PushIsAStep(c, s, i - 1);
      LeadsOn(c, s, Returning(s, i - 1), RecoverPush);
      RemoveIsAStep(c, s, i - 1);
      LeadsOn(c, s, Halfway(s, i - 1), RecoverRemove);
    }
  }

  /** Any number of commands of the recovery loop is a run: what RequeueInflight leaves is reached. */
  lemma RecoveryIsARun(c: Config, s: State, i: nat)
    requires !s.serving && !s.pushed && i <= |s.processing|
    ensures Leads(c, s, Recovering(s, 2 * i))
    ensures i < |s.processing| ==> Leads(c, s, Recovering(s, 2 * i + 1))
  {
    ItemsAreARun(c, s, i);
    ReturningIs(s, i);
    if i < |s.processing| {
      PushIsAStep(c, s, i);
      LeadsOn(c, s, Returning(s, i), RecoverPush);
      HalfwayIs(s, i);
    }
  }

  lemma PushStep(c: Config, s: State)
    requires !s.serving && !s.pushed && s.processing != []
    ensures Enabled(c, s, RecoverPush)
    ensures Next(c, s, RecoverPush) == s.(queue := s.queue + [Mark(s.processing[0])], pushed := true)
  {
  }

  lemma RemoveStep(c: Config, s: State)
    requires !s.serving && s.pushed && s.processing != []
    ensures Enabled(c, s, RecoverRemove)
    ensures Next(c, s, RecoverRemove) == s.(processing := s.processing[1..], pushed := false)
  {
  }

  /** The dead-letter pass with `i` entries placed, as DlqPass is proved to leave it. */
  function Passed(c: Config, s: State, i: nat): State
    requires i <= |s.dlq|
  {
    s.(dlq := s.dlq[..|s.dlq| - i],
       queue := QueueAfter(s.dlq, i, s.queue, c.maxAttempts),
       dead := DeadAfter(s.dlq, i, s.dead, c.maxAttempts))
  }

  /** The same with one more entry popped and in the loop's hand. */
  function Holding(c: Config, s: State, i: nat): State
    requires i < |s.dlq|
  {
    Passed(c, s, i).(dlq := s.dlq[..|s.dlq| - i - 1], hand := Some(s.dlq[|s.dlq| - i - 1]))
  }

  /** RPOP number `i` of the dead-letter pass is a step. */
  lemma PopIsAStep(c: Config, s: State, i: nat)
    requires s.hand.None? && i < |s.dlq|
    ensures Enabled(c, Passed(c, s, i), DlqPop) && Next(c, Passed(c, s, i), DlqPop) == Holding(c, s, i)
  {
    PopStep(c, Passed(c, s, i));
    assert s.dlq[..|s.dlq| - i][..|s.dlq| - i - 1] == s.dlq[..|s.dlq| - i - 1];
  }

  /** ... and so is the LPUSH that places the entry. */
  lemma PlaceIsAStep(c: Config, s: State, i: nat)
    requires s.hand.None? && i < |s.dlq|
    ensures Enabled(c, Holding(c, s, i), DlqPlace) && Next(c, Holding(c, s, i), DlqPlace) == Passed(c, s, i + 1)
  {
    PassedOneMore(c, s, i);
    PlaceStep(c, Holding(c, s, i), s.dlq[|s.dlq| - i - 1]);
  }

  /** A pass over any number of entries is a run: what DlqPass leaves is reached. */
  lemma {:induction false} DlqPassIsARun(c: Config, s: State, n: nat)
    requires s.hand.None? && n <= |s.dlq|
    ensures Leads(c, s, Passed(c, s, n))
  {
    if n == 0 {
      assert s.dlq[..|s.dlq|] == s.dlq && s.dlq[|s.dlq|..] == [];
      assert Passed(c, s, 0) == s;
      LeadsToItself(c, s);
    } else {
      DlqPassIsARun(c, s, n - 1);
      PopIsAStep(c, s, n - 1);
      LeadsOn(c, s, Passed(c, s, n - 1), DlqPop);
      PlaceIsAStep(c, s, n - 1);
      LeadsOn(c, s, Holding(c, s, n - 1), DlqPlace);
    }
  }

  lemma PassedOneMore(c: Config, s: State, i: nat)
    requires s.hand.None? && i < |s.dlq|
    ensures var held, e := Holding(c, s, i), s.dlq[|s.dlq| - i - 1];
            Passed(c, s, i + 1)
            == held.(hand := None,
                     dead := (if e.attempts + 1 > c.maxAttempts then [e] else []) + held.dead,
                     queue := (if e.attempts + 1 <= c.maxAttempts then [e.copy.(attempts := e.attempts + 1)] else []) + held.queue)
  {
    OneMoreEntry(s.dlq, i, s.queue, s.dead, c.maxAttempts);
  }

  lemma PopStep(c: Config, s: State)
    requires s.hand.None? && s.dlq != []
    ensures Enabled(c, s, DlqPop)
    ensures Next(c, s, DlqPop) == s.(hand := Some(s.dlq[|s.dlq| - 1]), dlq := s.dlq[..|s.dlq| - 1])
  {
  }

  lemma PlaceStep(c: Config, s: State, e: Entry)
    requires s.hand == Some(e)
    ensures Enabled(c, s, DlqPlace)
    ensures Next(c, s, DlqPlace)
         == s.(hand := None,
               dead := (if e.attempts + 1 > c.maxAttempts then [e] else []) + s.dead,
               queue := (if e.attempts + 1 <= c.maxAttempts then [e.copy.(attempts := e.attempts + 1)] else []) + s.queue)
  {
  }

  // The fan-out.

  /** Only a run with a pair sends or writes a pending row; only one without is skipped. */
  predicate Possible(b: Branch, outcome: Outcome) {
    if b.ForPair? then !outcome.NoPair? else outcome.NoPair? || outcome == Throw(false)
  }

  predicate AtFront(s: State, w: nat) {
    w < |s.workers| && s.workers[w].Running? && s.workers[w].todo != [] && s.workers[w].phase.Ready?
  }

  /** What the loop body of ProcessMessage does for the branch at the front of worker `w`. */
  function BranchDone(s: State, w: nat, outcome: Outcome): State
    requires AtFront(s, w)
  {
    var worker := s.workers[w];
    var done := s.(workers := Advance(s.workers, w));
    if worker.todo[0] in worker.delivered then done
    else done.(rows := RowsWith(s.rows, (worker.copy.id, worker.todo[0]), outcome),
               dlq := (if outcome.Throw? then [Entry(worker.copy, worker.copy.attempts)] else []) + s.dlq,
               history := if outcome.Accept? then Then(s.history, Accepted(worker.copy.id, worker.todo[0])) else s.history)
  }

  /** A branch of the fan-out is a run of at most two steps. */
  lemma BranchIsARun(c: Config, s: State, w: nat, outcome: Outcome)
    requires AtFront(s, w) && Possible(s.workers[w].todo[0], outcome)
    ensures Leads(c, s, BranchDone(s, w, outcome))
  {
    var worker := s.workers[w];
    if worker.todo[0] in worker.delivered {
      OneStep(c, s, DedupSkip(w));
    } else {
      match outcome
      case Accept => SendAndRecord(c, s, w, true);
      case Refuse => SendAndRecord(c, s, w, false);
      case NoPair => OneStep(c, s, SkipBranch(w));
      case Throw(hasRow) => RaiseIsARun(c, s, w, hasRow);
    }
  }

  lemma SendAndRecord(c: Config, s: State, w: nat, ok: bool)
    requires AtFront(s, w) && AtBranch(s, w) && s.workers[w].todo[0].ForPair?
    ensures Leads(c, s, BranchDone(s, w, if ok then Accept else Refuse))
  {
    var sent := Next(c, s, Send(w, ok));
    OneStep(c, s, Send(w, ok));
    assert AtBranch(sent, w);
    LeadsOn(c, s, sent, Record(w));
    var worker := s.workers[w];
    assert Next(c, sent, Record(w)).workers == Advance(s.workers, w);
    assert Next(c, sent, Record(w)) == BranchDone(s, w, if ok then Accept else Refuse);
  }

  lemma RaiseIsARun(c: Config, s: State, w: nat, hasRow: bool)
    requires AtFront(s, w) && AtBranch(s, w) && (hasRow ==> s.workers[w].todo[0].ForPair?)
    ensures Leads(c, s, BranchDone(s, w, Throw(hasRow)))
  {
    if hasRow {
      var open := Next(c, s, InsertPending(w));
      OneStep(c, s, InsertPending(w));
      PendingThenRaise(c, s, w);
      LeadsOn(c, s, open, Raise(w));
    } else {
      OneStep(c, s, Raise(w));
      assert Next(c, s, Raise(w)) == BranchDone(s, w, Throw(false));
    }
  }

  lemma PendingThenRaise(c: Config, s: State, w: nat)
    requires AtFront(s, w) && AtBranch(s, w) && s.workers[w].todo[0].ForPair?
    ensures var open := Next(c, s, InsertPending(w));
            Enabled(c, open, Raise(w)) && Next(c, open, Raise(w)) == BranchDone(s, w, Throw(true))
  {
    var open := Next(c, s, InsertPending(w));
    assert AtBranch(open, w);
    assert Next(c, open, Raise(w)).workers == Advance(s.workers, w);
  }

  /** The whole fan-out of what worker `w` has to do. */
  function AllDone(s: State, w: nat, outcome: Branch -> Outcome): State
    requires w < |s.workers| && s.workers[w].Running? && s.workers[w].phase.Ready?
    decreases |s.workers[w].todo|
  {
    if s.workers[w].todo == [] then s else AllDone(BranchDone(s, w, outcome(s.workers[w].todo[0])), w, outcome)
  }

  lemma {:induction false} AllDoneIsARun(c: Config, s: State, w: nat, outcome: Branch -> Outcome)
    requires w < |s.workers| && s.workers[w].Running? && s.workers[w].phase.Ready?
    requires forall b :: b in s.workers[w].todo ==> Possible(b, outcome(b))
    ensures Leads(c, s, AllDone(s, w, outcome))
    decreases |s.workers[w].todo|
  {
    if s.workers[w].todo == [] {
      LeadsToItself(c, s);
    } else {
      var next := BranchDone(s, w, outcome(s.workers[w].todo[0]));
      BranchIsARun(c, s, w, outcome(s.workers[w].todo[0]));
      AllDoneIsARun(c, next, w, outcome);
      LeadsThrough(c, s, next, AllDone(next, w, outcome));
    }
  }

  lemma {:induction false} ThrowsFirst(b: Branch, rest: seq<Branch>, seen: set<Branch>, outcome: Branch -> Outcome)
    ensures Throws([b] + rest, seen, outcome) == Throws(rest, seen, outcome) + if b !in seen && outcome(b).Throw? then 1 else 0
  {
    var all := [b] + rest;
    if rest == [] {
      assert all[..|all| - 1] == [];
    } else {
      assert all[..|all| - 1] == [b] + rest[..|rest| - 1];
      ThrowsFirst(b, rest[..|rest| - 1], seen, outcome);
    }
  }

  lemma BranchRows(s: State, w: nat, outcome: Outcome, id: Id, b: Branch)
    requires AtFront(s, w)
    ensures var worker := s.workers[w];
            var rows := BranchDone(s, w, outcome).rows;
            if id == worker.copy.id && b == worker.todo[0] && b !in worker.delivered && outcome != Throw(false)
            then At(rows, id, b) == Some(if IsDelivered(s.rows, id, b) then Delivered else Written(outcome))
            else At(rows, id, b) == At(s.rows, id, b)
  {
  }

  lemma BranchShape(s: State, w: nat, outcome: Outcome)
    requires AtFront(s, w)
    ensures var worker, next := s.workers[w], BranchDone(s, w, outcome);
            && next.workers == s.workers[w := worker.(todo := worker.todo[1..])]
            && next.dlq == (if worker.todo[0] !in worker.delivered && outcome.Throw? then [Entry(worker.copy, worker.copy.attempts)] else []) + s.dlq
            && next.queue == s.queue && next.processing == s.processing && next.dead == s.dead && next.hand == s.hand
            && next.locks == s.locks
  {
  }

  lemma {:induction false} AllDoneRows(s: State, w: nat, outcome: Branch -> Outcome, id: Id, b: Branch)
    requires w < |s.workers| && s.workers[w].Running? && s.workers[w].phase.Ready? && Distinct(s.workers[w].todo)
    ensures var worker := s.workers[w];
            At(AllDone(s, w, outcome).rows, id, b) == RowAfter(s.rows, worker.copy, worker.todo, worker.delivered, outcome, id, b)
    decreases |s.workers[w].todo|
  {
    var worker := s.workers[w];
    if worker.todo != [] {
      var b0 := worker.todo[0];
      var next := BranchDone(s, w, outcome(b0));
      BranchShape(s, w, outcome(b0));
      BranchRows(s, w, outcome(b0), id, b);
      AllDoneRows(next, w, outcome, id, b);
      assert b in worker.todo <==> b == b0 || b in worker.todo[1..];
    }
  }

  lemma {:induction false} AllDoneLists(s: State, w: nat, outcome: Branch -> Outcome)
    requires w < |s.workers| && s.workers[w].Running? && s.workers[w].phase.Ready?
    ensures var worker, t := s.workers[w], AllDone(s, w, outcome);
            && t.dlq == Repeated(Entry(worker.copy, worker.copy.attempts), Throws(worker.todo, worker.delivered, outcome)) + s.dlq
            && t.queue == s.queue && t.processing == s.processing && t.dead == s.dead && t.hand == s.hand && t.locks == s.locks
            && t.workers == s.workers[w := worker.(todo := [])]
    decreases |s.workers[w].todo|
  {
    var worker := s.workers[w];
    if worker.todo == [] {
      assert s.workers[w := worker.(todo := [])] == s.workers;
    } else {
      var b0, rest := worker.todo[0], worker.todo[1..];
      var next := BranchDone(s, w, outcome(b0));
      BranchShape(s, w, outcome(b0));
      AllDoneLists(next, w, outcome);
      assert worker.todo == [b0] + rest;
      ThrowsFirst(b0, rest, worker.delivered, outcome);
      DlqGrows(Throws(rest, worker.delivered, outcome), Entry(worker.copy, worker.copy.attempts), s.dlq);
      assert next.workers[w := worker.(todo := [])] == s.workers[w := worker.(todo := [])];
    }
  }

  /** Row (id, b) after the fan-out of `copy`: at each pair of its chat, what the branch leaves; a copy
      that comes back does not run where its message is delivered. */
  function DueRow(c: Config, rows: Rows, copy: Copy, outcome: Branch -> Outcome, id: Id, b: Branch): Option<Status> {
    var has := (id, b) in rows && rows[(id, b)] == Delivered;
    if id == copy.id && IsDue(c, copy.chat, b) && !(copy.Marked() && has) && outcome(b) != Throw(false)
    then Some(if has then Delivered else Written(outcome(b)))
    else At(rows, id, b)
  }

  lemma DueRows(c: Config, rows: Rows, copy: Copy, outcome: Branch -> Outcome, id: Id, b: Branch)
    ensures RowAfter(rows, copy, c.Branches(copy.chat), Seen(rows, copy), outcome, id, b) == DueRow(c, rows, copy, outcome, id, b)
  {
    BranchesAreDue(c, copy.chat, b);
    assert b in DeliveredTo(rows, copy.id) <==> IsDelivered(rows, copy.id, b);
  }

  /** From the moment the pairs are read, the fan-out is a run to the rows and the DLQ that
      ProcessMessage is proved to leave, with everything else of the lists and locks as it was: at each
      pair of the chat its branch ran, or was passed over as delivered, and nowhere else. */
  lemma FanOutIsARun(c: Config, s: State, w: nat, outcome: Branch -> Outcome) returns (t: State)
    requires c.Valid() && w < |s.workers| && s.workers[w].Looking?
    requires forall b :: IsDue(c, s.workers[w].copy.chat, b) ==> Possible(b, outcome(b))
    ensures Leads(c, s, t)
    ensures forall id, b :: At(t.rows, id, b) == DueRow(c, s.rows, s.workers[w].copy, outcome, id, b)
    ensures var copy, branches := s.workers[w].copy, c.Branches(s.workers[w].copy.chat);
            && FannedOut(s.rows, t.rows, copy, branches, Seen(s.rows, copy), outcome)
            && t.dlq == Repeated(Entry(copy, copy.attempts), Throws(branches, Seen(s.rows, copy), outcome)) + s.dlq
            && t.queue == s.queue && t.processing == s.processing && t.dead == s.dead && t.hand == s.hand && t.locks == s.locks
            && t.workers == s.workers[w := Running(copy, [], Seen(s.rows, copy), Ready)]
  {
    var copy, branches := s.workers[w].copy, c.Branches(s.workers[w].copy.chat);
    var loaded := Next(c, s, Load(w));
    forall b ensures b in branches <==> IsDue(c, copy.chat, b) { BranchesAreDue(c, copy.chat, b); }
    OneStep(c, s, Load(w));
    assert loaded == s.(workers := s.workers[w := Running(copy, branches, Seen(s.rows, copy), Ready)]);
    t := AllDone(loaded, w, outcome);
    AllDoneIsARun(c, loaded, w, outcome);
    LeadsThrough(c, s, loaded, t);
    BranchesDistinct(c, copy.chat);
    forall id, b ensures At(t.rows, id, b) == RowAfter(s.rows, copy, branches, Seen(s.rows, copy), outcome, id, b) {
      AllDoneRows(loaded, w, outcome, id, b);
    }
    forall id, b ensures At(t.rows, id, b) == DueRow(c, s.rows, copy, outcome, id, b) {
      DueRows(c, s.rows, copy, outcome, id, b);
    }
    AllDoneLists(loaded, w, outcome);
  }

  lemma {:induction false} DlqGrows(n: nat, e: Entry, dlq: seq<Entry>)
    ensures Repeated(e, n) + ([e] + dlq) == Repeated(e, n + 1) + dlq
  {
    if n > 0 {
      DlqGrows(n - 1, e, dlq);
      Associates([e], Repeated(e, n - 1), [e] + dlq);
      Associates([e], Repeated(e, n), dlq);
    }
  }
}
