/** The processor's loops over its Redis lists, in the form the code has them: the recovery of
    the in-flight list, one pass of the dead-letter loop and the fan-out of one message.  Each
    method is proved against a closed description of the lists it leaves. */
module QueueLoops {
  import opened Wrappers
  import opened QueueModel
  import opened QueueRows

  function Marked(copies: seq<Copy>): (r: seq<Copy>)
    ensures |r| == |copies| && forall i :: 0 <= i < |copies| ==> r[i] == Mark(copies[i])
  {
    if copies == [] then [] else [Mark(copies[0])] + Marked(copies[1..])
  }

  lemma {:induction false} MarkedAppend(a: seq<Copy>, b: seq<Copy>)
    ensures Marked(a + b) == Marked(a) + Marked(b)
  {
    if a == [] {
      assert a + b == b;
    } else {
      assert (a + b)[1..] == a[1..] + b;
      MarkedAppend(a[1..], b);
    }
  }

  /** Recovery cut short after `commands` Redis commands: RPUSH and LREM alternate, newest
      in-flight item first. */
  function Returned(processing: seq<Copy>, commands: nat): seq<Copy> {
    Marked(if commands >= 2 * |processing| then processing else processing[..(commands + 1) / 2])
  }

  function LeftInFlight(processing: seq<Copy>, commands: nat): seq<Copy> {
    if commands >= 2 * |processing| then [] else processing[commands / 2..]
  }

  lemma EvenCommands(processing: seq<Copy>, i: nat)
    requires i <= |processing|
    ensures Returned(processing, 2 * i) == Marked(processing[..i]) && LeftInFlight(processing, 2 * i) == processing[i..]
  {
    assert 2 * i / 2 == i && (2 * i + 1) / 2 == i;
    if i == |processing| { assert processing[..i] == processing && processing[i..] == []; }
  }

  lemma OddCommands(processing: seq<Copy>, i: nat)
    requires i < |processing|
    ensures Returned(processing, 2 * i + 1) == Marked(processing[..i + 1]) && LeftInFlight(processing, 2 * i + 1) == processing[i..]
  {
    assert (2 * i + 1) / 2 == i && (2 * i + 2) / 2 == i + 1;
  }

  /** Stopped before item `i`, or after all items. */
  lemma StopsBetween(processing: seq<Copy>, i: nat, commands: nat)
    requires i <= |processing| && (commands == 2 * i || (i == |processing| && commands >= 2 * i))
    ensures Returned(processing, commands) == Marked(processing[..i]) && LeftInFlight(processing, commands) == processing[i..]
  {
    EvenCommands(processing, i);
    if i == |processing| { assert processing[..i] == processing && processing[i..] == []; }
  }

  /** Item `i` pushed. */
  lemma OneMoreReturned(queue: seq<Copy>, stranded: seq<Copy>, i: nat)
    requires i < |stranded|
    ensures queue + Marked(stranded[..i]) + [Mark(stranded[i])] == queue + Marked(stranded[..i + 1])
  {
    OneMoreMarked(stranded, i);
    Associates(queue, Marked(stranded[..i]), [Mark(stranded[i])]);
  }

  lemma OneMoreMarked(stranded: seq<Copy>, i: nat)
    requires i < |stranded|
    ensures Marked(stranded[..i + 1]) == Marked(stranded[..i]) + [Mark(stranded[i])]
  {
  }

  /** Item `i` removed. */
  lemma FirstLeaves(stranded: seq<Copy>, i: nat)
    requires i < |stranded|
    ensures RemoveFirst(stranded[i..], stranded[i]) == stranded[i + 1..]
  {
  }

  /** The dead-letter pass takes the oldest entries; those below the limit go back to the queue. */
  function Retried(entries: seq<Entry>, limit: nat): seq<Copy> {
    if entries == [] then []
    else (if entries[0].attempts + 1 <= limit then [entries[0].copy.(attempts := entries[0].attempts + 1)] else [])
         + Retried(entries[1..], limit)
  }

  function GivenUp(entries: seq<Entry>, limit: nat): seq<Entry> {
    if entries == [] then [] else (if entries[0].attempts + 1 > limit then [entries[0]] else []) + GivenUp(entries[1..], limit)
  }

  /** What one branch of the pipeline can end in; one that raises may have written its `pending`
      row before. */
  datatype Outcome = Accept | Refuse | NoPair | Throw(hasRow: bool)

  function Written(outcome: Outcome): Status
    requires outcome != Throw(false)
  {
    match outcome
    case Accept => Delivered
    case Refuse => Failed
    case NoPair => Skipped
    case Throw(_) => Pending
  }

  /** How many of the branches that ran raised. */
  function Throws(branches: seq<Branch>, seen: set<Branch>, outcome: Branch -> Outcome): nat {
    if branches == [] then 0
    else Throws(branches[..|branches| - 1], seen, outcome)
         + if branches[|branches| - 1] !in seen && outcome(branches[|branches| - 1]).Throw? then 1 else 0
  }

  function Repeated(e: Entry, n: nat): seq<Entry> {
    if n == 0 then [] else [e] + Repeated(e, n - 1)
  }

  function At(rows: Rows, id: Id, b: Branch): Option<Status> {
    if (id, b) in rows then Some(rows[(id, b)]) else None
  }

  /** The pairs a run of `copy` skips: a fresh copy does not ask. */
  function Seen(rows: Rows, copy: Copy): set<Branch> {
    if copy.Marked() then DeliveredTo(rows, copy.id) else {}
  }

  /** The row of (id, b) after a fan-out of `copy` over `branches`. */
  function RowAfter(
    rows: Rows, copy: Copy, branches: seq<Branch>, seen: set<Branch>, outcome: Branch -> Outcome, id: Id, b: Branch): Option<Status>
  {
    if id == copy.id && b in branches && b !in seen && outcome(b) != Throw(false)
    then Some(if IsDelivered(rows, id, b) then Delivered else Written(outcome(b)))
    else At(rows, id, b)
  }

  /** `messages:in` after a pass over the oldest `n` entries, */
  function QueueAfter(entries: seq<Entry>, n: nat, queue: seq<Copy>, limit: nat): seq<Copy>
    requires n <= |entries|
  {
    Retried(entries[|entries| - n..], limit) + queue
  }

  /** and `messages:dlq:dead`. */
  function DeadAfter(entries: seq<Entry>, n: nat, dead: seq<Entry>, limit: nat): seq<Entry>
    requires n <= |entries|
  {
    GivenUp(entries[|entries| - n..], limit) + dead
  }

  lemma OneMoreEntry(entries: seq<Entry>, n: nat, queue: seq<Copy>, dead: seq<Entry>, limit: nat)
    requires n < |entries|
    ensures var e := entries[|entries| - n - 1];
            && QueueAfter(entries, n + 1, queue, limit)
               == (if e.attempts + 1 <= limit then [e.copy.(attempts := e.attempts + 1)] else []) + QueueAfter(entries, n, queue, limit)
            && DeadAfter(entries, n + 1, dead, limit)
               == (if e.attempts + 1 > limit then [e] else []) + DeadAfter(entries, n, dead, limit)
  {
    var e, placed := entries[|entries| - n - 1], entries[|entries| - n..];
    assert entries[|entries| - (n + 1)..] == [e] + placed;
    PlacedOne(e, placed, limit);
    Associates(if e.attempts + 1 <= limit then [e.copy.(attempts := e.attempts + 1)] else [], Retried(placed, limit), queue);
    Associates(if e.attempts + 1 > limit then [e] else [], GivenUp(placed, limit), dead);
  }

  lemma PlacedOne(e: Entry, placed: seq<Entry>, limit: nat)
    ensures Retried([e] + placed, limit)
         == (if e.attempts + 1 <= limit then [e.copy.(attempts := e.attempts + 1)] else []) + Retried(placed, limit)
    ensures GivenUp([e] + placed, limit) == (if e.attempts + 1 > limit then [e] else []) + GivenUp(placed, limit)
  {
    assert ([e] + placed)[1..] == placed;
  }

  /** The row a branch leaves that is not skipped as delivered. */
  function RowsWith(rows: Rows, key: (Id, Branch), outcome: Outcome): Rows {
    if outcome == Throw(false) then rows else Upsert(rows, key, Written(outcome))
  }

  /** `rows` is what a fan-out over `branches` makes of `start`. */
  ghost predicate FannedOut(start: Rows, rows: Rows, copy: Copy, branches: seq<Branch>, seen: set<Branch>, outcome: Branch -> Outcome) {
    forall id, b :: At(rows, id, b) == RowAfter(start, copy, branches, seen, outcome, id, b)
  }

  lemma OneMoreBranch(start: Rows, rows: Rows, copy: Copy, branches: seq<Branch>, b: Branch, seen: set<Branch>, outcome: Branch -> Outcome)
    requires FannedOut(start, rows, copy, branches, seen, outcome) && b !in branches
    ensures FannedOut(start, if b in seen then rows else RowsWith(rows, (copy.id, b), outcome(b)), copy, branches + [b], seen, outcome)
  {
    assert At(rows, copy.id, b) == At(start, copy.id, b);
    var after := if b in seen then rows else RowsWith(rows, (copy.id, b), outcome(b));
    forall id, x ensures At(after, id, x) == RowAfter(start, copy, branches + [b], seen, outcome, id, x) {
      assert At(rows, id, x) == RowAfter(start, copy, branches, seen, outcome, id, x);
    }
  }

  lemma OneMoreThrow(branches: seq<Branch>, b: Branch, seen: set<Branch>, outcome: Branch -> Outcome, e: Entry, dlq: seq<Entry>)
    ensures Repeated(e, Throws(branches + [b], seen, outcome)) + dlq
         == (if b !in seen && outcome(b).Throw? then [e] else []) + (Repeated(e, Throws(branches, seen, outcome)) + dlq)
  {
    assert (branches + [b])[..|branches|] == branches;
    Associates([e], Repeated(e, Throws(branches, seen, outcome)), dlq);
  }

  class Processor {
    var queue: seq<Copy>
    var processing: seq<Copy>
    var dlq: seq<Entry>
    var dead: seq<Entry>
    var rows: Rows

    /** _requeue_inflight, dying after `commands` Redis commands (never, when that is enough
        for the whole list). */
    method RequeueInflight(commands: nat)
      modifies this`queue, this`processing
      ensures queue == old(queue) + Returned(old(processing), commands)
      ensures processing == LeftInFlight(old(processing), commands)
    {
      var stranded := processing;
      var sent, i := 0, 0;
      while i < |stranded|
        invariant i <= |stranded| && sent == 2 * i <= commands
        invariant queue == old(queue) + Marked(stranded[..i])
        invariant processing == stranded[i..]
      {
        if sent == commands {
          StopsBetween(stranded, i, commands);
          return;
        }
        OneMoreReturned(old(queue), stranded, i);
        queue := queue + [Mark(stranded[i])];
        sent := sent + 1;
        if sent == commands {
          OddCommands(stranded, i);
          return;
        }
        FirstLeaves(stranded, i);
        processing := RemoveFirst(processing, stranded[i]);
        sent := sent + 1;
        i := i + 1;
      }
      StopsBetween(stranded, i, commands);
    }

    /** One pass of _dlq_retry_loop over at most `batch` entries. */
    method DlqPass(batch: nat, limit: nat)
      modifies this`queue, this`dlq, this`dead
      ensures var n := if |old(dlq)| < batch then |old(dlq)| else batch;
              && dlq == old(dlq)[..|old(dlq)| - n]
              && queue == QueueAfter(old(dlq), n, old(queue), limit)
              && dead == DeadAfter(old(dlq), n, old(dead), limit)
    {
      var entries := dlq;
      var n := if |dlq| < batch then |dlq| else batch;
      var i := 0;
      while i < n
        invariant i <= n <= |entries| && dlq == entries[..|entries| - i]
        invariant queue == QueueAfter(entries, i, old(queue), limit)
        invariant dead == DeadAfter(entries, i, old(dead), limit)
      {
        var e := dlq[|dlq| - 1];
        OneMoreEntry(entries, i, old(queue), old(dead), limit);
        dlq := dlq[..|dlq| - 1];
        if e.attempts + 1 > limit {
          dead := [e] + dead;
        } else {
          queue := [e.copy.(attempts := e.attempts + 1)] + queue;
        }
        i := i + 1;
      }
    }

    /** The fan-out loop of _process_message: every branch not seen as delivered runs once, in
        order; a branch that raises pushes one copy of the payload and leaves at most a `pending`
        row, the others write theirs. */
    method ProcessMessage(copy: Copy, branches: seq<Branch>, outcome: Branch -> Outcome)
      requires forall i, j :: 0 <= i < j < |branches| ==> branches[i] != branches[j]
      modifies this`dlq, this`rows
      ensures FannedOut(old(rows), rows, copy, branches, Seen(old(rows), copy), outcome)
      ensures dlq == Repeated(Entry(copy, copy.attempts), Throws(branches, Seen(old(rows), copy), outcome)) + old(dlq)
    {
      var seen := Seen(rows, copy);
      var i := 0;
      while i < |branches|
        invariant i <= |branches|
        invariant FannedOut(old(rows), rows, copy, branches[..i], seen, outcome)
        invariant dlq == Repeated(Entry(copy, copy.attempts), Throws(branches[..i], seen, outcome)) + old(dlq)
      {
        var b := branches[i];
        assert branches[..i + 1] == branches[..i] + [b];
        OneMoreBranch(old(rows), rows, copy, branches[..i], b, seen, outcome);
        OneMoreThrow(branches[..i], b, seen, outcome, Entry(copy, copy.attempts), old(dlq));
        if b !in seen {
          if outcome(b) != Throw(false) {
            rows := Upsert(rows, (copy.id, b), Written(outcome(b)));
          }
          if outcome(b).Throw? {
            dlq := [Entry(copy, copy.attempts)] + dlq;
          }
        }
        i := i + 1;
      }
      assert branches[..i] == branches;
    }
  }

  // Recovery inverts popping.

  function Unmarked(copies: seq<Copy>): seq<Copy> {
    seq(|copies|, i requires 0 <= i < |copies| => copies[i].(requeued := false))
  }

  /** `k` BLMOVEs: the last k of the queue, in place, become the front of the in-flight list. */
  function PoppedQueue(queue: seq<Copy>, k: nat): seq<Copy>
    requires k <= |queue|
  {
    if k == 0 then queue else PoppedQueue(queue[..|queue| - 1], k - 1)
  }

  function PoppedInFlight(queue: seq<Copy>, processing: seq<Copy>, k: nat): seq<Copy>
    requires k <= |queue|
  {
    if k == 0 then processing else PoppedInFlight(queue[..|queue| - 1], [queue[|queue| - 1]] + processing, k - 1)
  }

  lemma {:induction false} PoppingKeepsBacklog(queue: seq<Copy>, processing: seq<Copy>, k: nat)
    requires k <= |queue|
    ensures PoppedQueue(queue, k) + PoppedInFlight(queue, processing, k) == queue + processing
  {
    if k > 0 {
      var last := [queue[|queue| - 1]];
      PoppingKeepsBacklog(queue[..|queue| - 1], last + processing, k - 1);
      assert queue[..|queue| - 1] + (last + processing) == queue[..|queue| - 1] + last + processing;
      assert queue[..|queue| - 1] + last == queue;
    }
  }

  /** Any k pops and an undisturbed recovery give back the queue, up to the `_requeued` mark. */
  lemma RecoveryInvertsPopping(queue: seq<Copy>, k: nat, commands: nat)
    requires k <= |queue| && commands >= 2 * |PoppedInFlight(queue, [], k)|
    ensures var inFlight := PoppedInFlight(queue, [], k);
            && Unmarked(PoppedQueue(queue, k) + Returned(inFlight, commands)) == Unmarked(queue)
            && LeftInFlight(inFlight, commands) == []
  {
    PoppingKeepsBacklog(queue, [], k);
    var kept, inFlight := PoppedQueue(queue, k), PoppedInFlight(queue, [], k);
    assert kept + inFlight == queue;
    var back := kept + Returned(inFlight, commands);
    forall i | 0 <= i < |queue| ensures back[i].(requeued := false) == queue[i].(requeued := false) {
      if i >= |kept| { assert queue[i] == inFlight[i - |kept|]; }
    }
  }

  /** `out` is `items` with `extra` of them repeated in place. */
  ghost predicate Stutters(items: seq<Copy>, out: seq<Copy>, extra: nat)
    decreases |items| + extra
  {
    if items == [] then out == [] && extra == 0
    else out != [] && out[0] == items[0]
         && (Stutters(items[1..], out[1..], extra) || (extra > 0 && Stutters(items, out[1..], extra - 1)))
  }

  lemma {:induction false} StuttersRefl(items: seq<Copy>)
    ensures Stutters(items, items, 0)
  {
    if items != [] { StuttersRefl(items[1..]); }
  }

  lemma {:induction false} StuttersJoin(a: seq<Copy>, b: seq<Copy>, out: seq<Copy>, extra: nat)
    requires Stutters(b, out, extra)
    ensures Stutters(a + b, a + out, extra)
  {
    if a == [] {
      assert a + b == b && a + out == out;
    } else {
      assert (a + b)[1..] == a[1..] + b && (a + out)[1..] == a[1..] + out;
      StuttersJoin(a[1..], b, out, extra);
    }
  }

  /** What recovery runs cut short after `cuts[0]`, `cuts[1]`, ... commands, and one last run
      that finishes, append to the queue. */
  function AfterCrashes(processing: seq<Copy>, cuts: seq<nat>): seq<Copy>
    decreases |cuts|
  {
    if cuts == [] then Returned(processing, 2 * |processing|)
    else Returned(processing, cuts[0]) + AfterCrashes(LeftInFlight(processing, cuts[0]), cuts[1..])
  }

  /** However often recovery itself is cut short, the in-flight items come back in their order,
      and each cut repeats at most one of them. */
  lemma {:induction false} RecoverySurvivesCrashes(processing: seq<Copy>, cuts: seq<nat>) returns (extra: nat)
    ensures Stutters(Marked(processing), AfterCrashes(processing, cuts), extra) && extra <= |cuts|
    decreases |cuts|
  {
    if cuts == [] {
      StuttersRefl(Marked(processing));
      extra := 0;
    } else {
      extra := RecoverySurvivesCrashes(LeftInFlight(processing, cuts[0]), cuts[1..]);
      extra := JoinCut(processing, cuts[0], AfterCrashes(LeftInFlight(processing, cuts[0]), cuts[1..]), extra);
    }
  }

  /** One repeated item right after `k` finished ones. */
  lemma RepeatAfter(processing: seq<Copy>, k: nat, rest: seq<Copy>, extra: nat)
    requires k < |processing| && Stutters(Marked(processing[k..]), rest, extra)
    ensures Stutters(Marked(processing), Marked(processing[..k + 1]) + rest, extra + 1)
  {
    var twin := [Mark(processing[k])] + rest;
    assert twin[1..] == rest;
    assert Stutters(Marked(processing[k..]), twin, extra + 1);
    StuttersJoin(Marked(processing[..k]), Marked(processing[k..]), twin, extra + 1);
    assert processing == processing[..k] + processing[k..];
    MarkedAppend(processing[..k], processing[k..]);
    assert Marked(processing[..k]) + twin == Marked(processing[..k + 1]) + rest;
  }

  lemma CleanCut(processing: seq<Copy>, k: nat, rest: seq<Copy>, extra: nat)
    requires k <= |processing| && Stutters(Marked(processing[k..]), rest, extra)
    ensures Stutters(Marked(processing), Marked(processing[..k]) + rest, extra)
  {
    StuttersJoin(Marked(processing[..k]), Marked(processing[k..]), rest, extra);
    assert processing == processing[..k] + processing[k..];
    MarkedAppend(processing[..k], processing[k..]);
  }

  lemma JoinCut(processing: seq<Copy>, cut: nat, rest: seq<Copy>, extra: nat) returns (total: nat)
    requires Stutters(Marked(LeftInFlight(processing, cut)), rest, extra)
    ensures Stutters(Marked(processing), Returned(processing, cut) + rest, total) && total <= extra + 1
  {
    var n := |processing|;
    if cut >= 2 * n {
      assert processing[n..] == [] && processing[..n] == processing;
      CleanCut(processing, n, rest, extra);
      total := extra;
    } else if cut % 2 == 0 {
      assert (cut + 1) / 2 == cut / 2;
      CleanCut(processing, cut / 2, rest, extra);
      total := extra;
    } else {
      assert (cut + 1) / 2 == cut / 2 + 1;
      RepeatAfter(processing, cut / 2, rest, extra);
      total := extra + 1;
    }
  }

  /** The dead-letter pass loses nothing and keeps the order of what it retries. */
  lemma {:induction false} PassConserves(entries: seq<Entry>, limit: nat, id: Id)
    ensures |Retried(entries, limit)| + |GivenUp(entries, limit)| == |entries|
    ensures (exists e :: e in entries && e.copy.id == id) ==>
              (exists copy :: copy in Retried(entries, limit) && copy.id == id)
              || (exists e :: e in GivenUp(entries, limit) && e.copy.id == id)
  {
    if entries != [] {
      PassConserves(entries[1..], limit, id);
      if entries[0].copy.id == id {
        if entries[0].attempts + 1 <= limit {
          assert Retried(entries, limit)[0].id == id;
        } else {
          assert GivenUp(entries, limit)[0].copy.id == id;
        }
      } else if exists e :: e in entries && e.copy.id == id {
        var e :| e in entries && e.copy.id == id;
        assert e in entries[1..];
      }
    }
  }
}
