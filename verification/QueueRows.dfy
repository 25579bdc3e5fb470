/** `delivered` rows over all runs.  The upsert never touches one; the update after a two-phase
    send is unguarded, so a delivered row is safe exactly as long as no other run of the same
    message and pair finishes meanwhile, which one lock key per message rules out. */
module QueueRows {
  import opened QueueModel
  import opened QueueLocks
  import opened QueueTrace

  predicate IsDelivered(rows: Rows, id: Id, b: Branch) {
    (id, b) in rows && rows[(id, b)] == Delivered
  }

  /** The step writes `failed` over row (id, b) by its event id. */
  predicate Overwrites(s: State, step: Step, id: Id, b: Branch) {
    step.Record? && AtBranch(s, step.w)
    && s.workers[step.w].phase == Sent(false, true) && (s.workers[step.w].copy.id, s.workers[step.w].todo[0]) == (id, b)
  }

  /** One step, any state: the only way a delivered row is lost. */
  lemma DeliveredLostIff(c: Config, s: State, step: Step, id: Id, b: Branch)
    requires Enabled(c, s, step) && IsDelivered(s.rows, id, b)
    ensures !IsDelivered(Next(c, s, step).rows, id, b) <==> Overwrites(s, step, id, b)
  {
    if !step.Inside() { ListsKeepRows(c, s, step); }
  }

  lemma ListsKeepRows(c: Config, s: State, step: Step)
    requires !step.Inside() && Enabled(c, s, step)
    ensures Next(c, s, step).rows == s.rows
  {
    if step.DlqPlace? || step.Publish? || step.Crash? { LoopsKeepRows(c, s, step); }
  }

  lemma LoopsKeepRows(c: Config, s: State, step: Step)
    requires (step.DlqPlace? || step.Publish? || step.Crash?) && Enabled(c, s, step)
    ensures Next(c, s, step).rows == s.rows
  {
  }

  /** A worker between its two phases has a row to come back to, and that row is not delivered. */
  predicate RowOpen(rows: Rows, worker: Worker) {
    worker.Running? && (worker.phase.HasRow? || (worker.phase.Sent? && worker.phase.viaRow)) ==>
      worker.todo != [] && (worker.copy.id, worker.todo[0]) in rows && !IsDelivered(rows, worker.copy.id, worker.todo[0])
  }

  ghost predicate RowsGuarded(s: State) {
    forall w :: 0 <= w < |s.workers| ==> RowOpen(s.rows, s.workers[w])
  }

  lemma OneRunPerMessage(s: State, v: nat, w: nat)
    requires Base(s) && CopiesKnown(s) && OneChat(s.history) && v < |s.workers| && w < |s.workers|
    requires s.workers[v].HoldsLock() && s.workers[w].HoldsLock() && s.workers[v].copy.id == s.workers[w].copy.id
    ensures v == w
  {
    InFlight(s, v);
    InFlight(s, w);
    assert Known(s.history, s.workers[v].copy) && Known(s.history, s.workers[w].copy);
    HolderIsFirst(s, v);
    HolderIsFirst(s, w);
  }

  lemma OwnRowOpen(c: Config, s: State, step: Step)
    requires step.Inside() && Enabled(c, s, step) && step.w < |s.workers| == |Next(c, s, step).workers|
    requires RowOpen(s.rows, s.workers[step.w])
    ensures RowOpen(Next(c, s, step).rows, Next(c, s, step).workers[step.w])
  {
  }

  /** Only rows of the worker's own message change. */
  lemma OtherRowsStay(c: Config, s: State, step: Step, id: Id, b: Branch)
    requires step.Inside() && Enabled(c, s, step) && step.w < |s.workers| && s.workers[step.w].copy.id != id
    ensures (id, b) in Next(c, s, step).rows <==> (id, b) in s.rows
    ensures (id, b) in s.rows ==> Next(c, s, step).rows[(id, b)] == s.rows[(id, b)]
  {
  }

  lemma InsideGuarded(c: Config, s: State, step: Step)
    requires Base(s) && CopiesKnown(s) && OneChat(s.history) && RowsGuarded(s) && step.Inside() && Enabled(c, s, step)
    ensures RowsGuarded(Next(c, s, step))
  {
    InsideShape(c, s, step);
    var s', w := Next(c, s, step), step.w;
    forall v | 0 <= v < |s'.workers| ensures RowOpen(s'.rows, s'.workers[v]) {
      if v == w {
        OwnRowOpen(c, s, step);
      } else if s.workers[v].Running? && s.workers[v].todo != [] {
        if s.workers[v].copy.id == s.workers[w].copy.id { OneRunPerMessage(s, v, w); }
        OtherRowsStay(c, s, step, s.workers[v].copy.id, s.workers[v].todo[0]);
      }
      assert v != w ==> RowOpen(s.rows, s.workers[v]);
    }
  }

  lemma ListsGuarded(c: Config, s: State, step: Step)
    requires RowsGuarded(s) && !step.Inside() && Enabled(c, s, step)
    ensures RowsGuarded(Next(c, s, step))
  {
    ListsKeepRows(c, s, step);
  }

  lemma GuardedStep(c: Config, s: State, step: Step)
    requires Traced(s) && OneChat(s.history) && RowsGuarded(s) && Enabled(c, s, step)
    ensures RowsGuarded(Next(c, s, step))
  {
    if step.Inside() { InsideGuarded(c, s, step); } else { ListsGuarded(c, s, step); }
  }

  lemma {:induction false} GuardedAlways(c: Config, s: State, steps: seq<Step>)
    requires Traced(s) && RowsGuarded(s) && Allowed(c, s, steps) && OneChat(After(c, s, steps).history)
    ensures RowsGuarded(After(c, s, steps))
    decreases |steps|
  {
    if steps != [] {
      OneChatBefore(c, s, steps);
      GuardedStep(c, s, steps[0]);
      TracedStep(c, s, steps[0]);
      GuardedAlways(c, Next(c, s, steps[0]), steps[1..]);
    }
  }

  lemma GuardedHolds(s: State, step: Step, id: Id, b: Branch)
    requires RowsGuarded(s) && IsDelivered(s.rows, id, b)
    ensures !Overwrites(s, step, id, b)
  {
    if step.Record? && AtBranch(s, step.w) { assert RowOpen(s.rows, s.workers[step.w]); }
  }

  lemma {:induction false} DeliveredStays(c: Config, s: State, steps: seq<Step>, id: Id, b: Branch)
    requires Traced(s) && RowsGuarded(s) && Allowed(c, s, steps) && OneChat(After(c, s, steps).history)
    requires IsDelivered(s.rows, id, b)
    ensures IsDelivered(After(c, s, steps).rows, id, b)
    decreases |steps|
  {
    if steps != [] {
      OneChatBefore(c, s, steps);
      GuardedHolds(s, steps[0], id, b);
      DeliveredLostIff(c, s, steps[0], id, b);
      GuardedStep(c, s, steps[0]);
      TracedStep(c, s, steps[0]);
      DeliveredStays(c, Next(c, s, steps[0]), steps[1..], id, b);
    }
  }

  /** Delivered is absorbing over every run in which each message has one lock key: late re-emits,
      retries and crashes included, whatever a run delivered, every continuation leaves delivered. */
  lemma DeliveredIsAbsorbing(c: Config, workers: nat, steps: seq<Step>, more: seq<Step>, id: Id, b: Branch)
    requires Allowed(c, Init(workers), steps) && Allowed(c, After(c, Init(workers), steps), more)
    requires OneChat(After(c, After(c, Init(workers), steps), more).history)
    requires IsDelivered(After(c, Init(workers), steps).rows, id, b)
    ensures IsDelivered(After(c, After(c, Init(workers), steps), more).rows, id, b)
  {
    var s := After(c, Init(workers), steps);
    TracedInit(workers);
    TracedAlways(c, Init(workers), steps);
    OneChatBefore(c, s, more);
    GuardedAlways(c, Init(workers), steps);
    DeliveredStays(c, s, more, id, b);
  }

  // The branches of a run.

  predicate Distinct<T(==)>(s: seq<T>) {
    s == [] || (s[0] !in s[1..] && Distinct(s[1..]))
  }

  lemma BranchesDistinct(c: Config, chat: Chat)
    requires c.Valid()
    ensures Distinct(c.Branches(chat))
  {
    IndexDistinct(c.Branches(chat));
  }

  lemma {:induction false} IndexDistinct<T>(s: seq<T>)
    requires forall i, j :: 0 <= i < j < |s| ==> s[i] != s[j]
    ensures Distinct(s)
  {
    if s != [] { IndexDistinct(s[1..]); }
  }
}
