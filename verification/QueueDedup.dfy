/** Dedup inside the queue protocol: over every run, crashes and recovery included, a publish joins
    the queue exactly when the message's latest enqueue is DEDUP_TTL old. */
module QueueDedup {
  import opened Wrappers
  import opened QueueModel

  /** The step adds one to the enqueues of `id`. */
  predicate Enqueuing(c: Config, s: State, step: Step, id: Id) {
    Enabled(c, s, step) && Enqueues(Next(c, s, step).history, id) > Enqueues(s.history, id)
  }

  /** When a run last enqueued `id`. */
  function LastEnqueue(c: Config, s: State, steps: seq<Step>, id: Id): Option<nat>
    requires Allowed(c, s, steps)
    decreases |steps|
  {
    if steps == [] then None
    else
      var later := LastEnqueue(c, Next(c, s, steps[0]), steps[1..], id);
      if later.None? && Enqueuing(c, s, steps[0], id) then Some(s.now) else later
  }

  /** The key of `id` dates from its enqueue at `last`. */
  predicate KeyOf(c: Config, s: State, id: Id, last: Option<nat>) {
    if last.None? then id !in s.dedup else id in s.dedup && s.dedup[id] == last.value + c.ttl
  }

  lemma KeyStep(c: Config, s: State, step: Step, id: Id, last: Option<nat>)
    requires Enabled(c, s, step) && KeyOf(c, s, id, last)
    ensures KeyOf(c, Next(c, s, step), id, if Enqueuing(c, s, step, id) then Some(s.now) else last)
  {
    if step.Inside() { InsideKey(c, s, step, id); }
  }

  lemma InsideKey(c: Config, s: State, step: Step, id: Id)
    requires step.Inside() && Enabled(c, s, step)
    ensures Next(c, s, step).dedup == s.dedup && !Enqueuing(c, s, step, id)
  {
  }

  lemma {:induction false} KeyAlways(c: Config, s: State, steps: seq<Step>, id: Id, last: Option<nat>)
    requires Allowed(c, s, steps) && KeyOf(c, s, id, last)
    ensures var later := LastEnqueue(c, s, steps, id);
            KeyOf(c, After(c, s, steps), id, if later.Some? then later else last)
    decreases |steps|
  {
    if steps != [] {
      KeyStep(c, s, steps[0], id, last);
      KeyAlways(c, Next(c, s, steps[0]), steps[1..], id, if Enqueuing(c, s, steps[0], id) then Some(s.now) else last);
    }
  }

  /** Within DEDUP_TTL of the latest enqueue a publish changes nothing; from then on, and the first
      time, a fresh copy joins the queue, behind all others. */
  lemma PublishIsExact(c: Config, workers: nat, steps: seq<Step>, id: Id, chat: Chat)
    requires Allowed(c, Init(workers), steps)
    ensures var s, last := After(c, Init(workers), steps), LastEnqueue(c, Init(workers), steps, id);
            var s' := Next(c, s, Publish(id, chat));
            if last.Some? && s.now < last.value + c.ttl then s' == s
            else s' == s.(dedup := s.dedup[id := s.now + c.ttl], queue := [Copy(id, chat, 0, false)] + s.queue,
                          history := Then(s.history, Enqueued(id, chat)))
  {
    KeyAlways(c, Init(workers), steps, id, None);
  }
}
