/** Runs built step by step. */
module QueueRuns {
  import opened QueueModel

  lemma {:induction false} Snoc(c: Config, s: State, steps: seq<Step>, step: Step)
    requires Allowed(c, s, steps) && Enabled(c, After(c, s, steps), step)
    ensures Allowed(c, s, steps + [step])
    ensures After(c, s, steps + [step]) == Next(c, After(c, s, steps), step)
    ensures Prompt(c, s, steps) && PromptStep(After(c, s, steps), step) ==> Prompt(c, s, steps + [step])
    decreases |steps|
  {
    if steps == [] {
      assert (steps + [step])[1..] == [];
    } else {
      assert (steps + [step])[1..] == steps[1..] + [step];
      Snoc(c, Next(c, s, steps[0]), steps[1..], step);
    }
  }

  /** Some run from `s` ends in `t`. */
  ghost predicate Leads(c: Config, s: State, t: State) {
    exists steps :: Allowed(c, s, steps) && After(c, s, steps) == t
  }

  lemma LeadsToItself(c: Config, s: State)
    ensures Leads(c, s, s)
  {
    assert Allowed(c, s, []) && After(c, s, []) == s;
  }

  lemma LeadsOn(c: Config, s: State, t: State, step: Step)
    requires Leads(c, s, t) && Enabled(c, t, step)
    ensures Leads(c, s, Next(c, t, step))
  {
    var steps :| Allowed(c, s, steps) && After(c, s, steps) == t;
    Snoc(c, s, steps, step);
  }

  lemma OneStep(c: Config, s: State, step: Step)
    requires Enabled(c, s, step)
    ensures Leads(c, s, Next(c, s, step))
  {
    LeadsToItself(c, s);
    LeadsOn(c, s, s, step);
  }

  lemma Prepend(c: Config, s: State, step: Step, rest: seq<Step>)
    requires Enabled(c, s, step) && Allowed(c, Next(c, s, step), rest)
    ensures Allowed(c, s, [step] + rest) && After(c, s, [step] + rest) == After(c, Next(c, s, step), rest)
  {
    assert ([step] + rest)[1..] == rest;
  }

  lemma {:induction false} Appended(c: Config, s: State, steps: seq<Step>, more: seq<Step>)
    requires Allowed(c, s, steps) && Allowed(c, After(c, s, steps), more)
    ensures Allowed(c, s, steps + more) && After(c, s, steps + more) == After(c, After(c, s, steps), more)
    decreases |steps|
  {
    if steps == [] {
      assert steps + more == more;
    } else {
      assert (steps + more)[1..] == steps[1..] + more;
      Appended(c, Next(c, s, steps[0]), steps[1..], more);
    }
  }

  lemma LeadsThrough(c: Config, s: State, t: State, u: State)
    requires Leads(c, s, t) && Leads(c, t, u)
    ensures Leads(c, s, u)
  {
    var steps :| Allowed(c, s, steps) && After(c, s, steps) == t;
    var more :| Allowed(c, t, more) && After(c, t, more) == u;
    Appended(c, s, steps, more);
  }

  /** Some run of `n` workers reaches `s`; with `prompt`, one whose re-emits are prompt. */
  ghost predicate Reachable(c: Config, n: nat, s: State, prompt: bool) {
    exists steps :: Allowed(c, Init(n), steps) && (prompt ==> Prompt(c, Init(n), steps)) && After(c, Init(n), steps) == s
  }

  lemma Start(c: Config, n: nat, prompt: bool)
    ensures Reachable(c, n, Init(n), prompt)
  {
    assert Allowed(c, Init(n), []) && Prompt(c, Init(n), []) && After(c, Init(n), []) == Init(n);
  }

  lemma OneMore(c: Config, n: nat, s: State, prompt: bool, step: Step)
    requires Reachable(c, n, s, prompt) && Enabled(c, s, step) && (prompt ==> PromptStep(s, step))
    ensures Reachable(c, n, Next(c, s, step), prompt)
  {
    var steps :| Allowed(c, Init(n), steps) && (prompt ==> Prompt(c, Init(n), steps)) && After(c, Init(n), steps) == s;
    Snoc(c, Init(n), steps, step);
  }
}
