/** The life of a chat profile's glossary: the builder adds entries, the evaluator flags them and
    throws them out at a threshold, the validator rejects them, and what went out is remembered. */
module ProfileGlossary {

  const MAX_EXAMPLES := 3

  datatype Example = Example(score: int, original: string, translated: string)

  datatype Flag = Flag(count: nat, last: nat, examples: seq<Example>)

  datatype Reason = Evaluator(flags: nat) | Validator(why: string)

  datatype Removal = Removal(rendering: string, day: nat, reason: Reason)

  /** The glossary part of a profile; the rest of it is merged key by key and plays no part here. */
  datatype Profile = Profile(glossary: map<string, string>, flags: map<string, Flag>, removed: map<string, Removal>)

  const EMPTY := Profile(map[], map[], map[])

  type Hits = map<string, seq<Example>>

  function LastExamples(s: seq<Example>): seq<Example> {
    if |s| > MAX_EXAMPLES then s[|s| - MAX_EXAMPLES..] else s
  }

  function CountOf(profile: Profile, key: string): nat {
    if key in profile.flags then profile.flags[key].count else 0
  }

  function ExamplesOf(profile: Profile, key: string): seq<Example> {
    if key in profile.flags then profile.flags[key].examples else []
  }

  function HitsOn(hits: Hits, key: string): seq<Example> {
    if key in hits then hits[key] else []
  }

  // One night's feedback.

  /** A present entry goes out when its hits so far and tonight's reach the threshold. */
  predicate GoesOut(profile: Profile, hits: Hits, threshold: int, key: string) {
    key in profile.glossary && key in hits && CountOf(profile, key) + |hits[key]| >= threshold
  }

  function NewFlag(profile: Profile, hits: Hits, day: nat, key: string): Flag
    requires key in hits
  {
    Flag(CountOf(profile, key) + |hits[key]|, day, LastExamples(ExamplesOf(profile, key) + hits[key]))
  }

  function NewRemoval(profile: Profile, hits: Hits, day: nat, key: string): Removal
    requires key in hits && key in profile.glossary
  {
    Removal(profile.glossary[key], day, Evaluator(CountOf(profile, key) + |hits[key]|))
  }

  predicate Hit(profile: Profile, hits: Hits, key: string) {
    key in profile.glossary && key in hits
  }

  function GlossaryAfter(profile: Profile, hits: Hits, threshold: int): map<string, string> {
    map k | k in profile.glossary && !GoesOut(profile, hits, threshold, k) :: profile.glossary[k]
  }

  function FlagsAfter(profile: Profile, hits: Hits, threshold: int, day: nat): map<string, Flag> {
    map k | k in profile.flags.Keys + hits.Keys
            && (if Hit(profile, hits, k) then !GoesOut(profile, hits, threshold, k) else k in profile.flags)
      :: if Hit(profile, hits, k) then NewFlag(profile, hits, day, k) else profile.flags[k]
  }

  function RemovedAfter(profile: Profile, hits: Hits, threshold: int, day: nat): map<string, Removal> {
    map k | k in profile.removed.Keys + hits.Keys && (k in profile.removed || GoesOut(profile, hits, threshold, k))
      :: if GoesOut(profile, hits, threshold, k) then NewRemoval(profile, hits, day, k) else profile.removed[k]
  }

  /** The whole night at once: every entry on its own, in no order. */
  function Flagged(profile: Profile, hits: Hits, threshold: int, day: nat): Profile {
    Profile(GlossaryAfter(profile, hits, threshold), FlagsAfter(profile, hits, threshold, day), RemovedAfter(profile, hits, threshold, day))
  }

  function ToMap<V>(items: seq<(string, V)>): map<string, V> {
    if items == [] then map[] else ToMap(items[..|items| - 1])[items[|items| - 1].0 := items[|items| - 1].1]
  }

  /** A dictionary in its iteration order. */
  predicate DistinctKeys<V>(items: seq<(string, V)>) {
    forall i, j :: 0 <= i < j < |items| ==> items[i].0 != items[j].0
  }

  lemma {:induction false} NewKey<V>(items: seq<(string, V)>, key: string)
    requires forall i :: 0 <= i < |items| ==> items[i].0 != key
    ensures key !in ToMap(items)
  {
    if items != [] { NewKey(items[..|items| - 1], key); }
  }

  function GoneKeys(profile: Profile, hits: seq<(string, seq<Example>)>, threshold: int): seq<string> {
    if hits == [] then []
    else
      var (key, examples) := hits[|hits| - 1];
      GoneKeys(profile, hits[..|hits| - 1], threshold)
      + if key in profile.glossary && CountOf(profile, key) + |examples| >= threshold then [key] else []
  }

  method ApplyFlags(profile: Profile, hits: seq<(string, seq<Example>)>, threshold: int, day: nat)
    returns (updated: Profile, removed: seq<string>)
    requires DistinctKeys(hits)
    ensures updated == Flagged(profile, ToMap(hits), threshold, day)
    ensures removed == GoneKeys(profile, hits, threshold)
    ensures forall key :: key in removed <==> key in profile.glossary && key !in updated.glossary
  {
    updated, removed := profile, [];
    var i := 0;
    NothingFlagged(profile, threshold, day);
    while i < |hits|
      invariant i <= |hits|
      invariant updated == Flagged(profile, ToMap(hits[..i]), threshold, day)
      invariant removed == GoneKeys(profile, hits[..i], threshold)
      invariant forall key :: key in removed <==> key in profile.glossary && key !in updated.glossary
    {
      var (key, examples) := hits[i];
      assert hits[..i + 1][..i] == hits[..i];
      NewKey(hits[..i], key);
      FlagOne(profile, ToMap(hits[..i]), key, examples, threshold, day);
      var out;
      updated, out := FlagEntry(updated, key, examples, threshold, day);
      if out { removed := removed + [key]; }
      i := i + 1;
    }
    assert hits[..i] == hits;
  }

  /** What the loop does with one key, given what the keys before it left. */
  function FlagStep(profile: Profile, key: string, examples: seq<Example>, threshold: int, day: nat): Profile {
    var total := CountOf(profile, key) + |examples|;
    if key !in profile.glossary then profile
    else if total >= threshold then
      Profile(profile.glossary - {key}, profile.flags - {key},
              profile.removed[key := Removal(profile.glossary[key], day, Evaluator(total))])
    else profile.(flags := profile.flags[key := Flag(total, day, LastExamples(ExamplesOf(profile, key) + examples))])
  }

  method FlagEntry(profile: Profile, key: string, examples: seq<Example>, threshold: int, day: nat)
    returns (updated: Profile, out: bool)
    ensures updated == FlagStep(profile, key, examples, threshold, day)
    ensures out <==> key in profile.glossary && CountOf(profile, key) + |examples| >= threshold
  {
    if key !in profile.glossary { return profile, false; }
    var entry := if key in profile.flags then profile.flags[key] else Flag(0, day, []);
    entry := Flag(entry.count + |examples|, day, LastExamples(entry.examples + examples));
    out := entry.count >= threshold;
    if out {
      var log := profile.removed[key := Removal(profile.glossary[key], day, Evaluator(entry.count))];
      var flags := profile.flags[key := entry];
      updated := Profile(profile.glossary - {key}, flags - {key}, log);
    } else {
      updated := profile.(flags := profile.flags[key := entry]);
    }
  }

  lemma NothingFlagged(profile: Profile, threshold: int, day: nat)
    ensures Flagged(profile, map[], threshold, day) == profile
  {
  }

  /** One more key of the night changes that key alone. */
  lemma FlagOne(profile: Profile, hits: Hits, key: string, examples: seq<Example>, threshold: int, day: nat)
    requires key !in hits
    ensures Flagged(profile, hits[key := examples], threshold, day)
         == FlagStep(Flagged(profile, hits, threshold, day), key, examples, threshold, day)
    ensures key in Flagged(profile, hits, threshold, day).glossary <==> key in profile.glossary
    ensures CountOf(Flagged(profile, hits, threshold, day), key) == CountOf(profile, key)
  {
    GlossaryOne(profile, hits, key, examples, threshold);
    FlagsOne(profile, hits, key, examples, threshold, day);
    RemovedOne(profile, hits, key, examples, threshold, day);
  }

  lemma OtherKeys(profile: Profile, hits: Hits, key: string, examples: seq<Example>, threshold: int, day: nat)
    ensures var more := hits[key := examples];
            forall k :: k != key ==>
              && (GoesOut(profile, more, threshold, k) <==> GoesOut(profile, hits, threshold, k))
              && (Hit(profile, more, k) <==> Hit(profile, hits, k))
              && (k in hits ==> NewFlag(profile, more, day, k) == NewFlag(profile, hits, day, k))
              && (k in hits && k in profile.glossary ==> NewRemoval(profile, more, day, k) == NewRemoval(profile, hits, day, k))
  {
  }

  lemma GlossaryOne(profile: Profile, hits: Hits, key: string, examples: seq<Example>, threshold: int)
    requires key !in hits
    ensures GlossaryAfter(profile, hits[key := examples], threshold)
         == if CountOf(profile, key) + |examples| >= threshold then GlossaryAfter(profile, hits, threshold) - {key}
            else GlossaryAfter(profile, hits, threshold)
  {
    OtherKeys(profile, hits, key, examples, threshold, 0);
  }

  lemma FlagsOne(profile: Profile, hits: Hits, key: string, examples: seq<Example>, threshold: int, day: nat)
    requires key !in hits
    ensures var was, now := FlagsAfter(profile, hits, threshold, day), FlagsAfter(profile, hits[key := examples], threshold, day);
            var total := CountOf(profile, key) + |examples|;
            if key !in profile.glossary then now == was
            else if total >= threshold then now == was - {key}
            else now == was[key := Flag(total, day, LastExamples(ExamplesOf(profile, key) + examples))]
  {
    var was, now := FlagsAfter(profile, hits, threshold, day), FlagsAfter(profile, hits[key := examples], threshold, day);
    forall k | k != key ensures (k in now <==> k in was) && (k in now ==> now[k] == was[k]) {
      FlagElsewhere(profile, hits, key, examples, threshold, day, k);
    }
    assert key in was <==> key in profile.flags;
    assert key in profile.glossary ==> (key in now <==> CountOf(profile, key) + |examples| < threshold);
  }

  lemma FlagElsewhere(profile: Profile, hits: Hits, key: string, examples: seq<Example>, threshold: int, day: nat, k: string)
    requires k != key
    ensures var was, now := FlagsAfter(profile, hits, threshold, day), FlagsAfter(profile, hits[key := examples], threshold, day);
            (k in now <==> k in was) && (k in now ==> now[k] == was[k])
  {
    OtherKeys(profile, hits, key, examples, threshold, day);
  }

  lemma RemovedOne(profile: Profile, hits: Hits, key: string, examples: seq<Example>, threshold: int, day: nat)
    requires key !in hits
    ensures var was, now := RemovedAfter(profile, hits, threshold, day), RemovedAfter(profile, hits[key := examples], threshold, day);
            var total := CountOf(profile, key) + |examples|;
            now == if key in profile.glossary && total >= threshold then was[key := Removal(profile.glossary[key], day, Evaluator(total))] else was
  {
    var more := hits[key := examples];
    var was, now := RemovedAfter(profile, hits, threshold, day), RemovedAfter(profile, more, threshold, day);
    forall k | k != key ensures (k in now <==> k in was) && (k in now ==> now[k] == was[k]) {
      RemovedElsewhere(profile, hits, key, examples, threshold, day, k);
    }
    assert key in was <==> key in profile.removed;
    assert GoesOut(profile, more, threshold, key) <==> key in profile.glossary && CountOf(profile, key) + |examples| >= threshold;
  }

  lemma RemovedElsewhere(profile: Profile, hits: Hits, key: string, examples: seq<Example>, threshold: int, day: nat, k: string)
    requires k != key
    ensures var was, now := RemovedAfter(profile, hits, threshold, day), RemovedAfter(profile, hits[key := examples], threshold, day);
            (k in now <==> k in was) && (k in now ==> now[k] == was[k])
  {
    OtherKeys(profile, hits, key, examples, threshold, day);
  }

  // What the builder brings.

  /** The builder's entries without those on the ban list. */
  function DropRemoved(delta: map<string, string>, profile: Profile): map<string, string> {
    map k | k in delta && k !in profile.removed :: delta[k]
  }

  function Merged(profile: Profile, delta: map<string, string>): Profile {
    profile.(glossary := profile.glossary + DropRemoved(delta, profile))
  }

  function RenderingOf(profile: Profile, key: string): string {
    if key in profile.glossary then profile.glossary[key] else ""
  }

  function Shortened(reason: string): string {
    var full := "validator: " + reason;
    if |full| > 200 then full[..200] else full
  }

  /** Validator rejections: out of the glossary and the flags, onto the ban list. */
  function Dropped(profile: Profile, dropped: map<string, string>, day: nat): Profile {
    Profile(
      profile.glossary - dropped.Keys,
      profile.flags - dropped.Keys,
      map k | k in profile.removed.Keys + dropped.Keys
        :: if k in dropped then Removal(RenderingOf(profile, k), day, Validator(Shortened(dropped[k]))) else profile.removed[k])
  }

  lemma DropOne(profile: Profile, dropped: map<string, string>, key: string, reason: string, day: nat)
    requires key !in dropped
    ensures var was := Dropped(profile, dropped, day);
            Dropped(profile, dropped[key := reason], day)
            == Profile(was.glossary - {key}, was.flags - {key},
                       was.removed[key := Removal(RenderingOf(was, key), day, Validator(Shortened(reason)))])
  {
    var was, now := Dropped(profile, dropped, day), Dropped(profile, dropped[key := reason], day);
    assert now.glossary == was.glossary - {key};
    assert now.flags == was.flags - {key};
    assert RenderingOf(was, key) == RenderingOf(profile, key);
  }

  method RecordDropped(profile: Profile, dropped: seq<(string, string)>, day: nat) returns (updated: Profile)
    requires DistinctKeys(dropped)
    ensures updated == Dropped(profile, ToMap(dropped), day)
  {
    updated := profile;
    var i := 0;
    while i < |dropped|
      invariant i <= |dropped|
      invariant updated == Dropped(profile, ToMap(dropped[..i]), day)
    {
      var (key, reason) := dropped[i];
      assert dropped[..i + 1][..i] == dropped[..i];
      NewKey(dropped[..i], key);
      DropOne(profile, ToMap(dropped[..i]), key, reason, day);
      var log := updated.removed[key := Removal(RenderingOf(updated, key), day, Validator(Shortened(reason)))];
      updated := Profile(updated.glossary - {key}, updated.flags - {key}, log);
      i := i + 1;
    }
    assert dropped[..i] == dropped;
  }

  // Runs.

  /** A night either feeds evaluations back or stores what the builder found, in any order and
      with any data. */
  datatype Step =
    | Feedback(hits: Hits)
    | Store(delta: map<string, string>, rejected: map<string, string>)

  datatype Run = Fresh | Then(before: Run, step: Step, day: nat)

  function After(run: Run, threshold: int): Profile {
    match run
    case Fresh => EMPTY
    case Then(before, Feedback(hits), day) => Flagged(After(before, threshold), hits, threshold, day)
    case Then(before, Store(delta, rejected), day) => Dropped(Merged(After(before, threshold), delta), rejected, day)
  }

  predicate Extends(later: Run, run: Run) {
    later == run || (later.Then? && Extends(later.before, run))
  }

  /** Hits on an entry, counted on the nights it was in the glossary. */
  function Accumulated(run: Run, threshold: int, key: string): nat {
    match run
    case Fresh => 0
    case Then(before, step, _) =>
      Accumulated(before, threshold, key)
      + if step.Feedback? && key in After(before, threshold).glossary then |HitsOn(step.hits, key)| else 0
  }

  /** No entry is both in use and banned; flags are only on entries in use, below the threshold. */
  lemma {:induction false} GlossaryAndBanListAreDisjoint(run: Run, threshold: int, key: string)
    ensures var profile := After(run, threshold);
            && !(key in profile.glossary && key in profile.removed)
            && (key in profile.flags ==> key in profile.glossary && profile.flags[key].count < threshold)
  {
    if run.Then? { GlossaryAndBanListAreDisjoint(run.before, threshold, key); }
  }

  /** Once out, never back: the ban list only grows, and what is on it never returns. */
  lemma {:induction false} RemovedStaysRemoved(run: Run, later: Run, threshold: int, key: string)
    requires Extends(later, run) && key in After(run, threshold).removed
    ensures key in After(later, threshold).removed && key !in After(later, threshold).glossary
  {
    GlossaryAndBanListAreDisjoint(later, threshold, key);
    if later != run { RemovedStaysRemoved(run, later.before, threshold, key); }
  }

  /** An entry in use has every hit it ever got on its flag; one whose hits reached the threshold is banned. */
  lemma {:induction false} FlagsAddUp(run: Run, threshold: int, key: string)
    ensures var profile, total := After(run, threshold), Accumulated(run, threshold, key);
            && (key in profile.glossary ==> CountOf(profile, key) == total && (total == 0 || total < threshold))
            && (key !in profile.glossary && key !in profile.removed ==> total == 0)
            && (total > 0 && total >= threshold ==> key in profile.removed)
  {
    if run.Then? {
      FlagsAddUp(run.before, threshold, key);
      GlossaryAndBanListAreDisjoint(run.before, threshold, key);
    }
  }

  /** The evaluator throws out an entry it hit exactly on the night its accumulated hits reach the
      threshold; it leaves every other entry alone. */
  lemma EvaluatorRemovesAtThreshold(before: Run, hits: Hits, day: nat, threshold: int, key: string)
    requires key in After(before, threshold).glossary
    ensures var run := Then(before, Feedback(hits), day);
            key !in After(run, threshold).glossary <==> key in hits && Accumulated(run, threshold, key) >= threshold
  {
    FlagsAddUp(before, threshold, key);
  }

  // What a night does to one entry.

  /** A night of feedback: an entry in use that was hit either stays, with tonight's hits counted and the
      last three examples kept, or goes out to the ban list with its rendering and its count, according
      to the threshold; everything else stays as it was. */
  lemma FeedbackOnAnEntry(before: Run, hits: Hits, day: nat, threshold: int, key: string)
    ensures var p, q := After(before, threshold), After(Then(before, Feedback(hits), day), threshold);
            if key in p.glossary && key in hits then
              var total := (if key in p.flags then p.flags[key].count else 0) + |hits[key]|;
              var seen := (if key in p.flags then p.flags[key].examples else []) + hits[key];
              if total >= threshold then
                key !in q.glossary && key !in q.flags && key in q.removed
                && q.removed[key] == Removal(p.glossary[key], day, Evaluator(total))
              else
                key in q.glossary && q.glossary[key] == p.glossary[key] && (key in q.removed <==> key in p.removed)
                && key in q.flags && q.flags[key].count == total && q.flags[key].last == day
                && q.flags[key].examples == if |seen| <= 3 then seen else seen[|seen| - 3..]
            else SameEntry(p, q, key)
  {
  }

  ghost predicate SameEntry(p: Profile, q: Profile, key: string) {
    && (key in q.glossary <==> key in p.glossary) && (key in p.glossary ==> q.glossary[key] == p.glossary[key])
    && (key in q.flags <==> key in p.flags) && (key in p.flags ==> q.flags[key] == p.flags[key])
    && (key in q.removed <==> key in p.removed) && (key in p.removed ==> q.removed[key] == p.removed[key])
  }

  /** What the builder brings is in use afterwards, in its rendering, unless the key is banned or the
      validator rejects it; what it does not bring stays.  What the validator rejects is banned with the
      rendering it had, and its flags go. */
  lemma StoreOnAnEntry(before: Run, delta: map<string, string>, rejected: map<string, string>, day: nat, threshold: int, key: string)
    ensures var p, q := After(before, threshold), After(Then(before, Store(delta, rejected), day), threshold);
            var brought := key in delta && key !in p.removed;
            && (key in q.glossary <==> key !in rejected && (brought || key in p.glossary))
            && (key in q.glossary ==> q.glossary[key] == if brought then delta[key] else p.glossary[key])
            && (key in q.flags <==> key !in rejected && key in p.flags)
            && (key in q.flags ==> q.flags[key] == p.flags[key])
            && (key in q.removed <==> key in rejected || key in p.removed)
            && (key in p.removed && key !in rejected ==> q.removed[key] == p.removed[key])
            && (key in rejected ==>
                  var full := "validator: " + rejected[key];
                  q.removed[key] == Removal(if brought then delta[key] else if key in p.glossary then p.glossary[key] else "", day,
                                            Validator(if |full| <= 200 then full else full[..200])))
  {
  }
}
