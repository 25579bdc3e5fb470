/** The service-wide glossary of names: three services write one table.  The nightly jobs read
    rows, ask a model, and write back later behind a guard; meanwhile an admin decides, pins or
    deletes.  Each job's unwritten answers are part of the state, so every interleaving is a run. */
module ServiceGlossary {
  import opened Wrappers
  import opened GlossaryStatus

  datatype Decider = Auto | Admin

  datatype Kind = Person | Place | Org | Other

  datatype Row = Row(
    source: string, language: string, kind: Kind,
    translation: Option<string>, status: Status, decidedBy: Option<Decider>,
    renderings: map<string, nat>, pairs: seq<nat>, alsoWord: Option<bool>)

  // Deciding.

  /** A resolver's answer; a missing translation is the empty string. */
  datatype Answer = Answer(isName: bool, translation: string, kind: Option<Kind>, confidence: real)

  function Decide(answer: Option<Answer>, renderings: set<string>, norm: string -> string, threshold: real): Status {
    if answer.None? then Candidate
    else
      var a := answer.value;
      var chats := set r | r in renderings :: norm(r);
      if !a.isName then (if a.confidence >= threshold then Rejected else Proposed)
      else if a.translation == "" then Proposed
      else if a.confidence >= threshold && |chats| == 1 && norm(a.translation) in chats then Verified
      else Proposed
  }

  /** Verified without an admin: a confident name, and the chats' guesses are one reading, the resolver's. */
  lemma VerifiedWhenUnanimous(answer: Option<Answer>, renderings: set<string>, norm: string -> string, threshold: real)
    ensures Decide(answer, renderings, norm, threshold) == Verified <==>
            && answer.Some? && answer.value.isName && answer.value.translation != "" && answer.value.confidence >= threshold
            && renderings != {} && forall r :: r in renderings ==> norm(r) == norm(answer.value.translation)
  {
    if answer.Some? {
      var chats, reading := set r | r in renderings :: norm(r), norm(answer.value.translation);
      if |chats| == 1 && reading in chats {
        var r :| r in renderings && norm(r) == reading;
        assert |chats - {reading}| == 0;
        forall q | q in renderings ensures norm(q) == reading { assert norm(q) in chats; }
      }
      if r :| r in renderings && forall q :: q in renderings ==> norm(q) == reading {
        assert norm(r) in chats;
        assert chats == {reading};
      }
    }
  }

  /** Without an answer the name stays a candidate, a confident no rejects it, and what is neither that
      nor unanimous goes to an admin. */
  lemma DecideOtherwise(answer: Option<Answer>, renderings: set<string>, norm: string -> string, threshold: real)
    ensures var status := Decide(answer, renderings, norm, threshold);
            && (status == Candidate <==> answer.None?)
            && (status == Rejected <==> answer.Some? && !answer.value.isName && answer.value.confidence >= threshold)
            && status != Locked
  {
  }

  datatype Ruling = One | Several | NotName | Unclear

  datatype Opinion = Opinion(ruling: Ruling, translation: string, confidence: real)

  /** Only a confident single reading is verified; no answer leaves the entry proposed. */
  function Arbitrated(opinion: Option<Opinion>, threshold: real): (Status, Option<string>) {
    match opinion
    case None => (Proposed, None)
    case Some(o) =>
      if o.ruling == One && o.translation != "" && o.confidence >= threshold then (Verified, Some(o.translation)) else (Rejected, None)
  }

  // The table and the jobs.

  datatype Update = Update(id: nat, translation: Option<string>, kind: Kind, status: Status)

  datatype State = State(rows: map<nat, Row>, next: nat, resolved: seq<Update>, arbitrating: seq<nat>, classified: seq<(nat, bool)>)

  const INITIAL := State(map[], 0, [], [], [])

  datatype Step =
    | Import(source: string, language: string, kind: Kind, renderings: map<string, nat>, pairs: seq<nat>)
    | Sighting(source: string, language: string, kind: Kind, rendering: string, pair: nat)
    | ResolverReads(answers: seq<(nat, Option<Answer>)>, norm: string -> string, threshold: real)
    | ResolverWrites
    | ArbiterReads(ids: seq<nat>)
    | ArbiterSettles(opinion: Option<Opinion>, threshold: real)
    | ClassifierReads(words: seq<(nat, bool)>)
    | ClassifierWrites
    | JobsDie
    | AdminDecides(id: nat, status: Status, translation: Option<string>)
    | AdminPins(source: string, language: string, rendering: string, kind: Kind)
    | AdminDeletes(id: nat)

  predicate ByAdmin(step: Step) {
    step.AdminDecides? || step.AdminPins? || step.AdminDeletes?
  }

  predicate Has(rows: map<nat, Row>, source: string, language: string) {
    exists id :: id in rows && rows[id].source == source && rows[id].language == language
  }

  /** What a step's reads guarantee of its data. */
  predicate Allowed(s: State, step: Step) {
    match step
    case ResolverReads(answers, _, _) => forall a :: a in answers ==> a.0 in s.rows && s.rows[a.0].status == Candidate
    case ArbiterReads(ids) =>
      forall id :: id in ids ==> id in s.rows && s.rows[id].status == Proposed && s.rows[id].decidedBy != Some(Admin)
    case ClassifierReads(answers) =>
      forall a :: a in answers ==>
        a.0 in s.rows && s.rows[a.0].alsoWord.None? && s.rows[a.0].translation.Some?
        && (s.rows[a.0].status.Verified? || s.rows[a.0].status.Proposed? || s.rows[a.0].status.Locked?)
    case AdminDecides(_, status, _) => status.Verified? || status.Rejected?
    case AdminPins(source, _, translation, _) => source != "" && translation != ""
    case _ => true
  }

  /** INSERT .. ON CONFLICT (source, target_language) DO UPDATE, the update being `change`. */
  function Upserted(s: State, inserted: Row, change: Row -> Row): State {
    if Has(s.rows, inserted.source, inserted.language) then
      s.(rows := map id | id in s.rows ::
        if s.rows[id].source == inserted.source && s.rows[id].language == inserted.language then change(s.rows[id]) else s.rows[id])
    else s.(rows := s.rows[s.next := inserted], next := s.next + 1)
  }

  function Imported(row: Row, kind: Kind, renderings: map<string, nat>, pairs: seq<nat>): Row {
    if row.renderings == renderings && row.pairs == pairs then row
    else row.(renderings := renderings, pairs := pairs, kind := if row.status == Candidate then kind else row.kind)
  }

  function Sighted(row: Row, rendering: string, pair: nat): Row {
    if pair in row.pairs then row
    else
      row.(renderings := row.renderings[rendering := 1 + if rendering in row.renderings then row.renderings[rendering] else 0],
           pairs := row.pairs + [pair])
  }

  function Pinned(row: Row, translation: string, kind: Kind): Row {
    row.(translation := Some(translation), kind := kind, status := Locked, decidedBy := Some(Admin))
  }

  function UpdateOf(rows: map<nat, Row>, id: nat, answer: Option<Answer>, norm: string -> string, threshold: real): seq<Update>
    requires id in rows
  {
    var status := Decide(answer, rows[id].renderings.Keys, norm, threshold);
    if status == Candidate then []
    else
      var a := answer.value;
      var kind := if rows[id].kind != Person && a.kind.Some? then a.kind.value else rows[id].kind;
      [Update(id, if a.translation == "" then None else Some(a.translation), kind, status)]
  }

  function UpdatesOf(rows: map<nat, Row>, answers: seq<(nat, Option<Answer>)>, norm: string -> string, threshold: real): seq<Update>
    requires forall a :: a in answers ==> a.0 in rows
  {
    if answers == [] then []
    else
      assert answers[0] in answers;
      UpdateOf(rows, answers[0].0, answers[0].1, norm, threshold) + UpdatesOf(rows, answers[1..], norm, threshold)
  }

  /** WHERE status = 'candidate' */
  function Resolved(rows: map<nat, Row>, u: Update): map<nat, Row> {
    if u.id !in rows || rows[u.id].status != Candidate then rows
    else
      rows[u.id := rows[u.id].(
        translation := u.translation, kind := u.kind, status := u.status,
        decidedBy := if u.status.Verified? || u.status.Rejected? then Some(Auto) else None)]
  }

  /** WHERE status = 'proposed' AND decided_by IS DISTINCT FROM 'admin' */
  function Settled(rows: map<nat, Row>, id: nat, status: Status, translation: Option<string>): map<nat, Row> {
    if id !in rows || rows[id].status != Proposed || rows[id].decidedBy == Some(Admin) then rows
    else
      rows[id := rows[id].(
        status := status, translation := if translation.Some? then translation else rows[id].translation, decidedBy := Some(Auto))]
  }

  /** WHERE status = 'proposed' */
  function Decided(rows: map<nat, Row>, id: nat, status: Status, translation: Option<string>): map<nat, Row> {
    if id !in rows || rows[id].status != Proposed then rows
    else
      rows[id := rows[id].(
        status := status, translation := if translation.Some? then translation else rows[id].translation, decidedBy := Some(Admin))]
  }

  function Next(s: State, step: Step): State
    requires Allowed(s, step)
  {
    match step
    case Import(source, language, kind, renderings, pairs) =>
      Upserted(s, Row(source, language, kind, None, Candidate, None, renderings, pairs, None),
               row => Imported(row, kind, renderings, pairs))
    case Sighting(source, language, kind, rendering, pair) =>
      Upserted(s, Row(source, language, kind, None, Candidate, None, map[rendering := 1], [pair], None),
               row => Sighted(row, rendering, pair))
    case ResolverReads(answers, norm, threshold) => s.(resolved := UpdatesOf(s.rows, answers, norm, threshold))
    case ResolverWrites =>
      if s.resolved == [] then s else s.(rows := Resolved(s.rows, s.resolved[0]), resolved := s.resolved[1..])
    case ArbiterReads(ids) => s.(arbitrating := ids)
    case ArbiterSettles(opinion, threshold) =>
      if s.arbitrating == [] then s
      else
        var (status, translation) := Arbitrated(opinion, threshold);
        var rows := if status == Proposed then s.rows else Settled(s.rows, s.arbitrating[0], status, translation);
        s.(rows := rows, arbitrating := s.arbitrating[1..])
    case ClassifierReads(answers) => s.(classified := answers)
    case ClassifierWrites =>
      if s.classified == [] then s
      else
        var (id, word) := s.classified[0];
        var rows := if id in s.rows then s.rows[id := s.rows[id].(alsoWord := Some(word))] else s.rows;
        s.(rows := rows, classified := s.classified[1..])
    case JobsDie => s.(resolved := [], arbitrating := [], classified := [])
    case AdminDecides(id, status, translation) => s.(rows := Decided(s.rows, id, status, translation))
    case AdminPins(source, language, translation, kind) =>
      Upserted(s, Row(source, language, kind, Some(translation), Locked, Some(Admin), map[], [], None),
               row => Pinned(row, translation, kind))
    case AdminDeletes(id) => s.(rows := map i | i in s.rows && i != id :: s.rows[i])
  }

  datatype Run = Fresh | Then(before: Run, step: Step)

  predicate Legal(run: Run)
    decreases run, 0
  {
    run.Then? ==> Legal(run.before) && Allowed(After(run.before), run.step)
  }

  function After(run: Run): State
    requires Legal(run)
    decreases run, 1
  {
    match run
    case Fresh => INITIAL
    case Then(before, step) => Next(After(before), step)
  }

  // What every step keeps.

  /** A decision and its author come together, and only an admin pins. */
  predicate Authored(row: Row) {
    && (row.decidedBy.Some? <==> row.status.Verified? || row.status.Rejected? || row.status.Locked?)
    && (row.status.Locked? ==> row.decidedBy == Some(Admin) && row.translation.Some?)
  }

  /** A reading the jobs verified has a rendering. */
  predicate Rendered(row: Row) {
    row.status.Verified? && row.decidedBy == Some(Auto) ==> row.translation.Some?
  }

  predicate SoundUpdate(u: Update) {
    (u.status.Proposed? || u.status.Verified? || u.status.Rejected?) && (u.status.Verified? ==> u.translation.Some?)
  }

  predicate Sound(s: State) {
    && (forall id :: id in s.rows ==> id < s.next && Authored(s.rows[id]) && Rendered(s.rows[id]))
    && (forall u :: u in s.resolved ==> SoundUpdate(u))
  }

  lemma {:induction false} UpdatesAreSound(rows: map<nat, Row>, answers: seq<(nat, Option<Answer>)>, norm: string -> string, threshold: real)
    requires forall a :: a in answers ==> a.0 in rows
    ensures forall u :: u in UpdatesOf(rows, answers, norm, threshold) ==> SoundUpdate(u)
  {
    if answers != [] {
      assert answers[0] in answers;
      UpdatesAreSound(rows, answers[1..], norm, threshold);
    }
  }

  lemma StepIsSound(s: State, step: Step)
    requires Sound(s) && Allowed(s, step)
    ensures Sound(Next(s, step))
  {
    if step.ResolverReads? {
      UpdatesAreSound(s.rows, step.answers, step.norm, step.threshold);
    } else if step.Import? || step.Sighting? || step.AdminPins? {
      UpsertIsSound(s, step);
    } else if step.ResolverWrites? && s.resolved != [] {
      assert s.resolved[0] in s.resolved;
    }
  }

  lemma UpsertIsSound(s: State, step: Step)
    requires (step.Import? || step.Sighting? || step.AdminPins?) && Sound(s) && Allowed(s, step)
    ensures Sound(Next(s, step))
  {
  }

  lemma {:induction false} AlwaysSound(run: Run)
    requires Legal(run)
    ensures Sound(After(run))
  {
    if run.Then? {
      AlwaysSound(run.before);
      StepIsSound(After(run.before), run.step);
    }
  }

  // Main results.

  function Rank(status: Status): nat {
    match status
    case Candidate => 0
    case Proposed => 1
    case Verified => 2
    case Rejected => 2
    case Locked => 3
  }

  ghost predicate Extends(later: Run, run: Run) {
    later == run || (later.Then? && Extends(later.before, run))
  }

  /** `later` after `run`, with no step of an admin's in between. */
  ghost predicate Unattended(later: Run, run: Run) {
    later == run || (later.Then? && !ByAdmin(later.step) && Unattended(later.before, run))
  }

  lemma StepKeepsRank(s: State, step: Step, id: nat)
    requires Sound(s) && Allowed(s, step) && id in s.rows
    ensures var rows := Next(s, step).rows;
            && (id in rows || step == AdminDeletes(id))
            && (id in rows ==>
                  && rows[id].source == s.rows[id].source && rows[id].language == s.rows[id].language
                  && Rank(s.rows[id].status) <= Rank(rows[id].status)
                  && (Rank(s.rows[id].status) == Rank(rows[id].status) ==> s.rows[id].status == rows[id].status)
                  && (s.rows[id].decidedBy.Some? && !step.AdminPins? ==>
                        rows[id].status == s.rows[id].status && rows[id].translation == s.rows[id].translation
                        && rows[id].decidedBy == s.rows[id].decidedBy))
  {
    if step.ResolverWrites? && s.resolved != [] { assert s.resolved[0] in s.resolved; }
  }

  /** Whoever acts, a row's status never falls back, and verified never turns into rejected or the reverse. */
  lemma {:induction false} StatusNeverFallsBack(run: Run, later: Run, id: nat)
    requires Legal(later) && Extends(later, run) && Legal(run)
    requires id in After(run).rows && id in After(later).rows
    ensures var was, now := After(run).rows[id].status, After(later).rows[id].status;
            Rank(was) <= Rank(now) && (Rank(was) == Rank(now) ==> was == now)
  {
    if later != run {
      var before := later.before;
      AlwaysSound(before);
      Present(run, before, id);
      NewIdsAreFresh(After(before), later.step, id);
      StatusNeverFallsBack(run, before, id);
      StepKeepsRank(After(before), later.step, id);
    }
  }

  lemma NewIdsAreFresh(s: State, step: Step, id: nat)
    requires Allowed(s, step) && id < s.next && id in Next(s, step).rows
    ensures id in s.rows
  {
  }

  /** An id once used is not given out again. */
  lemma {:induction false} Present(run: Run, before: Run, id: nat)
    requires Legal(before) && Extends(before, run) && Legal(run)
    requires id in After(run).rows
    ensures id < After(before).next
  {
    if before == run {
      AlwaysSound(run);
    } else {
      Present(run, before.before, id);
      IdsGrow(After(before.before), before.step);
    }
  }

  lemma IdsGrow(s: State, step: Step)
    requires Allowed(s, step)
    ensures s.next <= Next(s, step).next
  {
  }

  /** The classifier's answer for the row is written by this step, and differs from what it has. */
  predicate RewritesWord(s: State, step: Step, id: nat) {
    id in s.rows && step.ClassifierWrites? && s.classified != [] && s.classified[0].0 == id
    && s.rows[id].alsoWord != Some(s.classified[0].1)
  }

  /** An import brings other sightings of the row's name than it has, or a sighting a new chat. */
  predicate RewritesSightings(s: State, step: Step, id: nat) {
    id in s.rows
    && match step
       case Import(source, language, _, renderings, pairs) =>
         (source, language) == (s.rows[id].source, s.rows[id].language) && (renderings, pairs) != (s.rows[id].renderings, s.rows[id].pairs)
       case Sighting(source, language, _, _, pair) =>
         (source, language) == (s.rows[id].source, s.rows[id].language) && pair !in s.rows[id].pairs
       case _ => false
  }

  /** What the jobs may change in a decided row, locked ones included: the also-a-word mark and the
      record of where the name was seen, each by one kind of step, and nothing else. */
  lemma JobsOnADecidedRow(run: Run, step: Step, id: nat)
    requires Legal(Then(run, step)) && !ByAdmin(step) && id in After(run).rows && After(run).rows[id].decidedBy.Some?
    ensures id in After(Then(run, step)).rows
    ensures var was, now := After(run).rows[id], After(Then(run, step)).rows[id];
            && now == was.(alsoWord := now.alsoWord, renderings := now.renderings, pairs := now.pairs)
            && (now.alsoWord != was.alsoWord <==> RewritesWord(After(run), step, id))
            && ((now.renderings, now.pairs) != (was.renderings, was.pairs) <==> RewritesSightings(After(run), step, id))
  {
    AlwaysSound(run);
    var s := After(run);
    if step.Import? || step.Sighting? {
      SeenDecidedRow(s, step, id);
    } else if step.ResolverWrites? && s.resolved != [] {
      assert s.resolved[0] in s.resolved;
    }
  }

  lemma SeenDecidedRow(s: State, step: Step, id: nat)
    requires (step.Import? || step.Sighting?) && Allowed(s, step)
    requires id in s.rows && id < s.next && Authored(s.rows[id]) && s.rows[id].decidedBy.Some?
    ensures id in Next(s, step).rows
    ensures var was, now := s.rows[id], Next(s, step).rows[id];
            && now == was.(renderings := now.renderings, pairs := now.pairs)
            && ((now.renderings, now.pairs) != (was.renderings, was.pairs) <==> RewritesSightings(s, step, id))
  {
    var was, now := s.rows[id], Next(s, step).rows[id];
    match step
    case Import(source, language, kind, renderings, pairs) =>
      assert now == if (source, language) == (was.source, was.language) then Imported(was, kind, renderings, pairs) else was;
    case Sighting(source, language, _, rendering, pair) =>
      assert now == if (source, language) == (was.source, was.language) then Sighted(was, rendering, pair) else was;
  }

  /** ... and they do change them: a hand-pinned row gets its also-a-word mark from the classifier
      and a chat from the nightly extraction. */
  lemma PinnedRowIsRewritten() returns (run: Run, word: Step, seen: Step)
    ensures Legal(run) && Legal(Then(run, word)) && Legal(Then(Then(run, word), seen)) && !ByAdmin(word) && !ByAdmin(seen)
    ensures 0 in After(run).rows && After(run).rows[0].status == Locked
    ensures RewritesWord(After(run), word, 0) && RewritesSightings(After(Then(run, word)), seen, 0)
  {
    var pin := AdminPins("name", "Russian", "rendering", Other);
    var read := ClassifierReads([(0, true)]);
    word, seen := ClassifierWrites, Sighting("name", "Russian", Other, "guess", 7);
    run := Then(Then(Fresh, pin), read);
    assert After(Then(Fresh, pin)).rows == map[0 := Row("name", "Russian", Other, Some("rendering"), Locked, Some(Admin), map[], [], None)];
  }

  /** No interleaving of the nightly jobs changes what an admin decided; nor do they change one
      another's decisions. */
  lemma {:induction false} DecisionsAreFinal(run: Run, later: Run, id: nat)
    requires Legal(later) && Unattended(later, run) && Legal(run)
    requires id in After(run).rows && After(run).rows[id].decidedBy.Some?
    ensures id in After(later).rows
    ensures var was, now := After(run).rows[id], After(later).rows[id];
            now == was.(alsoWord := now.alsoWord, renderings := now.renderings, pairs := now.pairs)
  {
    if later != run {
      DecisionsAreFinal(run, later.before, id);
      JobsOnADecidedRow(later.before, later.step, id);
    }
  }

  // Grounds.

  /** The resolver read, for row `id`, an answer its rule verifies. */
  ghost predicate ResolverGave(run: Run, id: nat, rendering: string)
    requires Legal(run)
  {
    run.Then?
    && ((run.step.ResolverReads? && exists a :: a in run.step.answers && a.0 == id && ReadingFor(run, a.1, id, rendering))
        || ResolverGave(run.before, id, rendering))
  }

  /** A confident name, rendered so, and every guess of the chats at that time is the same reading. */
  ghost predicate ReadingFor(run: Run, answer: Option<Answer>, id: nat, rendering: string)
    requires run.Then? && Legal(run) && run.step.ResolverReads?
  {
    && answer.Some? && answer.value.isName && answer.value.translation == rendering && answer.value.confidence >= run.step.threshold
    && id in After(run.before).rows && After(run.before).rows[id].renderings != map[]
    && forall r :: r in After(run.before).rows[id].renderings ==> run.step.norm(r) == run.step.norm(rendering)
  }

  /** The arbiter, at row `id`, had a confident single reading. */
  ghost predicate ArbiterGave(run: Run, id: nat, rendering: string)
    requires Legal(run)
  {
    run.Then?
    && ((run.step.ArbiterSettles? && After(run.before).arbitrating != [] && After(run.before).arbitrating[0] == id
         && run.step.opinion.Some? && run.step.opinion.value.ruling == One && run.step.opinion.value.translation == rendering
         && run.step.opinion.value.confidence >= run.step.threshold)
        || ArbiterGave(run.before, id, rendering))
  }

  ghost predicate UpdateGrounded(run: Run, u: Update)
    requires Legal(run)
  {
    u.status == Verified ==> u.translation.Some? && ResolverGave(run, u.id, u.translation.value)
  }

  ghost predicate RowGrounded(run: Run, id: nat, row: Row)
    requires Legal(run)
  {
    row.status == Verified && row.decidedBy == Some(Auto) ==>
      row.translation.Some? && (ResolverGave(run, id, row.translation.value) || ArbiterGave(run, id, row.translation.value))
  }

  lemma {:induction false} UpdatesGrounded(run: Run, rows: map<nat, Row>, answers: seq<(nat, Option<Answer>)>)
    requires run.Then? && Legal(run) && run.step.ResolverReads? && rows == After(run.before).rows
    requires forall a :: a in answers ==> a in run.step.answers && a.0 in rows
    ensures forall u :: u in UpdatesOf(rows, answers, run.step.norm, run.step.threshold) ==> UpdateGrounded(run, u)
  {
    if answers != [] {
      UpdatesGrounded(run, rows, answers[1..]);
      var (id, answer) := answers[0];
      assert answers[0] in answers;
      VerifiedWhenUnanimous(answer, rows[id].renderings.Keys, run.step.norm, run.step.threshold);
      if Decide(answer, rows[id].renderings.Keys, run.step.norm, run.step.threshold) == Verified {
        var r :| r in rows[id].renderings.Keys;
        assert ReadingFor(run, answer, id, answer.value.translation);
      }
    }
  }

  lemma {:induction false} AllGrounded(run: Run)
    requires Legal(run)
    ensures forall u :: u in After(run).resolved ==> UpdateGrounded(run, u)
    ensures forall id :: id in After(run).rows ==> RowGrounded(run, id, After(run).rows[id])
  {
    if run.Then? {
      AllGrounded(run.before);
      AlwaysSound(run.before);
      var s, s' := After(run.before), After(run);
      forall u | u in s'.resolved ensures UpdateGrounded(run, u) {
        if run.step.ResolverReads? { UpdatesGrounded(run, s.rows, run.step.answers); } else { assert UpdateGrounded(run.before, u); }
      }
      forall id | id in s'.rows ensures RowGrounded(run, id, s'.rows[id]) {
        StepGrounded(run, id);
      }
    }
  }

  lemma StepGrounded(run: Run, id: nat)
    requires run.Then? && Legal(run) && Sound(After(run.before)) && id in After(run).rows
    requires forall u :: u in After(run.before).resolved ==> UpdateGrounded(run.before, u)
    requires id in After(run.before).rows ==> RowGrounded(run.before, id, After(run.before).rows[id])
    ensures RowGrounded(run, id, After(run).rows[id])
  {
    var s := After(run.before);
    if id in s.rows {
      if run.step.ResolverWrites? || run.step.ArbiterSettles? { WriterGrounded(run, id); } else { NoVerdict(s, run.step, id); }
    } else {
      NewRowUnverified(s, run.step, id);
    }
  }

  predicate ByJobs(row: Row) {
    row.status == Verified && row.decidedBy == Some(Auto)
  }

  /** Only the resolver and the arbiter verify for the jobs. */
  lemma NoVerdict(s: State, step: Step, id: nat)
    requires Allowed(s, step) && !step.ResolverWrites? && !step.ArbiterSettles? && id in s.rows && id in Next(s, step).rows
    ensures ByJobs(Next(s, step).rows[id]) ==> ByJobs(s.rows[id]) && Next(s, step).rows[id].translation == s.rows[id].translation
  {
  }

  lemma NewRowUnverified(s: State, step: Step, id: nat)
    requires Allowed(s, step) && id !in s.rows && id in Next(s, step).rows
    ensures !ByJobs(Next(s, step).rows[id])
  {
  }

  lemma WriterGrounded(run: Run, id: nat)
    requires run.Then? && Legal(run) && (run.step.ResolverWrites? || run.step.ArbiterSettles?)
    requires id in After(run.before).rows && id in After(run).rows
    requires forall u :: u in After(run.before).resolved ==> UpdateGrounded(run.before, u)
    requires RowGrounded(run.before, id, After(run.before).rows[id])
    ensures RowGrounded(run, id, After(run).rows[id])
  {
    var s := After(run.before);
    if run.step.ResolverWrites? && s.resolved != [] { assert UpdateGrounded(run.before, s.resolved[0]); }
  }

  /** A row the jobs verified has, in every run, the rendering of a confident answer: one the resolver
      read while all the chats' guesses were that reading, or a single reading of the arbiter's. */
  lemma JobVerdictsHaveGrounds(run: Run, id: nat)
    requires Legal(run) && id in After(run).rows
    requires After(run).rows[id].status == Verified && After(run).rows[id].decidedBy == Some(Auto)
    ensures var rendering := After(run).rows[id].translation;
            rendering.Some? && (ResolverGave(run, id, rendering.value) || ArbiterGave(run, id, rendering.value))
  {
    AllGrounded(run);
  }

  /** The arbiter's test for an admin's decision never decides anything: no proposed row has one. */
  lemma ProposedHasNoAuthor(run: Run, id: nat)
    requires Legal(run) && id in After(run).rows && After(run).rows[id].status == Proposed
    ensures After(run).rows[id].decidedBy.None?
  {
    AlwaysSound(run);
  }

  /** One row a name and language. */
  lemma {:induction false} NamesAreUnique(run: Run, a: nat, b: nat)
    requires Legal(run) && a in After(run).rows && b in After(run).rows
    requires After(run).rows[a].source == After(run).rows[b].source && After(run).rows[a].language == After(run).rows[b].language
    ensures a == b
  {
    var before, step := run.before, run.step;
    var s := After(before);
    AlwaysSound(before);
    if a in s.rows && b in s.rows {
      StepKeepsRank(s, step, a);
      StepKeepsRank(s, step, b);
      NamesAreUnique(before, a, b);
    } else if a in s.rows {
      StepKeepsRank(s, step, a);
    } else if b in s.rows {
      StepKeepsRank(s, step, b);
    }
  }

  /** In use: the processor loads verified and locked rows. */
  predicate InUse(row: Row) {
    row.status.Verified? || row.status.Locked?
  }

  /** A row comes into use without a rendering exactly when an admin accepts, without giving one,
      a proposed row that has none. */
  lemma BlankRowsComeFromAcceptingBlanks(run: Run, step: Step, id: nat)
    requires Legal(Then(run, step)) && id in After(run).rows && id in After(Then(run, step)).rows
    requires !(InUse(After(run).rows[id]) && After(run).rows[id].translation.None?)
    ensures var was, now := After(run).rows[id], After(Then(run, step)).rows[id];
            InUse(now) && now.translation.None? <==>
            step == AdminDecides(id, Verified, None) && was.status == Proposed && was.translation.None?
  {
    AlwaysSound(run);
    AlwaysSound(Then(run, step));
    StepKeepsRank(After(run), step, id);
    var s := After(run);
    if step.ResolverWrites? && s.resolved != [] { assert s.resolved[0] in s.resolved; }
  }

  /** The arbiter acts on the entry it is at, while that is proposed: a confident single reading is
      verified with that rendering, any other answer rejects it and leaves the rendering it had. */
  lemma ArbiterSettlesItsEntry(run: Run, opinion: Option<Opinion>, threshold: real, id: nat)
    requires Legal(run) && id in After(run).rows
    ensures var s, was := After(run), After(run).rows[id];
            var now := Next(s, ArbiterSettles(opinion, threshold)).rows[id];
            var sure := opinion.Some? && opinion.value.ruling == One && opinion.value.translation != "" && opinion.value.confidence >= threshold;
            var atIt := s.arbitrating != [] && s.arbitrating[0] == id && was.status == Proposed && opinion.Some?;
            && (atIt && sure ==> now == was.(status := Verified, translation := Some(opinion.value.translation), decidedBy := Some(Auto)))
            && (atIt && !sure ==> now == was.(status := Rejected, decidedBy := Some(Auto)))
            && (!atIt ==> now == was)
  {
    AlwaysSound(run);
  }

  /** ... and one is reached: a name the resolver could not write, accepted as proposed. */
  lemma BlankRowIsReached() returns (run: Run, accept: Step)
    ensures Legal(run) && Legal(Then(run, accept)) && 0 in After(run).rows && 0 in After(Then(run, accept)).rows
    ensures accept == AdminDecides(0, Verified, None) && After(run).rows[0].status == Proposed
    ensures InUse(After(Then(run, accept)).rows[0]) && After(Then(run, accept)).rows[0].translation.None?
  {
    var seen := Then(Fresh, Sighting("name", "Russian", Other, "guess", 7));
    var answer := Answer(true, "", None, 0.9);
    var norm := (text: string) => text;
    var answers := [(0, Some(answer))];
    var read := Then(seen, ResolverReads(answers, norm, 0.8));
    var rows := After(seen).rows;
    assert rows == map[0 := Row("name", "Russian", Other, None, Candidate, None, map["guess" := 1], [7], None)];
    assert Decide(Some(answer), rows[0].renderings.Keys, norm, 0.8) == Proposed;
    assert answers[1..] == [];
    assert UpdatesOf(rows, answers, norm, 0.8) == [Update(0, None, Other, Proposed)] + UpdatesOf(rows, [], norm, 0.8);
    assert Legal(read) && After(read).resolved == [Update(0, None, Other, Proposed)];
    run, accept := Then(read, ResolverWrites), AdminDecides(0, Verified, None);
  }

  // What each step does to the table.

  /** Row `id` is `was` made into `now`, and nothing else of the table or of the jobs' work changed. */
  ghost predicate OnlyRow(s: State, s': State, id: nat, now: Row) {
    s' == s.(rows := s.rows[id := now])
  }

  ghost predicate IsNamed(row: Row, source: string, language: string) {
    row.source == source && row.language == language
  }

  /** An admin's decision on a proposed row stands as given: that status, that author, the rendering given
      with it or, when none is, the one proposed; on any other row it changes nothing. */
  lemma AdminDecisionStands(run: Run, id: nat, status: Status, translation: Option<string>)
    requires Legal(Then(run, AdminDecides(id, status, translation)))
    ensures var s, s' := After(run), After(Then(run, AdminDecides(id, status, translation)));
            if id in s.rows && s.rows[id].status == Proposed then
              var was := s.rows[id];
              OnlyRow(s, s', id, Row(was.source, was.language, was.kind, if translation.Some? then translation else was.translation,
                                     status, Some(Admin), was.renderings, was.pairs, was.alsoWord))
            else s' == s
  {
  }

  /** A pin stands as given too: the row of that name, or a new one, has the rendering and the kind given
      and is locked by an admin; where the name was seen and its mark stay, and so does every other row. */
  lemma AdminPinStands(run: Run, source: string, language: string, rendering: string, kind: Kind, id: nat)
    requires Legal(Then(run, AdminPins(source, language, rendering, kind)))
    ensures var s, s' := After(run), After(Then(run, AdminPins(source, language, rendering, kind)));
            && (id in s.rows && IsNamed(s.rows[id], source, language) ==>
                  OnlyRow(s, s', id, Row(source, language, kind, Some(rendering), Locked, Some(Admin),
                                         s.rows[id].renderings, s.rows[id].pairs, s.rows[id].alsoWord)))
            && ((forall i :: i in s.rows ==> !IsNamed(s.rows[i], source, language)) ==>
                  s' == s.(rows := s.rows[s.next := Row(source, language, kind, Some(rendering), Locked, Some(Admin), map[], [], None)],
                           next := s.next + 1))
  {
    var s, s' := After(run), After(Then(run, AdminPins(source, language, rendering, kind)));
    if id in s.rows && IsNamed(s.rows[id], source, language) {
      OnlyTheNamed(run, source, language, id);
      assert s'.rows == s.rows[id := Pinned(s.rows[id], rendering, kind)];
    }
  }

  lemma OnlyTheNamed(run: Run, source: string, language: string, id: nat)
    requires Legal(run) && id in After(run).rows && IsNamed(After(run).rows[id], source, language)
    ensures forall i :: i in After(run).rows && IsNamed(After(run).rows[i], source, language) ==> i == id
  {
    forall i | i in After(run).rows && IsNamed(After(run).rows[i], source, language) ensures i == id {
      NamesAreUnique(run, i, id);
    }
  }

  /** A deletion takes its row and no other. */
  lemma AdminDeletionIsOfOne(run: Run, id: nat, other: nat)
    requires Legal(Then(run, AdminDeletes(id)))
    ensures var rows, rows' := After(run).rows, After(Then(run, AdminDeletes(id))).rows;
            && (other in rows' <==> other in rows && other != id)
            && (other in rows' ==> rows'[other] == rows[other])
  {
    var s, s' := After(run), After(Then(run, AdminDeletes(id)));
    assert s'.rows == map i | i in s.rows && i != id :: s.rows[i];
  }

  /** The nightly import brings the sightings of a name up to date, and the kind too while it is a
      candidate; a new name is a candidate without rendering or author. */
  lemma ImportBringsSightings(run: Run, source: string, language: string, kind: Kind, renderings: map<string, nat>, pairs: seq<nat>, id: nat)
    requires Legal(Then(run, Import(source, language, kind, renderings, pairs)))
    ensures var s, s' := After(run), After(Then(run, Import(source, language, kind, renderings, pairs)));
            && (id in s.rows && IsNamed(s.rows[id], source, language) ==>
                  var was := s.rows[id];
                  var seen := was.renderings == renderings && was.pairs == pairs;
                  OnlyRow(s, s', id, Row(source, language, if was.status == Candidate && !seen then kind else was.kind,
                                         was.translation, was.status, was.decidedBy, renderings, pairs, was.alsoWord)))
            && ((forall i :: i in s.rows ==> !IsNamed(s.rows[i], source, language)) ==>
                  s' == s.(rows := s.rows[s.next := Row(source, language, kind, None, Candidate, None, renderings, pairs, None)],
                           next := s.next + 1))
  {
    var s, s' := After(run), After(Then(run, Import(source, language, kind, renderings, pairs)));
    if id in s.rows && IsNamed(s.rows[id], source, language) {
      OnlyTheNamed(run, source, language, id);
      assert s'.rows == s.rows[id := Imported(s.rows[id], kind, renderings, pairs)];
    }
  }

  /** A name seen in a chat it was not yet seen in gets the chat, and one more of that rendering; in a chat
      it was seen in before nothing changes; a new name is a candidate seen once. */
  lemma SightingAddsTheChat(run: Run, source: string, language: string, kind: Kind, rendering: string, pair: nat, id: nat)
    requires Legal(Then(run, Sighting(source, language, kind, rendering, pair)))
    ensures var s, s' := After(run), After(Then(run, Sighting(source, language, kind, rendering, pair)));
            && (id in s.rows && IsNamed(s.rows[id], source, language) && pair in s.rows[id].pairs ==> s' == s)
            && (id in s.rows && IsNamed(s.rows[id], source, language) && pair !in s.rows[id].pairs ==>
                  var was := s.rows[id];
                  var count := if rendering in was.renderings then was.renderings[rendering] else 0;
                  OnlyRow(s, s', id, was.(renderings := was.renderings[rendering := count + 1], pairs := was.pairs + [pair])))
            && ((forall i :: i in s.rows ==> !IsNamed(s.rows[i], source, language)) ==>
                  s' == s.(rows := s.rows[s.next := Row(source, language, kind, None, Candidate, None, map[rendering := 1], [pair], None)],
                           next := s.next + 1))
  {
    var s, s' := After(run), After(Then(run, Sighting(source, language, kind, rendering, pair)));
    if id in s.rows && IsNamed(s.rows[id], source, language) {
      OnlyTheNamed(run, source, language, id);
      SightedRow(s, source, language, kind, rendering, pair, id);
      assert pair in s.rows[id].pairs ==> s.rows[id := s.rows[id]] == s.rows;
    } else if forall i :: i in s.rows ==> !IsNamed(s.rows[i], source, language) {
      SightedFirst(s, source, language, kind, rendering, pair);
    }
  }

  lemma SightedFirst(s: State, source: string, language: string, kind: Kind, rendering: string, pair: nat)
    requires forall i :: i in s.rows ==> !IsNamed(s.rows[i], source, language)
    ensures Next(s, Sighting(source, language, kind, rendering, pair))
         == s.(rows := s.rows[s.next := Row(source, language, kind, None, Candidate, None, map[rendering := 1], [pair], None)], next := s.next + 1)
  {
  }

  lemma SightedRow(s: State, source: string, language: string, kind: Kind, rendering: string, pair: nat, id: nat)
    requires id in s.rows && IsNamed(s.rows[id], source, language)
    requires forall i :: i in s.rows && IsNamed(s.rows[i], source, language) ==> i == id
    ensures Next(s, Sighting(source, language, kind, rendering, pair)) == s.(rows := s.rows[id := Sighted(s.rows[id], rendering, pair)])
  {
    assert Next(s, Sighting(source, language, kind, rendering, pair)).rows == s.rows[id := Sighted(s.rows[id], rendering, pair)];
  }

  /** What the resolver means to write of an answer: its rendering if it has one, its kind unless the name
      is a person's, and the status its rule gives. */
  predicate WritesAnswer(row: Row, a: Answer, u: Update, norm: string -> string, threshold: real) {
    && u.translation == (if a.translation == "" then None else Some(a.translation))
    && u.kind == (if row.kind != Person && a.kind.Some? then a.kind.value else row.kind)
    && u.status == Decide(Some(a), row.renderings.Keys, norm, threshold)
  }

  /** One update for each answer there is, none without. */
  lemma {:induction false} UpdatesAreAnswers(
    rows: map<nat, Row>, answers: seq<(nat, Option<Answer>)>, norm: string -> string, threshold: real, u: Update)
    requires forall a :: a in answers ==> a.0 in rows
    ensures u in UpdatesOf(rows, answers, norm, threshold) <==>
            exists a :: a in answers && a.0 == u.id && a.1.Some? && WritesAnswer(rows[a.0], a.1.value, u, norm, threshold)
  {
    if answers != [] {
      var first := answers[0];
      assert first in answers;
      UpdatesAreAnswers(rows, answers[1..], norm, threshold, u);
      DecideOtherwise(first.1, rows[first.0].renderings.Keys, norm, threshold);
      assert u in UpdateOf(rows, first.0, first.1, norm, threshold) <==>
             first.0 == u.id && first.1.Some? && WritesAnswer(rows[first.0], first.1.value, u, norm, threshold);
      assert forall a :: a in answers <==> a == first || a in answers[1..];
    }
  }

  /** A read of the resolver's plans exactly these, for whatever rows the answers are about. */
  lemma ResolverPlansItsAnswers(run: Run, answers: seq<(nat, Option<Answer>)>, norm: string -> string, threshold: real, u: Update)
    requires Legal(Then(run, ResolverReads(answers, norm, threshold)))
    ensures var s, s' := After(run), After(Then(run, ResolverReads(answers, norm, threshold)));
            && s' == s.(resolved := s'.resolved)
            && (u in s'.resolved <==>
                exists a :: a in answers && a.0 == u.id && a.1.Some? && WritesAnswer(s.rows[a.0], a.1.value, u, norm, threshold))
  {
    UpdatesAreAnswers(After(run).rows, answers, norm, threshold, u);
  }

  /** Its write stands if the row is a candidate still, with the resolver for an author where that decides
      the row; of any other row it changes nothing. */
  lemma ResolverWriteStands(run: Run)
    requires Legal(Then(run, ResolverWrites)) && After(run).resolved != []
    ensures var s, s', u := After(run), After(Then(run, ResolverWrites)), After(run).resolved[0];
            if u.id in s.rows && s.rows[u.id].status == Candidate then
              var was := s.rows[u.id];
              OnlyRow(s.(resolved := s.resolved[1..]), s', u.id,
                      Row(was.source, was.language, u.kind, u.translation, u.status,
                          if u.status == Proposed then None else Some(Auto), was.renderings, was.pairs, was.alsoWord))
            else s' == s.(resolved := s.resolved[1..])
  {
    AlwaysSound(run);
    assert After(run).resolved[0] in After(run).resolved;
  }

  /** The classifier writes the mark, and nothing but the mark, whoever decided the row. */
  lemma ClassifierWritesTheMark(run: Run)
    requires Legal(Then(run, ClassifierWrites)) && After(run).classified != []
    ensures var s, s', a := After(run), After(Then(run, ClassifierWrites)), After(run).classified[0];
            if a.0 in s.rows then
              OnlyRow(s.(classified := s.classified[1..]), s', a.0, s.rows[a.0].(alsoWord := Some(a.1)))
            else s' == s.(classified := s.classified[1..])
  {
  }

  // The admin's button.

  class Table {
    var rows: map<nat, Row>

    /** The entry decided, or None when another admin got there first. */
    method GlossaryDecide(id: nat, status: Status, translation: Option<string>) returns (entry: Option<Row>)
      modifies this
      ensures rows == Decided(old(rows), id, status, translation)
      ensures rows == if id in old(rows) && old(rows)[id].status == Proposed
                      then old(rows)[id := old(rows)[id].(
                             status := status, decidedBy := Some(Admin),
                             translation := if translation.Some? then translation else old(rows)[id].translation)]
                      else old(rows)
      ensures entry.Some? <==> id in old(rows) && old(rows)[id].status == Proposed
      ensures entry.Some? ==> id in rows && entry.value == rows[id]
    {
      if id !in rows || rows[id].status != Proposed { return None; }
      var row := rows[id];
      row := row.(status := status, decidedBy := Some(Admin));
      if translation.Some? { row := row.(translation := translation); }
      rows := rows[id := row];
      entry := Some(row);
    }

    /** executemany: each row's guard is tested against the table as it is by then. */
    method WriteResolved(updates: seq<Update>)
      modifies this
      ensures rows == AllResolved(old(rows), updates)
    {
      var i := 0;
      while i < |updates|
        invariant i <= |updates|
        invariant AllResolved(rows, updates[i..]) == AllResolved(old(rows), updates)
      {
        var u := updates[i];
        assert updates[i..][1..] == updates[i + 1..];
        if u.id in rows && rows[u.id].status == Candidate {
          var decided := u.status.Verified? || u.status.Rejected?;
          rows := rows[u.id := rows[u.id].(
            translation := u.translation, kind := u.kind, status := u.status, decidedBy := if decided then Some(Auto) else None)];
        }
        i := i + 1;
      }
    }
  }

  function AllResolved(rows: map<nat, Row>, updates: seq<Update>): map<nat, Row> {
    if updates == [] then rows else AllResolved(Resolved(rows, updates[0]), updates[1..])
  }
}
