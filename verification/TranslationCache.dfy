/** translate_node and its two Redis caches.  The model is any function of the messages it is
    sent; calls of several workers interleave at every await, entries are evicted at any time and
    Redis commands may fail.  Cache keys are modelled by the text that is hashed, so SHA-256 is
    taken to be collision-free. */
module TranslationCache {
  import opened Wrappers

  datatype Variant = A | B

  /** A message to translate, after strip(): `pair` is 0 for none, `context` is the rendered chat
      context, "" when the chat has no profile. */
  datatype Request = Request(text: string, language: string, pair: nat, context: string, variant: Variant)

  /** What the model is sent: the system prompt is determined by its three arguments. */
  datatype Messages =
    | First(language: string, context: string, variant: Variant, text: string)
    | Retry(first: Messages, reply: string)

  /** The model (None when the call raises) and the script tests; `target` is None for a language
      whose script is not known. */
  datatype Env = Env(model: string, llm: (Messages, string) -> Option<string>, space: char -> bool,
                     source: string -> bool, target: (string, string) -> Option<bool>)

  const NUL := '\0'

  predicate NulFree(s: string) {
    NUL !in s
  }

  function Version(env: Env, variant: Variant): string {
    (if variant.A? then "v2.10@" else "v3.0@") + env.model
  }

  predicate Proper(env: Env, r: Request) {
    NulFree(env.model) && NulFree(r.context)
  }

  function Strip(s: string, space: char -> bool): string {
    if s != [] && space(s[0]) then Strip(s[1..], space)
    else if s != [] && space(s[|s| - 1]) then Strip(s[..|s| - 1], space)
    else s
  }

  /** `t` is `s` from `i` to `j`, and around that are spaces only. */
  ghost predicate SpacesAround(s: string, t: string, i: nat, j: nat, space: char -> bool) {
    i <= j <= |s| && t == s[i..j] && forall k :: 0 <= k < |s| && (k < i || j <= k) ==> space(s[k])
  }

  /** `t` is what is left of `s` without the spaces around it. */
  ghost predicate IsTrimmed(s: string, t: string, space: char -> bool) {
    && (exists i, j :: SpacesAround(s, t, i, j, space))
    && (t != [] ==> !space(t[0]) && !space(t[|t| - 1]))
  }

  lemma {:induction false} StripBounds(s: string, space: char -> bool) returns (i: nat, j: nat)
    ensures SpacesAround(s, Strip(s, space), i, j, space)
    ensures Strip(s, space) != [] ==> !space(Strip(s, space)[0]) && !space(Strip(s, space)[|Strip(s, space)| - 1])
  {
    if s != [] && space(s[0]) {
      i, j := StripBounds(s[1..], space);
      assert forall k :: 0 < k < |s| ==> s[k] == s[1..][k - 1];
      i, j := i + 1, j + 1;
    } else if s != [] && space(s[|s| - 1]) {
      i, j := StripBounds(s[..|s| - 1], space);
      assert forall k :: 0 <= k < |s| - 1 ==> s[k] == s[..|s| - 1][k];
    } else {
      i, j := 0, |s|;
    }
  }

  lemma StripIsTrimmed(s: string, space: char -> bool)
    ensures IsTrimmed(s, Strip(s, space), space)
  {
    var i, j := StripBounds(s, space);
  }

  /** Strip takes the spaces off both ends, all of them and nothing else. */
  lemma StripIff(s: string, t: string, space: char -> bool)
    ensures IsTrimmed(s, t, space) <==> t == Strip(s, space)
  {
    StripIsTrimmed(s, space);
    if IsTrimmed(s, t, space) {
      var i, j := StripBounds(s, space);
      var i', j' :| SpacesAround(s, t, i', j', space);
      Innermost(s, Strip(s, space), i, j, i', j', space);
      Innermost(s, t, i', j', i, j, space);
    }
  }

  /** A part that begins and ends with no space lies within every part that leaves spaces only. */
  lemma Innermost(s: string, t: string, i: nat, j: nat, left: nat, right: nat, space: char -> bool)
    requires SpacesAround(s, t, i, j, space) && left <= right <= |s| && SpacesAround(s, s[left..right], left, right, space)
    requires t != [] ==> !space(t[0]) && !space(t[|t| - 1])
    ensures t != [] ==> left <= i && j <= right
  {
    if t != [] { assert t[0] == s[i] && t[|t| - 1] == s[j - 1]; }
  }

  /** Of a trimmed source and a trimmed reply, the two signs that the reply was not translated: it is the
      source, or it has the source's script in it and nothing of a known target script. */
  predicate HasSign(env: Env, language: string, source: string, reply: string) {
    reply == source || (env.source(reply) && env.target(language, reply) == Some(false))
  }

  ghost predicate Untranslated(env: Env, r: Request, reply: string) {
    && reply != ""
    && exists o, t :: IsTrimmed(r.text, o, env.space) && IsTrimmed(reply, t, env.space) && HasSign(env, r.language, o, t)
  }

  lemma LooksUntranslatedIff(env: Env, r: Request, reply: string)
    ensures LooksUntranslated(env, r.text, reply, r.language) <==> Untranslated(env, r, reply)
  {
    var o, t := Strip(r.text, env.space), Strip(reply, env.space);
    SignsIff(env, r, reply);
    assert LooksUntranslated(env, r.text, reply, r.language) <==> reply != "" && HasSign(env, r.language, o, t);
  }

  lemma SignsIff(env: Env, r: Request, reply: string)
    ensures Untranslated(env, r, reply) <==>
            reply != "" && HasSign(env, r.language, Strip(r.text, env.space), Strip(reply, env.space))
  {
    StripIsTrimmed(r.text, env.space);
    StripIsTrimmed(reply, env.space);
    forall o, t | IsTrimmed(r.text, o, env.space) && IsTrimmed(reply, t, env.space)
      ensures o == Strip(r.text, env.space) && t == Strip(reply, env.space)
    {
      StripIff(r.text, o, env.space);
      StripIff(reply, t, env.space);
    }
  }

  /** _looks_untranslated. */
  predicate LooksUntranslated(env: Env, original: string, translated: string, language: string) {
    translated != ""
    && var o, t := Strip(original, env.space), Strip(translated, env.space);
    (t == o || (env.target(language, t).Some? && env.source(t) && !env.target(language, t).value))
  }

  /** Empty, or under 0.3 of a source of more than 80 characters. */
  predicate Degenerate(text: string, translated: string) {
    translated == "" || (|text| > 80 && 10 * |translated| < 3 * |text|)
  }

  function Ask(r: Request): Messages {
    First(r.language, r.context, r.variant, r.text)
  }

  datatype Answer = Answer(text: string, storable: bool)

  /** What the node answers with empty caches, and whether it would store the answer. */
  function Uncached(env: Env, r: Request): Answer {
    if r.text == "" then Answer("", false) else
    match env.llm(Ask(r), env.model)
    case None => Answer("", false)
    case Some(first) =>
      if !LooksUntranslated(env, r.text, first, r.language) then Answer(first, !Degenerate(r.text, first))
      else match env.llm(Retry(Ask(r), first), env.model)
        case None => Answer(first, false)
        case Some(second) =>
          if second != "" && !LooksUntranslated(env, r.text, second, r.language) then Answer(second, !Degenerate(r.text, second))
          else Answer(first, false)
  }

  /** Long enough to be stored. */
  predicate LongEnough(r: Request, reply: string) {
    reply != "" && (|r.text| > 80 ==> 10 * |reply| >= 3 * |r.text|)
  }

  /** The node's answer by the signs of the replies: a first reply with neither is the answer, whatever a
      retry would say; one with a sign is, unless the retry has a reply with neither. */
  lemma AnswerBySigns(env: Env, r: Request)
    requires r.text != ""
    ensures var asked := First(r.language, r.context, r.variant, r.text);
            match env.llm(asked, env.model)
            case None => Uncached(env, r) == Answer("", false)
            case Some(first) =>
              && (!Untranslated(env, r, first) ==> Uncached(env, r) == Answer(first, LongEnough(r, first)))
              && (Untranslated(env, r, first) ==>
                    match env.llm(Retry(asked, first), env.model)
                    case None => Uncached(env, r) == Answer(first, false)
                    case Some(second) =>
                      Uncached(env, r) == if second == "" || Untranslated(env, r, second) then Answer(first, false)
                                          else Answer(second, LongEnough(r, second)))
  {
    var asked := First(r.language, r.context, r.variant, r.text);
    var reply := env.llm(asked, env.model);
    if reply.Some? {
      LooksUntranslatedIff(env, r, reply.value);
      var again := env.llm(Retry(asked, reply.value), env.model);
      if again.Some? { LooksUntranslatedIff(env, r, again.value); }
    }
  }

  // Keys.

  type PairKey = (string, nat, string)
  type GlobalKey = (string, string)

  function PairKeyOf(env: Env, r: Request): PairKey {
    (r.language, r.pair, Version(env, r.variant) + [NUL] + r.context + [NUL] + r.text)
  }

  function GlobalKeyOf(env: Env, r: Request): GlobalKey {
    (r.language, Version(env, r.variant) + [NUL] + r.text)
  }

  /** A NUL-free field before a NUL is recovered from the joined text. */
  lemma CutAtNul(a: string, x: string, b: string, y: string)
    requires NulFree(a) && NulFree(b) && a + [NUL] + x == b + [NUL] + y
    ensures a == b && x == y
  {
    var s := a + [NUL] + x;
    assert s[|a|] == NUL && s[|b|] == NUL;
    assert s[..|a|] == a && s[..|b|] == b;
    assert s[|a| + 1..] == x && s[|b| + 1..] == y;
  }

  lemma VersionFixesModel(env: Env, other: Env, v: Variant, w: Variant)
    requires Version(env, v) == Version(other, w)
    ensures env.model == other.model && v == w
  {
    assert "v2.10@"[1] != "v3.0@"[1];
    assert Version(env, v)[1] == Version(other, w)[1];
    assert Version(env, v)[if v.A? then 6 else 5..] == env.model;
    assert Version(other, w)[if w.A? then 6 else 5..] == other.model;
  }

  lemma VersionNulFree(env: Env, v: Variant)
    requires NulFree(env.model)
    ensures NulFree(Version(env, v))
  {
  }

  /** A pair key determines everything the answer depends on. */
  lemma PairKeyInjective(env: Env, r: Request, q: Request)
    requires Proper(env, r) && Proper(env, q) && PairKeyOf(env, r) == PairKeyOf(env, q)
    ensures r == q
  {
    VersionNulFree(env, r.variant);
    VersionNulFree(env, q.variant);
    var rest, rest' := r.context + [NUL] + r.text, q.context + [NUL] + q.text;
    assert PairKeyOf(env, r).2 == Version(env, r.variant) + [NUL] + rest;
    assert PairKeyOf(env, q).2 == Version(env, q.variant) + [NUL] + rest';
    CutAtNul(Version(env, r.variant), rest, Version(env, q.variant), rest');
    CutAtNul(r.context, r.text, q.context, q.text);
    VersionFixesModel(env, env, r.variant, q.variant);
  }

  /** A global key does too, for chats without context. */
  lemma GlobalKeyInjective(env: Env, r: Request, q: Request)
    requires Proper(env, r) && GlobalKeyOf(env, r) == GlobalKeyOf(env, q) && r.context == q.context == ""
    ensures Uncached(env, r) == Uncached(env, q) && r.text == q.text && r.language == q.language
  {
    VersionNulFree(env, r.variant);
    VersionNulFree(env, q.variant);
    CutAtNul(Version(env, r.variant), r.text, Version(env, q.variant), q.text);
    VersionFixesModel(env, env, r.variant, q.variant);
  }

  /** Under another model every key is another: a change of model starts with empty caches. */
  lemma KeysFixTheModel(env: Env, other: Env, r: Request, q: Request)
    requires Proper(env, r) && Proper(other, q)
    requires PairKeyOf(env, r) == PairKeyOf(other, q) || GlobalKeyOf(env, r) == GlobalKeyOf(other, q)
    ensures env.model == other.model && r.variant == q.variant
  {
    VersionNulFree(env, r.variant);
    VersionNulFree(other, q.variant);
    if PairKeyOf(env, r) == PairKeyOf(other, q) {
      var rest, rest' := r.context + [NUL] + r.text, q.context + [NUL] + q.text;
      assert PairKeyOf(env, r).2 == Version(env, r.variant) + [NUL] + rest;
      assert PairKeyOf(other, q).2 == Version(other, q.variant) + [NUL] + rest';
      CutAtNul(Version(env, r.variant), rest, Version(other, q.variant), rest');
    } else {
      CutAtNul(Version(env, r.variant), r.text, Version(other, q.variant), q.text);
    }
    VersionFixesModel(env, other, r.variant, q.variant);
  }

  // Interleaved calls.

  datatype Cache = Cache(pairs: map<PairKey, string>, globals: map<GlobalKey, string>)

  datatype Pc =
    | AtPair
    | AtGlobal
    | AtCopy(hit: string)          // a global hit, to be copied under the pair key
    | AtModel
    | AtRetry(first: string)
    | AtStorePair(text: string)
    | AtStoreGlobal(text: string)
    | Done(text: string)

  datatype Call = Call(request: Request, pc: Pc)

  datatype State = State(cache: Cache, calls: seq<Call>)

  /** `ok` says whether the Redis command of the step went through. */
  datatype Step =
    | Begin(request: Request)
    | Advance(call: nat, ok: bool)
    | DirectStore(language: string, digest: string, text: string)   // POST /translate, under pair 0
    | EvictPair(pairKey: PairKey)
    | EvictGlobal(globalKey: GlobalKey)

  function Lookup<K>(m: map<K, string>, key: K, ok: bool): Option<string> {
    if ok && key in m && m[key] != "" then Some(m[key]) else None
  }

  function AfterStore(r: Request, text: string, storable: bool): Pc {
    if storable then AtStorePair(text) else Done(text)
  }

  function NextPc(env: Env, cache: Cache, call: Call, ok: bool): Pc {
    var r := call.request;
    match call.pc
    case AtPair =>
      if r.text == "" then Done("")
      else (match Lookup(cache.pairs, PairKeyOf(env, r), ok)
            case Some(hit) => Done(hit)
            case None => if r.context == "" then AtGlobal else AtModel)
    case AtGlobal =>
      (match Lookup(cache.globals, GlobalKeyOf(env, r), ok)
       case Some(hit) => AtCopy(hit)
       case None => AtModel)
    case AtCopy(hit) => Done(hit)
    case AtModel =>
      (match env.llm(Ask(r), env.model)
       case None => Done("")
       case Some(first) =>
         if LooksUntranslated(env, r.text, first, r.language) then AtRetry(first)
         else AfterStore(r, first, !Degenerate(r.text, first)))
    case AtRetry(first) =>
      (match env.llm(Retry(Ask(r), first), env.model)
       case None => Done(first)
       case Some(second) =>
         if second != "" && !LooksUntranslated(env, r.text, second, r.language)
         then AfterStore(r, second, !Degenerate(r.text, second))
         else Done(first))
    case AtStorePair(text) => if r.context == "" then AtStoreGlobal(text) else Done(text)
    case AtStoreGlobal(text) => Done(text)
    case Done(text) => Done(text)
  }

  function NextCache(env: Env, cache: Cache, call: Call, ok: bool): Cache {
    if !ok then cache else
    match call.pc
    case AtCopy(hit) => cache.(pairs := cache.pairs[PairKeyOf(env, call.request) := hit])
    case AtStorePair(text) => cache.(pairs := cache.pairs[PairKeyOf(env, call.request) := text])
    case AtStoreGlobal(text) => cache.(globals := cache.globals[GlobalKeyOf(env, call.request) := text])
    case _ => cache
  }

  function Next(env: Env, s: State, step: Step): State {
    match step
    case Begin(request) => s.(calls := s.calls + [Call(request, AtPair)])
    case Advance(i, ok) =>
      if i >= |s.calls| then s
      else State(NextCache(env, s.cache, s.calls[i], ok),
                 s.calls[i := s.calls[i].(pc := NextPc(env, s.cache, s.calls[i], ok))])
    case DirectStore(language, digest, text) => s.(cache := s.cache.(pairs := s.cache.pairs[(language, 0, digest) := text]))
    case EvictPair(key) => s.(cache := s.cache.(pairs := s.cache.pairs - {key}))
    case EvictGlobal(key) => s.(cache := s.cache.(globals := s.cache.globals - {key}))
  }

  function Run(env: Env, steps: seq<Step>): State {
    if steps == [] then State(Cache(map[], map[]), [])
    else Next(env, Run(env, steps[..|steps| - 1]), steps[|steps| - 1])
  }

  /** Every request of the run is NUL-free where the key needs it. */
  ghost predicate ProperRun(env: Env, steps: seq<Step>) {
    forall i :: 0 <= i < |steps| && steps[i].Begin? ==> Proper(env, steps[i].request)
  }

  ghost predicate SoundPairs(env: Env, pairs: map<PairKey, string>) {
    forall r {:trigger PairKeyOf(env, r)} :: Proper(env, r) && r.pair != 0 && PairKeyOf(env, r) in pairs ==>
      Uncached(env, r) == Answer(pairs[PairKeyOf(env, r)], true)
  }

  ghost predicate SoundGlobals(env: Env, globals: map<GlobalKey, string>) {
    forall r {:trigger GlobalKeyOf(env, r)} :: Proper(env, r) && r.context == "" && GlobalKeyOf(env, r) in globals ==>
      Uncached(env, r) == Answer(globals[GlobalKeyOf(env, r)], true)
  }

  ghost predicate CallOk(env: Env, call: Call) {
    var r, answer := call.request, Uncached(env, call.request);
    Proper(env, r) &&
    match call.pc
    case AtPair => true
    case AtGlobal => r.context == "" && r.text != ""
    case AtCopy(hit) => answer == Answer(hit, true)
    case AtModel => r.text != ""
    case AtRetry(first) =>
      r.text != "" && env.llm(Ask(r), env.model) == Some(first) && LooksUntranslated(env, r.text, first, r.language)
    case AtStorePair(text) => answer == Answer(text, true)
    case AtStoreGlobal(text) => r.context == "" && answer == Answer(text, true)
    case Done(text) => r.pair != 0 ==> text == answer.text
  }

  ghost predicate Sound(env: Env, s: State) {
    && SoundPairs(env, s.cache.pairs) && SoundGlobals(env, s.cache.globals)
    && forall i :: 0 <= i < |s.calls| ==> CallOk(env, s.calls[i])
  }

  lemma StorePairSound(env: Env, pairs: map<PairKey, string>, r: Request, text: string)
    requires SoundPairs(env, pairs) && Proper(env, r) && Uncached(env, r) == Answer(text, true)
    ensures SoundPairs(env, pairs[PairKeyOf(env, r) := text])
  {
    forall q | Proper(env, q) && PairKeyOf(env, q) == PairKeyOf(env, r) ensures q == r {
      PairKeyInjective(env, q, r);
    }
  }

  lemma StoreGlobalSound(env: Env, globals: map<GlobalKey, string>, r: Request, text: string)
    requires SoundGlobals(env, globals) && Proper(env, r) && r.context == "" && Uncached(env, r) == Answer(text, true)
    ensures SoundGlobals(env, globals[GlobalKeyOf(env, r) := text])
  {
    forall q | Proper(env, q) && q.context == "" && GlobalKeyOf(env, q) == GlobalKeyOf(env, r)
      ensures Uncached(env, q) == Uncached(env, r)
    {
      GlobalKeyInjective(env, q, r);
    }
  }

  lemma AdvanceSound(env: Env, s: State, i: nat, ok: bool)
    requires Sound(env, s) && i < |s.calls|
    ensures Sound(env, Next(env, s, Advance(i, ok)))
  {
    var call := s.calls[i];
    assert CallOk(env, call);
    match call.pc
    case AtCopy(hit) => StorePairSound(env, s.cache.pairs, call.request, hit);
    case AtStorePair(text) => StorePairSound(env, s.cache.pairs, call.request, text);
    case AtStoreGlobal(text) => StoreGlobalSound(env, s.cache.globals, call.request, text);
    case _ =>
    assert CallOk(env, call.(pc := NextPc(env, s.cache, call, ok)));
  }

  lemma {:induction false} RunSound(env: Env, steps: seq<Step>)
    requires ProperRun(env, steps)
    ensures Sound(env, Run(env, steps))
  {
    if steps != [] {
      var s, step := Run(env, steps[..|steps| - 1]), steps[|steps| - 1];
      RunSound(env, steps[..|steps| - 1]);
      if step.Advance? && step.call < |s.calls| { AdvanceSound(env, s, step.call, step.ok); }
    }
  }

  /** Whatever the history of calls, their interleaving, evictions, Redis failures and stores by the
      direct translator, which shares the keys of pair 0 and stores unguarded: a call for a chat pair
      that returns, returns the text the node would return with empty caches. */
  lemma CacheIsTransparent(env: Env, steps: seq<Step>, i: nat)
    requires ProperRun(env, steps) && i < |Run(env, steps).calls| && Run(env, steps).calls[i].pc.Done?
    requires Run(env, steps).calls[i].request.pair != 0
    ensures var call := Run(env, steps).calls[i]; call.pc.text == Uncached(env, call.request).text
  {
    RunSound(env, steps);
    assert CallOk(env, Run(env, steps).calls[i]);
  }

  /** In every reachable state, what a cache holds under the key of any request that could read it is not
      empty and not a fragment of a long source; trimmed, it is not the trimmed source, and where the
      target's script is known and absent, it has nothing of the source's. */
  lemma NoBadTranslationStored(env: Env, steps: seq<Step>, r: Request, value: string)
    requires ProperRun(env, steps) && Proper(env, r)
    requires var cache := Run(env, steps).cache;
             || (r.pair != 0 && PairKeyOf(env, r) in cache.pairs && cache.pairs[PairKeyOf(env, r)] == value)
             || (r.context == "" && GlobalKeyOf(env, r) in cache.globals && cache.globals[GlobalKeyOf(env, r)] == value)
    ensures value != "" && (|r.text| > 80 ==> 10 * |value| >= 3 * |r.text|)
    ensures forall o, t :: IsTrimmed(r.text, o, env.space) && IsTrimmed(value, t, env.space) ==>
              t != o && (env.target(r.language, t) == Some(false) ==> !env.source(t))
  {
    RunSound(env, steps);
    assert Uncached(env, r) == Answer(value, true);
    LooksUntranslatedIff(env, r, value);
  }

  /** The model is asked a second time only about a reply with one of the signs. */
  lemma RetryHasCause(env: Env, steps: seq<Step>, i: nat)
    requires ProperRun(env, steps) && i < |Run(env, steps).calls| && Run(env, steps).calls[i].pc.AtRetry?
    ensures var call := Run(env, steps).calls[i];
            && env.llm(First(call.request.language, call.request.context, call.request.variant, call.request.text), env.model)
               == Some(call.pc.first)
            && Untranslated(env, call.request, call.pc.first)
  {
    RunSound(env, steps);
    var call := Run(env, steps).calls[i];
    assert CallOk(env, call);
    LooksUntranslatedIff(env, call.request, call.pc.first);
  }

  /** What is stored under its pair key is served by one read, without the model. */
  lemma HitIsServed(env: Env, steps: seq<Step>, r: Request)
    requires r.text != "" && PairKeyOf(env, r) in Run(env, steps).cache.pairs && Run(env, steps).cache.pairs[PairKeyOf(env, r)] != ""
    ensures var s := Run(env, steps);
            Run(env, steps + [Begin(r), Advance(|s.calls|, true)])
            == s.(calls := s.calls + [Call(r, Done(s.cache.pairs[PairKeyOf(env, r)]))])
  {
    var s := Run(env, steps);
    RunAppend(env, steps, Begin(r));
    RunAppend(env, steps + [Begin(r)], Advance(|s.calls|, true));
    assert steps + [Begin(r)] + [Advance(|s.calls|, true)] == steps + [Begin(r), Advance(|s.calls|, true)];
  }

  lemma RunAppend(env: Env, steps: seq<Step>, step: Step)
    ensures Run(env, steps + [step]) == Next(env, Run(env, steps), step)
  {
    assert (steps + [step])[..|steps|] == steps;
  }

  /** Failing that, a chat without context is served from the global cache, which fills the pair's key. */
  lemma GlobalHitIsServed(env: Env, steps: seq<Step>, r: Request)
    requires r.text != "" && r.context == "" && PairKeyOf(env, r) !in Run(env, steps).cache.pairs
    requires GlobalKeyOf(env, r) in Run(env, steps).cache.globals && Run(env, steps).cache.globals[GlobalKeyOf(env, r)] != ""
    ensures var s := Run(env, steps);
            var n, value := |s.calls|, s.cache.globals[GlobalKeyOf(env, r)];
            Run(env, steps + [Begin(r)] + [Advance(n, true)] + [Advance(n, true)] + [Advance(n, true)])
            == State(s.cache.(pairs := s.cache.pairs[PairKeyOf(env, r) := value]), s.calls + [Call(r, Done(value))])
  {
    var s := Run(env, steps);
    var n, value := |s.calls|, s.cache.globals[GlobalKeyOf(env, r)];
    RunAppend(env, steps, Begin(r));
    RunAppend(env, steps + [Begin(r)], Advance(n, true));
    assert Run(env, steps + [Begin(r)] + [Advance(n, true)]) == s.(calls := s.calls + [Call(r, AtGlobal)]);
    RunAppend(env, steps + [Begin(r)] + [Advance(n, true)], Advance(n, true));
    assert Run(env, steps + [Begin(r)] + [Advance(n, true)] + [Advance(n, true)]) == s.(calls := s.calls + [Call(r, AtCopy(value))]);
    RunAppend(env, steps + [Begin(r)] + [Advance(n, true)] + [Advance(n, true)], Advance(n, true));
  }

  // Pair 0, which POST /translate shares.

  /** A stored text is served by the next call that reads its key. */
  lemma StoredIsServed(env: Env, r: Request, text: string) returns (steps: seq<Step>)
    requires r.pair == 0 && r.text != "" && text != "" && Proper(env, r)
    ensures steps == [DirectStore(r.language, PairKeyOf(env, r).2, text), Begin(r), Advance(0, true)]
    ensures ProperRun(env, steps) && Run(env, steps).calls == [Call(r, Done(text))]
  {
    var store, begin, read := DirectStore(r.language, PairKeyOf(env, r).2, text), Begin(r), Advance(0, true);
    steps := [store, begin, read];
    assert [store][..0] == [] && [store, begin][..1] == [store] && steps[..2] == [store, begin];
    assert Run(env, []) == State(Cache(map[], map[]), []);
    assert Run(env, [store]) == State(Cache(map[PairKeyOf(env, r) := text], map[]), []);
    assert Run(env, [store, begin]) == Next(env, Run(env, [store]), begin);
    assert Run(env, [store, begin]).calls == [Call(r, AtPair)];
    assert Run(env, steps) == Next(env, Run(env, [store, begin]), read);
  }

  /** What the endpoint stores: the model's first reply, unguarded, under the key of its request. */
  predicate Stores(env: Env, step: Step, r: Request) {
    step.DirectStore? && Proper(env, r) && r.pair == 0 && r.text != ""
    && PairKeyOf(env, r) == (step.language, 0, step.digest) && env.llm(Ask(r), env.model) == Some(step.text)
  }

  ghost predicate EndpointRun(env: Env, steps: seq<Step>) {
    forall i :: 0 <= i < |steps| && steps[i].DirectStore? ==> exists r :: Stores(env, steps[i], r)
  }

  /** The uncached answer, or the first reply it may have mended. */
  predicate IsReply(env: Env, r: Request, text: string) {
    text == Uncached(env, r).text || env.llm(Ask(r), env.model) == Some(text)
  }

  ghost predicate RepliesOnly(env: Env, s: State) {
    && (forall r {:trigger PairKeyOf(env, r)} :: Proper(env, r) && PairKeyOf(env, r) in s.cache.pairs ==>
          IsReply(env, r, s.cache.pairs[PairKeyOf(env, r)]))
    && (forall i :: 0 <= i < |s.calls| && s.calls[i].pc.Done? ==> IsReply(env, s.calls[i].request, s.calls[i].pc.text))
  }

  lemma StoreReply(env: Env, s: State, r: Request, text: string)
    requires RepliesOnly(env, s) && Proper(env, r) && IsReply(env, r, text)
    ensures RepliesOnly(env, s.(cache := s.cache.(pairs := s.cache.pairs[PairKeyOf(env, r) := text])))
  {
    forall q | Proper(env, q) && PairKeyOf(env, q) == PairKeyOf(env, r) ensures q == r {
      PairKeyInjective(env, q, r);
    }
  }

  lemma AdvanceReplies(env: Env, s: State, i: nat, ok: bool)
    requires Sound(env, s) && RepliesOnly(env, s) && i < |s.calls|
    ensures RepliesOnly(env, Next(env, s, Advance(i, ok)))
  {
    var call := s.calls[i];
    assert CallOk(env, call);
    match call.pc
    case AtCopy(hit) => StoreReply(env, s, call.request, hit);
    case AtStorePair(text) => StoreReply(env, s, call.request, text);
    case _ =>
  }

  lemma {:induction false} RunReplies(env: Env, steps: seq<Step>)
    requires ProperRun(env, steps) && EndpointRun(env, steps)
    ensures RepliesOnly(env, Run(env, steps))
  {
    if steps != [] {
      var s, step := Run(env, steps[..|steps| - 1]), steps[|steps| - 1];
      RunSound(env, steps[..|steps| - 1]);
      RunReplies(env, steps[..|steps| - 1]);
      match step
      case Advance(i, ok) => if i < |s.calls| { AdvanceReplies(env, s, i, ok); }
      case DirectStore(_, _, text) =>
        var r :| Stores(env, step, r);
        StoreReply(env, s, r, text);
      case _ =>
    }
  }

  /** The retry of the node mends a first reply that looks untranslated. */
  predicate Mended(env: Env, r: Request) {
    && env.llm(Ask(r), env.model).Some?
    && var first := env.llm(Ask(r), env.model).value;
    && LooksUntranslated(env, r.text, first, r.language)
    && env.llm(Retry(Ask(r), first), env.model).Some?
    && var second := env.llm(Retry(Ask(r), first), env.model).value;
    second != "" && !LooksUntranslated(env, r.text, second, r.language)
  }

  /** A finished call of the run for `r` returned `text`. */
  ghost predicate CanReturn(env: Env, r: Request, text: string) {
    exists steps, i :: ProperRun(env, steps) && EndpointRun(env, steps) && 0 <= i < |Run(env, steps).calls|
                       && Run(env, steps).calls[i] == Call(r, Done(text))
  }

  /** With the endpoint's stores in the run, a finished call returns the uncached text or, for lack of a
      chat pair, the model's first reply; so without a chat pair the cache is transparent for a request
      exactly when the retry does not mend the first reply to it. */
  lemma PairZeroIsTransparentIff(env: Env, r: Request)
    requires Proper(env, r) && r.pair == 0 && r.text != ""
    ensures forall text :: CanReturn(env, r, text) ==> IsReply(env, r, text)
    ensures (forall text :: CanReturn(env, r, text) ==> text == Uncached(env, r).text) <==> !Mended(env, r)
  {
    forall text | CanReturn(env, r, text) ensures IsReply(env, r, text) {
      var steps, i :| ProperRun(env, steps) && EndpointRun(env, steps) && 0 <= i < |Run(env, steps).calls|
                      && Run(env, steps).calls[i] == Call(r, Done(text));
      RunReplies(env, steps);
    }
    if Mended(env, r) {
      var first := env.llm(Ask(r), env.model).value;
      var steps := StoredIsServed(env, r, first);
      assert Stores(env, steps[0], r);
      assert Run(env, steps).calls[0] == Call(r, Done(first));
      assert CanReturn(env, r, first);
    }
  }

  /** There are such replies: a model that repeats the source until it is asked again. */
  lemma MendedReply() returns (env: Env, r: Request)
    ensures Proper(env, r) && r.pair == 0 && r.text != "" && Mended(env, r)
  {
    env := Env("model", (messages: Messages, model) => Some(if messages.First? then "a" else "b"),
               c => false, text => false, (language, text) => None);
    r := Request("a", "Russian", 0, "", A);
    assert Strip("a", env.space) == "a" && Strip("b", env.space) == "b";
  }

  // The node itself, as one worker runs it undisturbed.

  /** What one whole call answers and leaves in the caches. */
  ghost predicate Translated(env: Env, cache: Cache, r: Request, cache': Cache, text: string) {
    var key, hit := PairKeyOf(env, r), PairKeyOf(env, r) in cache.pairs && cache.pairs[PairKeyOf(env, r)] != "";
    && (r.text == "" ==> text == "")
    && (r.text != "" && hit ==> text == cache.pairs[key])
    && (r.text != "" && !hit ==> text == Uncached(env, r).text)
    && cache'.pairs == (if r.text != "" && !hit && Uncached(env, r).storable then cache.pairs[key := text] else cache.pairs)
    && cache'.globals == (if r.text != "" && !hit && r.context == "" && Uncached(env, r).storable
                          then cache.globals[GlobalKeyOf(env, r) := text] else cache.globals)
  }

  class Translator {
    var pairs: map<PairKey, string>
    var globals: map<GlobalKey, string>

    ghost predicate Valid(env: Env)
      reads this
    {
      SoundPairs(env, pairs) && SoundGlobals(env, globals)
    }

    /** translate_node: what is stored under the pair key, which for a chat pair is the uncached answer,
        or else the uncached answer, stored exactly when it is fit to be: under the pair key, and for a
        chat without context under the global one. */
    method Translate(env: Env, r: Request) returns (text: string)
      requires Valid(env) && Proper(env, r)
      modifies this
      ensures Valid(env)
      ensures Translated(env, Cache(old(pairs), old(globals)), r, Cache(pairs, globals), text)
      ensures r.pair != 0 ==> text == Uncached(env, r).text
    {
      if r.text == "" { return ""; }
      var key, globalKey := PairKeyOf(env, r), GlobalKeyOf(env, r);
      if key in pairs && pairs[key] != "" {
        text := pairs[key];
        return;
      }
      if r.context == "" && globalKey in globals && globals[globalKey] != "" {
        text := globals[globalKey];
        assert globals == globals[globalKey := text];
        StorePairSound(env, pairs, r, text);
        pairs := pairs[key := text];
        return;
      }
      var reply := env.llm(Ask(r), env.model);
      if reply.None? { return ""; }
      text := reply.value;
      var passthrough := false;
      if LooksUntranslated(env, r.text, text, r.language) {
        var retried := env.llm(Retry(Ask(r), text), env.model);
        if retried.Some? && retried.value != "" && !LooksUntranslated(env, r.text, retried.value, r.language) {
          text := retried.value;
        } else {
          passthrough := true;
        }
      }
      if !(Degenerate(r.text, text) || passthrough) {
        StorePairSound(env, pairs, r, text);
        pairs := pairs[key := text];
        if r.context == "" {
          StoreGlobalSound(env, globals, r, text);
          globals := globals[globalKey := text];
        }
      }
    }

    /** POST /translate stores what the model said, whatever it is. */
    method DirectStore(env: Env, language: string, digest: string, text: string)
      requires Valid(env)
      modifies this`pairs
      ensures Valid(env) && pairs == old(pairs)[(language, 0, digest) := text]
    {
      pairs := pairs[(language, 0, digest) := text];
    }

    /** An entry expires or is evicted. */
    method Evict(env: Env, key: PairKey, globalKey: GlobalKey)
      requires Valid(env)
      modifies this
      ensures Valid(env) && pairs == old(pairs) - {key} && globals == old(globals) - {globalKey}
    {
      pairs, globals := pairs - {key}, globals - {globalKey};
    }
  }

  // The node is a run of the steps.

  /** A cache and a call after `k` commands of the call that all go through. */
  function Carried(env: Env, cache: Cache, call: Call, k: nat): (Cache, Call)
    decreases k
  {
    if k == 0 then (cache, call)
    else Carried(env, NextCache(env, cache, call, true), call.(pc := NextPc(env, cache, call, true)), k - 1)
  }

  lemma {:induction false} CarriedDone(env: Env, cache: Cache, call: Call, k: nat)
    requires call.pc.Done?
    ensures Carried(env, cache, call, k) == (cache, call)
  {
    if k > 0 { CarriedDone(env, cache, call, k - 1); }
  }

  /** From the model's reply on: the uncached answer, stored if it is fit to be. */
  lemma CarriedFromModel(env: Env, cache: Cache, r: Request)
    requires r.text != ""
    ensures var answer := Uncached(env, r);
            Carried(env, cache, Call(r, AtModel), 4)
            == (Cache(if answer.storable then cache.pairs[PairKeyOf(env, r) := answer.text] else cache.pairs,
                      if answer.storable && r.context == "" then cache.globals[GlobalKeyOf(env, r) := answer.text] else cache.globals),
                Call(r, Done(answer.text)))
  {
    var next := NextPc(env, cache, Call(r, AtModel), true);
    var call := Call(r, next);
    match next
    case Done(_) => CarriedDone(env, cache, call, 3);
    case AtStorePair(text) => CarriedStore(env, cache, r, text, 1);
    case AtRetry(first) =>
      var last := NextPc(env, cache, call, true);
      if last.Done? { CarriedDone(env, cache, Call(r, last), 2); } else { CarriedStore(env, cache, r, last.text, 0); }
    case _ =>
    assert Carried(env, cache, Call(r, AtModel), 4) == Carried(env, cache, call, 3);
  }

  lemma CarriedStore(env: Env, cache: Cache, r: Request, text: string, idle: nat)
    ensures Carried(env, cache, Call(r, AtStorePair(text)), 2 + idle)
         == (Cache(cache.pairs[PairKeyOf(env, r) := text],
                   if r.context == "" then cache.globals[GlobalKeyOf(env, r) := text] else cache.globals),
             Call(r, Done(text)))
  {
    var filed := cache.(pairs := cache.pairs[PairKeyOf(env, r) := text]);
    if r.context == "" {
      var both := filed.(globals := filed.globals[GlobalKeyOf(env, r) := text]);
      CarriedDone(env, both, Call(r, Done(text)), idle);
      assert Carried(env, filed, Call(r, AtStoreGlobal(text)), 1 + idle) == Carried(env, both, Call(r, Done(text)), idle);
    } else {
      CarriedDone(env, filed, Call(r, Done(text)), 1 + idle);
    }
  }

  /** Six commands take a call from its first read to its end. */
  lemma CarriedToTheEnd(env: Env, cache: Cache, r: Request)
    requires Proper(env, r) && SoundGlobals(env, cache.globals)
    ensures var (cache', call) := Carried(env, cache, Call(r, AtPair), 6);
            call.request == r && call.pc.Done? && Translated(env, cache, r, cache', call.pc.text)
  {
    var next := NextPc(env, cache, Call(r, AtPair), true);
    match next
    case Done(text) => CarriedDone(env, cache, Call(r, next), 5);
    case AtModel =>
      CarriedFromModel(env, cache, r);
      CarriedOn(env, cache, Call(r, AtModel), 4, 1);
    case AtGlobal => CarriedFromGlobal(env, cache, r);
    case _ =>
  }

  lemma CarriedFromGlobal(env: Env, cache: Cache, r: Request)
    requires Proper(env, r) && SoundGlobals(env, cache.globals) && r.text != "" && r.context == ""
    requires !(PairKeyOf(env, r) in cache.pairs && cache.pairs[PairKeyOf(env, r)] != "")
    ensures var (cache', call) := Carried(env, cache, Call(r, AtGlobal), 5);
            call.request == r && call.pc.Done? && Translated(env, cache, r, cache', call.pc.text)
  {
    var next := NextPc(env, cache, Call(r, AtGlobal), true);
    match next
    case AtCopy(hit) =>
      var filed := cache.(pairs := cache.pairs[PairKeyOf(env, r) := hit]);
      assert Uncached(env, r) == Answer(hit, true) && cache.globals[GlobalKeyOf(env, r) := hit] == cache.globals;
      CarriedDone(env, filed, Call(r, Done(hit)), 3);
      assert Carried(env, cache, Call(r, AtCopy(hit)), 4) == Carried(env, filed, Call(r, Done(hit)), 3);
    case AtModel => CarriedFromModel(env, cache, r);
    case _ =>
  }

  lemma {:induction false} CarriedOn(env: Env, cache: Cache, call: Call, k: nat, idle: nat)
    requires Carried(env, cache, call, k).1.pc.Done?
    ensures Carried(env, cache, call, k + idle) == Carried(env, cache, call, k)
    decreases k
  {
    if k == 0 {
      CarriedDone(env, cache, call, idle);
    } else {
      CarriedOn(env, NextCache(env, cache, call, true), call.(pc := NextPc(env, cache, call, true)), k - 1, idle);
    }
  }

  function Advances(call: nat, k: nat): seq<Step> {
    if k == 0 then [] else [Advance(call, true)] + Advances(call, k - 1)
  }

  lemma {:induction false} RunAdvances(env: Env, steps: seq<Step>, n: nat, k: nat)
    requires n < |Run(env, steps).calls|
    ensures var s := Run(env, steps);
            var (cache', call) := Carried(env, s.cache, s.calls[n], k);
            Run(env, steps + Advances(n, k)) == State(cache', s.calls[n := call])
    decreases k
  {
    if k == 0 {
      assert steps + [] == steps;
    } else {
      RunAppend(env, steps, Advance(n, true));
      RunAdvances(env, steps + [Advance(n, true)], n, k - 1);
      Associates(steps, [Advance(n, true)], Advances(n, k - 1));
    }
  }

  /** After any run, a call that nothing disturbs answers and stores what the node does. */
  lemma TranslateIsARun(env: Env, steps: seq<Step>, r: Request) returns (cache: Cache, text: string)
    requires ProperRun(env, steps) && Proper(env, r)
    ensures Translated(env, Run(env, steps).cache, r, cache, text)
    ensures Run(env, steps + [Begin(r)] + Advances(|Run(env, steps).calls|, 6))
         == State(cache, Run(env, steps).calls + [Call(r, Done(text))])
  {
    var s := Run(env, steps);
    var n := |s.calls|;
    RunSound(env, steps);
    RunAppend(env, steps, Begin(r));
    RunAdvances(env, steps + [Begin(r)], n, 6);
    CarriedToTheEnd(env, s.cache, r);
    var done := Carried(env, s.cache, Call(r, AtPair), 6);
    cache, text := done.0, done.1.pc.text;
    assert (s.calls + [Call(r, AtPair)])[n := done.1] == s.calls + [done.1];
  }
}
