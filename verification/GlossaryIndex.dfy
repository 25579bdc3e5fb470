/** GlossaryIndex: a dictionary of joined phrases, searched with prefix stripping and the longest
    phrase first, against a naive scan that compares every entry's words at every position. */
module GlossaryIndex {
  import opened Wrappers
  import opened GlossaryMatch

  datatype Entry = Entry(translation: string, note: string)

  /** A glossary as the caller hands it over: keys in insertion order. */
  type Glossary = seq<(Text, Entry)>

  /** The word, then the word with one and two Hebrew prefixes stripped. */
  function Variants(word: Text): (vs: seq<Text>) {
    [word] + Stripped(word, MAX_PREFIXES)
  }

  function Stripped(stem: Text, left: nat): seq<Text> {
    if left == 0 || |stem| < MIN_STEM + 1 || !stem[0].Hebrew? || stem[0].n !in PREFIXES then []
    else [stem[1..]] + Stripped(stem[1..], left - 1)
  }

  lemma {:induction false} StrippedWords(stem: Text, left: nat)
    requires WordLike(stem)
    ensures forall v :: v in Stripped(stem, left) ==> WordLike(v)
  {
    if left > 0 && |stem| >= MIN_STEM + 1 { StrippedWords(stem[1..], left - 1); }
  }

  // The naive scan.

  predicate Indexable(key: Text) {
    1 <= |Words(key)| <= MAX_WORDS
  }

  predicate NoneIndexable(glossary: Glossary) {
    forall e :: e in glossary ==> !Indexable(e.0)
  }

  predicate NoneLonger(glossary: Glossary, most: nat) {
    forall e :: e in glossary && Indexable(e.0) ==> |Words(e.0)| <= most
  }

  /** The entry for a sequence of words: the last one whose key has exactly these words. */
  function EntryFor(glossary: Glossary, words: seq<Text>): Option<(Text, Entry)> {
    if glossary == [] then None
    else if Indexable(glossary[|glossary| - 1].0) && Words(glossary[|glossary| - 1].0) == words then Some(glossary[|glossary| - 1])
    else EntryFor(glossary[..|glossary| - 1], words)
  }

  datatype Hit = Hit(start: nat, length: nat, key: Text, entry: Entry)

  /** The first variant that makes a phrase with the words after it. */
  function FirstVariant(glossary: Glossary, variants: seq<Text>, rest: seq<Text>): Option<(Text, Entry)> {
    if variants == [] then None
    else match EntryFor(glossary, [variants[0]] + rest)
      case Some(found) => Some(found)
      case None => FirstVariant(glossary, variants[1..], rest)
  }

  /** A phrase of `n` words at position `i`. */
  function PhraseAt(glossary: Glossary, tokens: seq<Text>, i: nat, n: nat): Option<(Text, Entry)>
    requires i < i + n <= |tokens|
  {
    FirstVariant(glossary, Variants(tokens[i]), tokens[i + 1..i + n])
  }

  /** The longest phrase of at most `n` words at `i`. */
  function LongestAt(glossary: Glossary, tokens: seq<Text>, i: nat, n: nat): Option<Hit>
    requires i + n <= |tokens|
  {
    if n == 0 then None
    else match PhraseAt(glossary, tokens, i, n)
      case Some(found) => Some(Hit(i, n, found.0, found.1))
      case None => LongestAt(glossary, tokens, i, n - 1)
  }

  lemma {:induction false} LongestAtBounds(glossary: Glossary, tokens: seq<Text>, i: nat, n: nat)
    requires i + n <= |tokens|
    ensures match LongestAt(glossary, tokens, i, n)
            case Some(hit) =>
              hit.start == i && 1 <= hit.length <= n
              && PhraseAt(glossary, tokens, i, hit.length) == Some((hit.key, hit.entry))
              && forall m :: hit.length < m <= n ==> PhraseAt(glossary, tokens, i, m).None?
            case None => forall m :: 0 < m <= n ==> PhraseAt(glossary, tokens, i, m).None?
  {
    if n > 0 { LongestAtBounds(glossary, tokens, i, n - 1); }
  }

  /** The naive scan from position `i`: every length is tried, the rest of the text included. */
  function Scan(glossary: Glossary, tokens: seq<Text>, i: nat): seq<Hit>
    requires i <= |tokens|
    decreases |tokens| - i
  {
    if i == |tokens| then []
    else
      LongestAtBounds(glossary, tokens, i, |tokens| - i);
      match LongestAt(glossary, tokens, i, |tokens| - i)
      case None => Scan(glossary, tokens, i + 1)
      case Some(hit) => [hit] + Scan(glossary, tokens, i + hit.length)
  }

  /** One step of the scan: past a word that starts no phrase, or past the longest that it starts. */
  lemma ScanStep(glossary: Glossary, tokens: seq<Text>, i: nat)
    requires i < |tokens|
    ensures match LongestAt(glossary, tokens, i, |tokens| - i)
            case None => Scan(glossary, tokens, i) == Scan(glossary, tokens, i + 1)
            case Some(hit) =>
              && hit.start == i && 0 < hit.length <= |tokens| - i
              && Scan(glossary, tokens, i) == [hit] + Scan(glossary, tokens, i + hit.length)
              && Scan(glossary, tokens, i)[0] == hit && Scan(glossary, tokens, i)[1..] == Scan(glossary, tokens, i + hit.length)
  {
    LongestAtBounds(glossary, tokens, i, |tokens| - i);
  }

  function Collect(hits: seq<Hit>, found: map<Text, Entry>): map<Text, Entry> {
    if hits == [] then found else Collect(hits[1..], found[hits[0].key := hits[0].entry])
  }

  /** What a message mentions. */
  function Mentioned(glossary: Glossary, text: Text): map<Text, Entry> {
    Collect(Scan(glossary, Words(text), 0), map[])
  }

  /** Position `p` lies inside the span of a hit. */
  predicate Covered(hits: seq<Hit>, p: nat) {
    exists h :: 0 <= h < |hits| && hits[h].start <= p < hits[h].start + hits[h].length
  }

  /** A hit is the longest phrase at its position. */
  predicate IsLongest(glossary: Glossary, tokens: seq<Text>, hit: Hit) {
    && hit.start < hit.start + hit.length <= |tokens|
    && PhraseAt(glossary, tokens, hit.start, hit.length) == Some((hit.key, hit.entry))
    && forall n :: hit.length < n <= |tokens| - hit.start ==> PhraseAt(glossary, tokens, hit.start, n).None?
  }

  predicate NothingAt(glossary: Glossary, tokens: seq<Text>, p: nat)
    requires p < |tokens|
  {
    forall n :: 0 < n <= |tokens| - p ==> PhraseAt(glossary, tokens, p, n).None?
  }

  /** Spans follow one another from position `i` on. */
  predicate Disjoint(hits: seq<Hit>, i: nat) {
    hits == [] || (i <= hits[0].start && Disjoint(hits[1..], hits[0].start + hits[0].length))
  }

  lemma {:induction false} DisjointPairwise(hits: seq<Hit>, i: nat)
    requires Disjoint(hits, i)
    ensures forall h :: 0 <= h < |hits| ==> i <= hits[h].start
    ensures forall g, h :: 0 <= g < h < |hits| ==> hits[g].start + hits[g].length <= hits[h].start
  {
    if hits != [] { DisjointPairwise(hits[1..], hits[0].start + hits[0].length); }
  }

  lemma {:induction false} ScanIsDisjoint(glossary: Glossary, tokens: seq<Text>, i: nat)
    requires i <= |tokens|
    ensures Disjoint(Scan(glossary, tokens, i), i)
    decreases |tokens| - i
  {
    if i < |tokens| {
      ScanStep(glossary, tokens, i);
      match LongestAt(glossary, tokens, i, |tokens| - i)
      case None =>
        ScanIsDisjoint(glossary, tokens, i + 1);
      case Some(hit) =>
        ScanIsDisjoint(glossary, tokens, i + hit.length);
    }
  }

  lemma {:induction false} ScanIsLongest(glossary: Glossary, tokens: seq<Text>, i: nat)
    requires i <= |tokens|
    ensures forall hit :: hit in Scan(glossary, tokens, i) ==> IsLongest(glossary, tokens, hit)
    decreases |tokens| - i
  {
    if i < |tokens| {
      LongestAtBounds(glossary, tokens, i, |tokens| - i);
      match LongestAt(glossary, tokens, i, |tokens| - i)
      case None => ScanIsLongest(glossary, tokens, i + 1);
      case Some(hit) =>
        ScanIsLongest(glossary, tokens, i + hit.length);
        assert IsLongest(glossary, tokens, hit);
    }
  }

  lemma CoveredLater(hit: Hit, rest: seq<Hit>, p: nat)
    ensures Covered(rest, p) ==> Covered([hit] + rest, p)
  {
    if h :| 0 <= h < |rest| && rest[h].start <= p < rest[h].start + rest[h].length {
      assert ([hit] + rest)[h + 1] == rest[h];
    }
  }

  lemma {:induction false} ScanSkipsNothing(glossary: Glossary, tokens: seq<Text>, i: nat, p: nat)
    requires i <= p < |tokens| && !Covered(Scan(glossary, tokens, i), p)
    ensures NothingAt(glossary, tokens, p)
    decreases |tokens| - i
  {
    LongestAtBounds(glossary, tokens, i, |tokens| - i);
    ScanStep(glossary, tokens, i);
    match LongestAt(glossary, tokens, i, |tokens| - i)
    case None =>
      if p > i { ScanSkipsNothing(glossary, tokens, i + 1, p); }
    case Some(hit) =>
      var hits, rest := Scan(glossary, tokens, i), Scan(glossary, tokens, i + hit.length);
      CoveredLater(hit, rest, p);
      ScanSkipsNothing(glossary, tokens, i + hit.length, p);
  }

  /** The scan is leftmost-longest: spans are disjoint and ordered, each is the longest phrase at
      its position, and a position outside every span starts no phrase of any length. */
  lemma ScanIsLeftmostLongest(glossary: Glossary, tokens: seq<Text>)
    ensures var hits := Scan(glossary, tokens, 0);
            && (forall h :: 0 <= h < |hits| ==> IsLongest(glossary, tokens, hits[h]))
            && (forall g, h :: 0 <= g < h < |hits| ==> hits[g].start + hits[g].length <= hits[h].start)
            && (forall p: nat :: p < |tokens| && !Covered(hits, p) ==> NothingAt(glossary, tokens, p))
  {
    ScanIsDisjoint(glossary, tokens, 0);
    DisjointPairwise(Scan(glossary, tokens, 0), 0);
    ScanIsLongest(glossary, tokens, 0);
    forall p: nat | p < |tokens| && !Covered(Scan(glossary, tokens, 0), p) ensures NothingAt(glossary, tokens, p) {
      ScanSkipsNothing(glossary, tokens, 0, p);
    }
  }

  lemma {:induction false} EntryForLength(glossary: Glossary, words: seq<Text>, most: nat)
    requires NoneLonger(glossary, most)
    ensures |words| > most ==> EntryFor(glossary, words).None?
    ensures |words| > MAX_WORDS ==> EntryFor(glossary, words).None?
  {
    if glossary != [] { EntryForLength(glossary[..|glossary| - 1], words, most); }
  }

  lemma {:induction false} FirstVariantLength(glossary: Glossary, variants: seq<Text>, rest: seq<Text>, most: nat)
    requires NoneLonger(glossary, most)
    requires |rest| + 1 > most
    ensures FirstVariant(glossary, variants, rest).None?
  {
    if variants != [] {
      EntryForLength(glossary, [variants[0]] + rest, most);
      FirstVariantLength(glossary, variants[1..], rest, most);
    }
  }

  /** Looking only at phrases of at most `most` words misses nothing when no entry is longer. */
  lemma {:induction false} CapLosesNothing(glossary: Glossary, tokens: seq<Text>, i: nat, n: nat, most: nat)
    requires i + n <= |tokens| && NoneLonger(glossary, most)
    ensures LongestAt(glossary, tokens, i, n) == LongestAt(glossary, tokens, i, if n < most then n else most)
  {
    if n > most {
      FirstVariantLength(glossary, Variants(tokens[i]), tokens[i + 1..i + n], most);
      CapLosesNothing(glossary, tokens, i, n - 1, most);
    }
  }

  // The index.

  type Phrases = map<Text, (Text, Entry)>

  function Looked(phrases: Phrases, phrase: Text): Option<(Text, Entry)> {
    if phrase in phrases then Some(phrases[phrase]) else None
  }

  predicate AllWordLike(words: seq<Text>) {
    forall w :: w in words ==> WordLike(w)
  }

  /** The dictionary answers, for the join of any words, what the naive search answers. */
  ghost predicate Answers(phrases: Phrases, glossary: Glossary) {
    forall words: seq<Text> :: AllWordLike(words) ==> Looked(phrases, Phrase(words)) == EntryFor(glossary, words)
  }

  lemma AddEntry(phrases: Phrases, glossary: Glossary, added: (Text, Entry))
    requires Answers(phrases, glossary)
    ensures Answers(if Indexable(added.0) then phrases[KeyOf(added.0) := added] else phrases, glossary + [added])
  {
    var next := if Indexable(added.0) then phrases[KeyOf(added.0) := added] else phrases;
    WordsAreClean(added.0);
    forall words: seq<Text> | AllWordLike(words)
      ensures Looked(next, Phrase(words)) == EntryFor(glossary + [added], words)
    {
      assert (glossary + [added])[..|glossary|] == glossary;
      assert Looked(phrases, Phrase(words)) == EntryFor(glossary, words);
      if Phrase(words) == KeyOf(added.0) { PhraseInjective(words, Words(added.0)); }
    }
  }

  lemma EmptyAnswers(glossary: Glossary)
    requires Answers(map[], glossary)
    ensures NoneIndexable(glossary)
  {
    forall e | e in glossary ensures !Indexable(e.0) {
      if Indexable(e.0) {
        WordsAreClean(e.0);
        assert Looked(map[], Phrase(Words(e.0))) == EntryFor(glossary, Words(e.0));
        EntryForKey(glossary, e.0);
      }
    }
  }

  /** With `hits` found before position `i`, what is left of the scan gives `all` in the end. */
  predicate Finding(glossary: Glossary, tokens: seq<Text>, i: nat, hits: map<Text, Entry>, all: map<Text, Entry>) {
    i <= |tokens| && Collect(Scan(glossary, tokens, i), hits) == all
  }

  lemma FindingStep(glossary: Glossary, tokens: seq<Text>, i: nat, hits: map<Text, Entry>, all: map<Text, Entry>, matched: Option<Hit>)
    requires i < |tokens| && Finding(glossary, tokens, i, hits, all) && matched == LongestAt(glossary, tokens, i, |tokens| - i)
    ensures matched.None? ==> Finding(glossary, tokens, i + 1, hits, all)
    ensures matched.Some? ==>
              0 < matched.value.length
              && Finding(glossary, tokens, i + matched.value.length, hits[matched.value.key := matched.value.entry], all)
  {
    ScanStep(glossary, tokens, i);
  }

  lemma FindingEnds(glossary: Glossary, tokens: seq<Text>, hits: map<Text, Entry>, all: map<Text, Entry>)
    requires Finding(glossary, tokens, |tokens|, hits, all)
    ensures hits == all
  {
    assert Scan(glossary, tokens, |tokens|) == [];
  }

  class Index {
    var byPhrase: Phrases
    var maxWords: nat

    ghost predicate Valid(glossary: Glossary)
      reads this
    {
      Answers(byPhrase, glossary) && NoneLonger(glossary, maxWords)
    }

    constructor (glossary: Glossary)
      ensures Valid(glossary)
    {
      byPhrase, maxWords := map[], 1;
      new;
      var i := 0;
      while i < |glossary|
        invariant i <= |glossary| && maxWords >= 1
        invariant Answers(byPhrase, glossary[..i])
        invariant NoneLonger(glossary[..i], maxWords)
      {
        var (key, entry) := glossary[i];
        assert glossary[..i + 1] == glossary[..i] + [(key, entry)];
        AddEntry(byPhrase, glossary[..i], (key, entry));
        var phrase := KeyOf(key);
        var n := |Words(key)|;
        if n != 0 && n <= MAX_WORDS {
          byPhrase := byPhrase[phrase := (key, entry)];
          if n > maxWords { maxWords := n; }
        }
        i := i + 1;
      }
      assert glossary[..i] == glossary;
    }

    method Find(ghost glossary: Glossary, text: Text) returns (hits: map<Text, Entry>)
      requires Valid(glossary)
      ensures hits == Mentioned(glossary, text)
    {
      if byPhrase == map[] || text == [] {
        if text != [] { EmptyAnswers(glossary); }
        NothingMentioned(glossary, text);
        return map[];
      }
      WordsAreClean(text);
      var tokens := SplitWords(text);
      hits := FindTokens(glossary, tokens);
    }

    method FindTokens(ghost glossary: Glossary, tokens: seq<Text>) returns (hits: map<Text, Entry>)
      requires Valid(glossary) && AllWordLike(tokens)
      ensures hits == Collect(Scan(glossary, tokens, 0), map[])
    {
      hits := map[];
      var i := 0;
      ghost var all := Collect(Scan(glossary, tokens, 0), map[]);
      while i < |tokens|
        invariant Finding(glossary, tokens, i, hits, all)
      {
        var matched := LongestMatch(glossary, tokens, i);
        FindingStep(glossary, tokens, i, hits, all, matched);
        if matched.Some? {
          hits := hits[matched.value.key := matched.value.entry];
          i := i + matched.value.length;
        } else {
          i := i + 1;
        }
      }
      FindingEnds(glossary, tokens, hits, all);
    }

    /** The phrase lengths tried at one position: from the longest indexed one down. */
    method LongestMatch(ghost glossary: Glossary, tokens: seq<Text>, i: nat) returns (matched: Option<Hit>)
      requires Valid(glossary) && i < |tokens| && AllWordLike(tokens)
      ensures matched == LongestAt(glossary, tokens, i, |tokens| - i)
    {
      var n := if maxWords < |tokens| - i then maxWords else |tokens| - i;
      CapLosesNothing(glossary, tokens, i, |tokens| - i, maxWords);
      while n > 0
        invariant 0 <= n <= |tokens| - i
        invariant LongestAt(glossary, tokens, i, n) == LongestAt(glossary, tokens, i, |tokens| - i)
      {
        var found := TryVariants(glossary, tokens, i, n);
        if found.Some? { return Some(Hit(i, n, found.value.0, found.value.1)); }
        n := n - 1;
      }
      matched := None;
    }

    /** The inner loop of find: the first variant of the word at `i` that is in the dictionary. */
    method TryVariants(ghost glossary: Glossary, tokens: seq<Text>, i: nat, n: nat) returns (found: Option<(Text, Entry)>)
      requires Valid(glossary) && i < i + n <= |tokens| && AllWordLike(tokens)
      ensures found == PhraseAt(glossary, tokens, i, n)
    {
      var rest := tokens[i + 1..i + n];
      var variants := Variants(tokens[i]);
      assert tokens[i] in tokens;
      StrippedWords(tokens[i], MAX_PREFIXES);
      var v := 0;
      while v < |variants|
        invariant v <= |variants|
        invariant FirstVariant(glossary, variants, rest) == FirstVariant(glossary, variants[v..], rest)
      {
        var words := [variants[v]] + rest;
        assert AllWordLike(words);
        assert Looked(byPhrase, Phrase(words)) == EntryFor(glossary, words);
        if Phrase(words) in byPhrase {
          found := Some(byPhrase[Phrase(words)]);
          return;
        }
        v := v + 1;
      }
      found := None;
    }
  }

  lemma {:induction false} NoEntry(glossary: Glossary, words: seq<Text>)
    requires NoneIndexable(glossary)
    ensures EntryFor(glossary, words).None?
  {
    if glossary != [] { NoEntry(glossary[..|glossary| - 1], words); }
  }

  lemma {:induction false} NoVariant(glossary: Glossary, variants: seq<Text>, rest: seq<Text>)
    requires NoneIndexable(glossary)
    ensures FirstVariant(glossary, variants, rest).None?
  {
    if variants != [] {
      NoEntry(glossary, [variants[0]] + rest);
      NoVariant(glossary, variants[1..], rest);
    }
  }

  lemma {:induction false} NoHits(glossary: Glossary, tokens: seq<Text>, i: nat)
    requires i <= |tokens| && NoneIndexable(glossary)
    ensures Scan(glossary, tokens, i) == []
    decreases |tokens| - i
  {
    if i < |tokens| {
      LongestAtBounds(glossary, tokens, i, |tokens| - i);
      ScanStep(glossary, tokens, i);
      match LongestAt(glossary, tokens, i, |tokens| - i)
      case None => NoHits(glossary, tokens, i + 1);
      case Some(hit) => NoVariant(glossary, Variants(tokens[i]), tokens[i + 1..i + hit.length]);
    }
  }

  lemma NothingMentioned(glossary: Glossary, text: Text)
    requires text == [] || NoneIndexable(glossary)
    ensures Mentioned(glossary, text) == map[]
  {
    if text != [] { NoHits(glossary, Words(text), 0); }
  }

  lemma {:induction false} EntryForKey(glossary: Glossary, key: Text)
    requires Indexable(key) && exists e :: e in glossary && e.0 == key
    ensures EntryFor(glossary, Words(key)).Some? && EntryFor(glossary, Words(key)).value in glossary
    ensures Words(EntryFor(glossary, Words(key)).value.0) == Words(key)
    decreases |glossary|
  {
    var last := glossary[|glossary| - 1];
    if Words(last.0) == Words(key) {
      assert last in glossary;
    } else {
      var e :| e in glossary && e.0 == key;
      assert e in glossary[..|glossary| - 1];
      EntryForKey(glossary[..|glossary| - 1], key);
    }
  }

  /** Every indexed key finds itself: its own text mentions exactly the entry of its words. */
  lemma KeyFindsItself(glossary: Glossary, key: Text)
    requires Indexable(key) && exists e :: e in glossary && e.0 == key
    ensures EntryFor(glossary, Words(key)).Some?
    ensures var found := EntryFor(glossary, Words(key)).value; Mentioned(glossary, key) == map[found.0 := found.1]
  {
    var tokens := Words(key);
    EntryForKey(glossary, key);
    var found := EntryFor(glossary, tokens).value;
    assert [tokens[0]] + tokens[1..|tokens|] == tokens;
    assert Variants(tokens[0])[0] == tokens[0];
    assert PhraseAt(glossary, tokens, 0, |tokens|) == Some(found);
    var hit := Hit(0, |tokens|, found.0, found.1);
    assert LongestAt(glossary, tokens, 0, |tokens|) == Some(hit);
    assert Scan(glossary, tokens, |tokens|) == [];
    assert Scan(glossary, tokens, 0) == [hit] && [hit][1..] == [];
    assert Collect([], map[found.0 := found.1]) == map[found.0 := found.1];
  }
}
