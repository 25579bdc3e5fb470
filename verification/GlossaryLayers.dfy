/** The layers a name's rendering comes from: service-wide rows, rows kept to the chats they were
    seen in, a chat's own overrides, and the chat profile's guesses below them all. */
module GlossaryLayers {
  import opened Wrappers
  import opened GlossaryMatch
  import opened GlossaryIndex
  import opened GlossaryStatus

  // Names that contain one another.

  /** `short` occurs among `long` as consecutive words. */
  ghost predicate Within(short: seq<Text>, long: seq<Text>) {
    exists before, after :: long == before + short + after
  }

  predicate OccursAt(short: seq<Text>, long: seq<Text>, i: nat) {
    i + |short| <= |long| && long[i..i + |short|] == short
  }

  predicate Occurs(short: seq<Text>, long: seq<Text>) {
    exists i: nat :: i <= |long| && OccursAt(short, long, i)
  }

  /** The search the service runs: the shorter list is tried at every position of the longer. */
  predicate Covers(a: Text, b: Text) {
    OverlapAsWords(Words(a), Words(b))
  }

  predicate OverlapAsWords(wa: seq<Text>, wb: seq<Text>) {
    wa != [] && wb != [] && if |wa| <= |wb| then Occurs(wa, wb) else Occurs(wb, wa)
  }

  lemma WithinIff(short: seq<Text>, long: seq<Text>)
    ensures Within(short, long) <==> Occurs(short, long)
  {
    if before, after :| long == before + short + after {
      assert OccursAt(short, long, |before|);
    }
    if i: nat :| i <= |long| && OccursAt(short, long, i) {
      assert long == long[..i] + short + long[i + |short|..];
    }
  }

  lemma WithinLength(short: seq<Text>, long: seq<Text>)
    requires Within(short, long)
    ensures |short| < |long| || short == long
  {
    var before, after :| long == before + short + after;
    if |short| >= |long| { assert before == [] && after == []; }
  }

  /** Two names cover one another exactly when both have words and either one's words lie within the other's. */
  lemma CoversIff(a: Text, b: Text)
    ensures Covers(a, b) <==> Words(a) != [] && Words(b) != [] && (Within(Words(a), Words(b)) || Within(Words(b), Words(a)))
  {
    OverlapIff(Words(a), Words(b));
  }

  lemma OverlapIff(wa: seq<Text>, wb: seq<Text>)
    ensures OverlapAsWords(wa, wb) <==> wa != [] && wb != [] && (Within(wa, wb) || Within(wb, wa))
  {
    WithinIff(wa, wb);
    WithinIff(wb, wa);
    if Within(wb, wa) { WithinLength(wb, wa); }
    if Within(wa, wb) { WithinLength(wa, wb); }
  }

  lemma CoversIsSymmetric(a: Text, b: Text)
    ensures Covers(a, b) <==> Covers(b, a)
  {
    CoversIff(a, b);
    CoversIff(b, a);
  }

  lemma CoversItself(a: Text)
    ensures Covers(a, a) <==> Words(a) != []
  {
    CoversIff(a, a);
    assert Words(a) == [] + Words(a) + [];
  }

  predicate CoveredByAny(key: Text, hits: map<Text, Entry>) {
    exists h :: h in hits && h != [] && Covers(key, h)
  }

  // The tables and what is loaded from them.

  datatype Row = Row(source: Text, language: string, entry: Entry, status: Status, alsoWord: Option<bool>, chats: seq<nat>)

  datatype Override = Override(pair: nat, source: Text, language: string, entry: Entry)

  predicate IsGlobal(row: Row) {
    row.status.Locked? || row.alsoWord == Some(false)
  }

  /** Assignment to a dictionary key: an existing key keeps its place. */
  function Put(glossary: Glossary, key: Text, entry: Entry): Glossary {
    if glossary == [] then [(key, entry)]
    else if glossary[0].0 == key then [(key, entry)] + glossary[1..]
    else [glossary[0]] + Put(glossary[1..], key, entry)
  }

  lemma {:induction false} PutMembers(glossary: Glossary, key: Text, entry: Entry)
    ensures (key, entry) in Put(glossary, key, entry)
    ensures forall e :: e in Put(glossary, key, entry) ==> e == (key, entry) || e in glossary
    ensures forall e :: e in glossary && e.0 != key ==> e in Put(glossary, key, entry)
  {
    if glossary != [] && glossary[0].0 != key { PutMembers(glossary[1..], key, entry); }
  }

  lemma {:induction false} PutTwice(glossary: Glossary, key: Text, entry: Entry)
    ensures Put(Put(glossary, key, entry), key, entry) == Put(glossary, key, entry)
  {
    if glossary != [] && glossary[0].0 != key {
      PutTwice(glossary[1..], key, entry);
      assert Put(glossary, key, entry)[1..] == Put(glossary[1..], key, entry);
    }
  }

  /** A row applies everywhere ... */
  predicate Everywhere(row: Row, language: string) {
    IsGlobal(row) && row.language == language
  }

  /** ... or only in the chats it was seen in. */
  predicate InChat(row: Row, pair: nat, language: string) {
    !IsGlobal(row) && row.language == language && pair in row.chats
  }

  predicate OwnRendering(row: Override, pair: nat, language: string) {
    row.pair == pair && row.language == language
  }

  function GlobalOf(rows: seq<Row>, language: string): Glossary {
    if rows == [] then []
    else
      var rest, row := GlobalOf(rows[..|rows| - 1], language), rows[|rows| - 1];
      if Everywhere(row, language) then Put(rest, row.source, row.entry) else rest
  }

  function ScopedOf(rows: seq<Row>, pair: nat, language: string): Glossary {
    if rows == [] then []
    else
      var rest, row := ScopedOf(rows[..|rows| - 1], pair, language), rows[|rows| - 1];
      if InChat(row, pair, language) then Put(rest, row.source, row.entry) else rest
  }

  function OwnOf(overrides: seq<Override>, pair: nat, language: string): Glossary {
    if overrides == [] then []
    else
      var rest, row := OwnOf(overrides[..|overrides| - 1], pair, language), overrides[|overrides| - 1];
      if OwnRendering(row, pair, language) then Put(rest, row.source, row.entry) else rest
  }

  lemma {:induction false} GlobalRows(rows: seq<Row>, language: string, e: (Text, Entry))
    requires e in GlobalOf(rows, language)
    ensures exists row :: row in rows && Everywhere(row, language) && (row.source, row.entry) == e
  {
    var rest, row := rows[..|rows| - 1], rows[|rows| - 1];
    PutMembers(GlobalOf(rest, language), row.source, row.entry);
    if e in GlobalOf(rest, language) { GlobalRows(rest, language, e); } else { assert row in rows; }
  }

  lemma {:induction false} ScopedRows(rows: seq<Row>, pair: nat, language: string, e: (Text, Entry))
    requires e in ScopedOf(rows, pair, language)
    ensures exists row :: row in rows && InChat(row, pair, language) && (row.source, row.entry) == e
  {
    var rest, row := rows[..|rows| - 1], rows[|rows| - 1];
    PutMembers(ScopedOf(rest, pair, language), row.source, row.entry);
    if e in ScopedOf(rest, pair, language) { ScopedRows(rest, pair, language, e); } else { assert row in rows; }
  }

  lemma {:induction false} OwnRows(overrides: seq<Override>, pair: nat, language: string, e: (Text, Entry))
    requires e in OwnOf(overrides, pair, language)
    ensures exists row :: row in overrides && OwnRendering(row, pair, language) && (row.source, row.entry) == e
  {
    var rest, row := overrides[..|overrides| - 1], overrides[|overrides| - 1];
    PutMembers(OwnOf(rest, pair, language), row.source, row.entry);
    if e in OwnOf(rest, pair, language) { OwnRows(rest, pair, language, e); } else { assert row in overrides; }
  }

  // What a message mentions, layer by layer.

  /** The hits of a lookup: the chat's own ones, and below them those that overlap none of its own. */
  function Found(rows: seq<Row>, overrides: seq<Override>, language: string, text: Text, pair: nat): map<Text, Entry> {
    var everywhere := Mentioned(GlobalOf(rows, language), text);
    if pair == 0 then everywhere
    else
      var own := Mentioned(OwnOf(overrides, pair, language), text);
      var below := everywhere + Mentioned(ScopedOf(rows, pair, language), text);
      (map k | k in below && !CoveredByAny(k, own) :: below[k]) + own
  }

  lemma {:induction false} CollectedFrom(glossary: Glossary, hits: seq<Hit>, found: map<Text, Entry>, k: Text)
    requires forall hit :: hit in hits ==> (hit.key, hit.entry) in glossary
    requires k in Collect(hits, found)
    ensures (k, Collect(hits, found)[k]) in glossary || (k in found && found[k] == Collect(hits, found)[k])
  {
    if hits != [] {
      assert hits[0] in hits;
      CollectedFrom(glossary, hits[1..], found[hits[0].key := hits[0].entry], k);
    }
  }

  lemma {:induction false} EntryForIsEntry(glossary: Glossary, words: seq<Text>)
    ensures EntryFor(glossary, words).Some? ==> EntryFor(glossary, words).value in glossary
  {
    if glossary != [] { EntryForIsEntry(glossary[..|glossary| - 1], words); }
  }

  lemma {:induction false} VariantIsEntry(glossary: Glossary, variants: seq<Text>, rest: seq<Text>)
    ensures FirstVariant(glossary, variants, rest).Some? ==> FirstVariant(glossary, variants, rest).value in glossary
  {
    if variants != [] {
      EntryForIsEntry(glossary, [variants[0]] + rest);
      VariantIsEntry(glossary, variants[1..], rest);
    }
  }

  lemma MentionedFrom(glossary: Glossary, text: Text, k: Text)
    requires k in Mentioned(glossary, text)
    ensures (k, Mentioned(glossary, text)[k]) in glossary
  {
    var tokens := Words(text);
    ScanIsLongest(glossary, tokens, 0);
    forall hit | hit in Scan(glossary, tokens, 0) ensures (hit.key, hit.entry) in glossary {
      assert IsLongest(glossary, tokens, hit);
      VariantIsEntry(glossary, Variants(tokens[hit.start]), tokens[hit.start + 1..hit.start + hit.length]);
    }
    CollectedFrom(glossary, Scan(glossary, tokens, 0), map[], k);
  }

  /** Every hit of the chat's own is kept, and no other hit's words overlap it either way round. */
  lemma OverridesComeFirst(rows: seq<Row>, overrides: seq<Override>, language: string, text: Text, pair: nat)
    requires pair != 0
    ensures var own, hits := Mentioned(OwnOf(overrides, pair, language), text), Found(rows, overrides, language, text, pair);
            && (forall k :: k in own ==> k in hits && hits[k] == own[k])
            && (forall k, o :: k in hits && k !in own && o in own ==>
                  !(Words(k) != [] && Within(Words(k), Words(o))) && !(Words(o) != [] && Within(Words(o), Words(k))))
  {
    var own, hits := Mentioned(OwnOf(overrides, pair, language), text), Found(rows, overrides, language, text, pair);
    forall k, o | k in hits && k !in own && o in own
      ensures !(Words(k) != [] && Within(Words(k), Words(o))) && !(Words(o) != [] && Within(Words(o), Words(k)))
    {
      MentionedHasWords(OwnOf(overrides, pair, language), text, o);
      FoundHasWords(rows, overrides, language, text, pair, k);
      assert !CoveredByAny(k, own);
      assert o != [] by { assert Words([]) == []; }
      assert !Covers(k, o);
      CoversIff(k, o);
    }
  }

  /** A hit was put in the index, so its key has words. */
  lemma MentionedHasWords(glossary: Glossary, text: Text, k: Text)
    requires k in Mentioned(glossary, text)
    ensures Words(k) != []
  {
    ScannedIsIndexable(glossary, Words(text));
    CollectedFrom(OnlyIndexable(glossary), Scan(glossary, Words(text), 0), map[], k);
    OnlyIndexableMembers(glossary);
  }

  lemma ScannedIsIndexable(glossary: Glossary, tokens: seq<Text>)
    ensures forall hit :: hit in Scan(glossary, tokens, 0) ==> (hit.key, hit.entry) in OnlyIndexable(glossary)
  {
    ScanIsLongest(glossary, tokens, 0);
    forall hit | hit in Scan(glossary, tokens, 0) ensures (hit.key, hit.entry) in OnlyIndexable(glossary) {
      assert IsLongest(glossary, tokens, hit);
      PhraseIsIndexable(glossary, tokens, hit.start, hit.length);
    }
  }

  lemma PhraseIsIndexable(glossary: Glossary, tokens: seq<Text>, i: nat, n: nat)
    requires i < i + n <= |tokens|
    ensures PhraseAt(glossary, tokens, i, n).Some? ==> PhraseAt(glossary, tokens, i, n).value in OnlyIndexable(glossary)
  {
    VariantIsIndexable(glossary, Variants(tokens[i]), tokens[i + 1..i + n]);
  }

  function OnlyIndexable(glossary: Glossary): Glossary {
    if glossary == [] then []
    else (if Indexable(glossary[0].0) then [glossary[0]] else []) + OnlyIndexable(glossary[1..])
  }

  lemma {:induction false} OnlyIndexableMembers(glossary: Glossary)
    ensures forall e :: e in OnlyIndexable(glossary) <==> e in glossary && Indexable(e.0)
  {
    if glossary != [] { OnlyIndexableMembers(glossary[1..]); }
  }

  lemma {:induction false} EntryForIsIndexable(glossary: Glossary, words: seq<Text>)
    ensures var found := EntryFor(glossary, words); found.Some? ==> Indexable(found.value.0)
  {
    if glossary != [] { EntryForIsIndexable(glossary[..|glossary| - 1], words); }
  }

  lemma {:induction false} VariantIsIndexable(glossary: Glossary, variants: seq<Text>, rest: seq<Text>)
    ensures var found := FirstVariant(glossary, variants, rest);
            found.Some? ==> found.value in OnlyIndexable(glossary)
  {
    if variants != [] {
      EntryForIsEntry(glossary, [variants[0]] + rest);
      EntryForIsIndexable(glossary, [variants[0]] + rest);
      OnlyIndexableMembers(glossary);
      VariantIsIndexable(glossary, variants[1..], rest);
    }
  }

  lemma FoundHasWords(rows: seq<Row>, overrides: seq<Override>, language: string, text: Text, pair: nat, k: Text)
    requires k in Found(rows, overrides, language, text, pair)
    ensures Words(k) != []
  {
    if k in Mentioned(GlobalOf(rows, language), text) {
      MentionedHasWords(GlobalOf(rows, language), text, k);
    } else if k in Mentioned(OwnOf(overrides, pair, language), text) {
      MentionedHasWords(OwnOf(overrides, pair, language), text, k);
    } else {
      MentionedHasWords(ScopedOf(rows, pair, language), text, k);
    }
  }

  /** A hit that no override of the chat gives comes from a row of the language that is locked, or known
      to be no other word, or was seen in this very chat; outside any chat only the first two do: a
      name that is also a word stays in its chats. */
  lemma NamesStayInTheirChats(rows: seq<Row>, overrides: seq<Override>, language: string, text: Text, pair: nat, k: Text)
    requires k in Found(rows, overrides, language, text, pair)
    ensures var e := (k, Found(rows, overrides, language, text, pair)[k]);
            || (exists row :: row in rows && row.language == language && (row.source, row.entry) == e
                  && (row.status == Locked || row.alsoWord == Some(false) || (pair != 0 && pair in row.chats)))
            || (pair != 0 && exists row :: row in overrides && row.pair == pair && row.language == language && (row.source, row.entry) == e)
  {
    var everywhere := Mentioned(GlobalOf(rows, language), text);
    var scoped := Mentioned(ScopedOf(rows, pair, language), text);
    var own := Mentioned(OwnOf(overrides, pair, language), text);
    if pair != 0 && k in own {
      MentionedFrom(OwnOf(overrides, pair, language), text, k);
      OwnRows(overrides, pair, language, (k, own[k]));
    } else if pair != 0 && k in scoped {
      MentionedFrom(ScopedOf(rows, pair, language), text, k);
      ScopedRows(rows, pair, language, (k, scoped[k]));
    } else {
      MentionedFrom(GlobalOf(rows, language), text, k);
      GlobalRows(rows, language, (k, everywhere[k]));
    }
  }

  /** The other way round: a row that is locked or known to be no other word is searched in every chat
      and in none ... */
  lemma {:induction false} UnscopedRowsReachAll(rows: seq<Row>, language: string, i: nat)
    requires i < |rows| && rows[i].language == language && (rows[i].status == Locked || rows[i].alsoWord == Some(false))
    requires forall j :: i < j < |rows| && rows[j].language == language && rows[j].source == rows[i].source ==>
               rows[j].status != Locked && rows[j].alsoWord != Some(false)
    ensures (rows[i].source, rows[i].entry) in GlobalOf(rows, language)
  {
    var rest, row := rows[..|rows| - 1], rows[|rows| - 1];
    PutMembers(GlobalOf(rest, language), row.source, row.entry);
    if i < |rest| { UnscopedRowsReachAll(rest, language, i); }
  }

  /** ... any other row in the chats it was seen in, whatever its mark says ... */
  lemma {:induction false} ScopedRowsReachTheirChats(rows: seq<Row>, pair: nat, language: string, i: nat)
    requires i < |rows| && rows[i].language == language && rows[i].status != Locked && rows[i].alsoWord != Some(false)
    requires pair in rows[i].chats
    requires forall j :: i < j < |rows| && rows[j].language == language && rows[j].source == rows[i].source ==>
               rows[j].status == Locked || rows[j].alsoWord == Some(false) || pair !in rows[j].chats
    ensures (rows[i].source, rows[i].entry) in ScopedOf(rows, pair, language)
  {
    var rest, row := rows[..|rows| - 1], rows[|rows| - 1];
    PutMembers(ScopedOf(rest, pair, language), row.source, row.entry);
    if i < |rest| { ScopedRowsReachTheirChats(rest, pair, language, i); }
  }

  /** ... and an override in its chat; each unless a later such row has its source. */
  lemma {:induction false} OverridesReachTheirChat(overrides: seq<Override>, i: nat)
    requires i < |overrides|
    requires forall j :: i < j < |overrides| && overrides[j].pair == overrides[i].pair && overrides[j].language == overrides[i].language ==>
               overrides[j].source != overrides[i].source
    ensures (overrides[i].source, overrides[i].entry) in OwnOf(overrides, overrides[i].pair, overrides[i].language)
  {
    var rest, row, pair, language := overrides[..|overrides| - 1], overrides[|overrides| - 1], overrides[i].pair, overrides[i].language;
    PutMembers(OwnOf(rest, pair, language), row.source, row.entry);
    if i < |rest| { OverridesReachTheirChat(rest, i); }
  }

  /** Two names have words in common, one's lying within the other's. */
  ghost predicate Overlap(a: Text, b: Text) {
    Within(Words(a), Words(b)) || Within(Words(b), Words(a))
  }

  /** A lookup in a chat finds exactly the chat's own hits, and of the service-wide and the chat-scoped
      ones those that overlap none of them; a scoped rendering wins over a service-wide one.  Outside any
      chat it finds the service-wide hits. */
  lemma FoundIff(rows: seq<Row>, overrides: seq<Override>, language: string, text: Text, pair: nat, k: Text)
    ensures pair == 0 ==> Found(rows, overrides, language, text, pair) == Mentioned(GlobalOf(rows, language), text)
    ensures var everywhere, scoped := Mentioned(GlobalOf(rows, language), text), Mentioned(ScopedOf(rows, pair, language), text);
            var own, hits := Mentioned(OwnOf(overrides, pair, language), text), Found(rows, overrides, language, text, pair);
            pair != 0 ==>
            && (k in hits <==> k in own || ((k in everywhere || k in scoped) && forall o :: o in own ==> !Overlap(k, o)))
            && (k in hits ==> hits[k] == if k in own then own[k] else if k in scoped then scoped[k] else everywhere[k])
  {
    var everywhere, scoped := Mentioned(GlobalOf(rows, language), text), Mentioned(ScopedOf(rows, pair, language), text);
    var own := Mentioned(OwnOf(overrides, pair, language), text);
    if k in everywhere || k in scoped {
      if k in everywhere { MentionedHasWords(GlobalOf(rows, language), text, k); }
      if k in scoped { MentionedHasWords(ScopedOf(rows, pair, language), text, k); }
      forall o | o in own ensures (o != [] && Covers(k, o)) <==> Overlap(k, o) {
        MentionedHasWords(OwnOf(overrides, pair, language), text, o);
        assert o != [] by { assert Words([]) == []; }
        CoversIff(k, o);
      }
    }
  }

  // The service: dictionaries of glossaries, reloaded from the tables.

  function GlossaryAt<K>(table: map<K, Glossary>, k: K): Glossary {
    if k in table then table[k] else []
  }

  function FiledAt(before: seq<Row>, row: Row, chats: seq<nat>, pair: nat, language: string): Glossary {
    var glossary := ScopedOf(before, pair, language);
    if language == row.language && pair in chats then Put(glossary, row.source, row.entry) else glossary
  }

  /** `row` has joined the rows of `before` in each of `chats`. */
  ghost predicate Filed(scoped: map<(nat, string), Glossary>, before: seq<Row>, row: Row, chats: seq<nat>) {
    forall pair, language :: GlossaryAt(scoped, (pair, language)) == FiledAt(before, row, chats, pair, language)
  }

  lemma FileOne(scoped: map<(nat, string), Glossary>, before: seq<Row>, row: Row, chats: seq<nat>, chat: nat)
    requires Filed(scoped, before, row, chats)
    ensures var at := (chat, row.language);
            Filed(scoped[at := Put(GlossaryAt(scoped, at), row.source, row.entry)], before, row, chats + [chat])
  {
    var at := (chat, row.language);
    PutTwice(ScopedOf(before, chat, row.language), row.source, row.entry);
    assert GlossaryAt(scoped, at) == FiledAt(before, row, chats, chat, row.language);
  }

  class Service {
    var byLanguage: map<string, Glossary>
    var scoped: map<(nat, string), Glossary>
    var own: map<(nat, string), Glossary>

    ghost predicate Loaded(rows: seq<Row>, overrides: seq<Override>)
      reads this
    {
      && (forall language :: GlossaryAt(byLanguage, language) == GlobalOf(rows, language))
      && (forall pair, language :: GlossaryAt(scoped, (pair, language)) == ScopedOf(rows, pair, language))
      && (forall pair, language :: GlossaryAt(own, (pair, language)) == OwnOf(overrides, pair, language))
    }

    constructor ()
      ensures Loaded([], [])
    {
      byLanguage, scoped, own := map[], map[], map[];
    }

    method Refresh(rows: seq<Row>, overrides: seq<Override>)
      modifies this
      ensures Loaded(rows, overrides)
    {
      byLanguage, scoped, own := map[], map[], map[];
      var i := 0;
      while i < |rows|
        invariant i <= |rows| && own == map[]
        invariant forall language :: GlossaryAt(byLanguage, language) == GlobalOf(rows[..i], language)
        invariant forall pair, language :: GlossaryAt(scoped, (pair, language)) == ScopedOf(rows[..i], pair, language)
      {
        var row := rows[i];
        assert rows[..i + 1][..i] == rows[..i];
        if IsGlobal(row) {
          byLanguage := byLanguage[row.language := Put(GlossaryAt(byLanguage, row.language), row.source, row.entry)];
        } else {
          Scope(row, rows[..i]);
        }
        i := i + 1;
      }
      assert rows[..i] == rows;
      LoadOverrides(overrides);
    }

    /** One row is filed under each of its chats. */
    method Scope(row: Row, ghost before: seq<Row>)
      requires !IsGlobal(row)
      requires forall pair, language :: GlossaryAt(scoped, (pair, language)) == ScopedOf(before, pair, language)
      modifies this`scoped
      ensures forall pair, language :: GlossaryAt(scoped, (pair, language)) == ScopedOf(before + [row], pair, language)
    {
      var c := 0;
      assert (before + [row])[..|before|] == before;
      while c < |row.chats|
        invariant c <= |row.chats| && Filed(scoped, before, row, row.chats[..c])
      {
        var at := (row.chats[c], row.language);
        FileOne(scoped, before, row, row.chats[..c], row.chats[c]);
        scoped := scoped[at := Put(GlossaryAt(scoped, at), row.source, row.entry)];
        assert row.chats[..c + 1] == row.chats[..c] + [row.chats[c]];
        c := c + 1;
      }
      assert row.chats[..c] == row.chats;
    }

    method LoadOverrides(overrides: seq<Override>)
      requires own == map[]
      modifies this`own
      ensures forall pair, language :: GlossaryAt(own, (pair, language)) == OwnOf(overrides, pair, language)
    {
      var i := 0;
      while i < |overrides|
        invariant i <= |overrides|
        invariant forall pair, language :: GlossaryAt(own, (pair, language)) == OwnOf(overrides[..i], pair, language)
      {
        var row := overrides[i];
        assert overrides[..i + 1][..i] == overrides[..i];
        var at := (row.pair, row.language);
        own := own[at := Put(GlossaryAt(own, at), row.source, row.entry)];
        i := i + 1;
      }
      assert overrides[..i] == overrides;
    }

    method Lookup(ghost rows: seq<Row>, ghost overrides: seq<Override>, language: string, text: Text, pair: nat)
      returns (hits: map<Text, Entry>)
      requires Loaded(rows, overrides)
      ensures hits == Found(rows, overrides, language, text, pair)
    {
      var everywhere, inChats, byChat := byLanguage, scoped, own;
      assert GlossaryAt(everywhere, language) == GlobalOf(rows, language);
      assert GlossaryAt(inChats, (pair, language)) == ScopedOf(rows, pair, language);
      assert GlossaryAt(byChat, (pair, language)) == OwnOf(overrides, pair, language);
      hits := Search(everywhere, language, text);
      if pair == 0 { return; }
      var more := Search(inChats, (pair, language), text);
      hits := hits + more;
      var mine := Search(byChat, (pair, language), text);
      if mine != map[] {
        hits := map k | k in hits && !CoveredByAny(k, mine) :: hits[k];
        hits := hits + mine;
      }
    }

    method Search<K>(table: map<K, Glossary>, k: K, text: Text) returns (hits: map<Text, Entry>)
      ensures hits == Mentioned(GlossaryAt(table, k), text)
    {
      if k !in table {
        NothingMentioned([], text);
        return map[];
      }
      var index := new Index(table[k]);
      hits := index.Find(table[k], text);
    }
  }

  // Below the service: the chat profile.

  datatype Profile = Profile(glossary: map<Text, Entry>, members: map<Text, string>, description: string, tone: string)

  function WithGlossary(profile: Profile, hits: map<Text, Entry>): Profile {
    if hits == map[] then profile
    else
      var kept := map k | k in profile.glossary && !CoveredByAny(k, hits) :: profile.glossary[k];
      profile.(glossary := kept + hits, members := map m | m in profile.members && m !in hits :: profile.members[m])
  }

  /** Every hit is there as the service renders it; a guess of the chat's stays, unchanged, exactly
      when no hit overlaps it as whole words; the members stay but for those that are hits. */
  lemma HitsReplaceGuesses(profile: Profile, hits: map<Text, Entry>)
    requires forall h :: h in hits ==> Words(h) != []
    ensures var merged := WithGlossary(profile, hits);
            && (forall h :: h in hits ==> h in merged.glossary && merged.glossary[h] == hits[h] && h !in merged.members)
            && (forall k :: k in merged.glossary && k !in hits ==> k in profile.glossary && merged.glossary[k] == profile.glossary[k])
            && (forall k :: k in profile.glossary && k !in hits ==>
                  (k in merged.glossary <==>
                   Words(k) == [] || forall h :: h in hits ==> !Within(Words(k), Words(h)) && !Within(Words(h), Words(k))))
            && (forall m :: m in merged.members <==> m in profile.members && m !in hits)
            && (forall m :: m in merged.members ==> merged.members[m] == profile.members[m])
            && merged.description == profile.description && merged.tone == profile.tone
  {
    var merged := WithGlossary(profile, hits);
    forall k | k in profile.glossary && k !in hits
      ensures k in merged.glossary <==>
              Words(k) == [] || forall h :: h in hits ==> !Within(Words(k), Words(h)) && !Within(Words(h), Words(k))
    {
      forall h | h in hits
        ensures (h != [] && Covers(k, h)) <==> Words(k) != [] && (Within(Words(k), Words(h)) || Within(Words(h), Words(k)))
      {
        CoversIff(k, h);
        assert Words([]) == [];
      }
    }
  }

  lemma WithGlossaryTwice(profile: Profile, hits: map<Text, Entry>)
    ensures WithGlossary(WithGlossary(profile, hits), hits) == WithGlossary(profile, hits)
  {
    if hits != map[] {
      var once := WithGlossary(profile, hits);
      var kept := map k | k in profile.glossary && !CoveredByAny(k, hits) :: profile.glossary[k];
      var keptAgain := map k | k in once.glossary && !CoveredByAny(k, hits) :: once.glossary[k];
      assert once.glossary == kept + hits;
      assert keptAgain + hits == kept + hits;
      assert (map m | m in once.members && m !in hits :: once.members[m]) == once.members;
    }
  }

  /** The prompt of a chat: whatever renders the same words as an override that the message
      mentions is that override, wherever it came from. */
  lemma OverrideIsTheOnlyRendering(
    rows: seq<Row>, overrides: seq<Override>, language: string, text: Text, pair: nat, profile: Profile, o: Text, k: Text)
    requires pair != 0 && o in Mentioned(OwnOf(overrides, pair, language), text)
    requires var prompt := WithGlossary(profile, Found(rows, overrides, language, text, pair)).glossary;
             k in prompt && Words(k) != [] && (Within(Words(k), Words(o)) || Within(Words(o), Words(k)))
    ensures var own := Mentioned(OwnOf(overrides, pair, language), text);
            var prompt := WithGlossary(profile, Found(rows, overrides, language, text, pair)).glossary;
            k in own && prompt[k] == own[k]
  {
    var hits := Found(rows, overrides, language, text, pair);
    OverridesComeFirst(rows, overrides, language, text, pair);
    MentionedHasWords(OwnOf(overrides, pair, language), text, o);
    forall h | h in hits ensures Words(h) != [] { FoundHasWords(rows, overrides, language, text, pair, h); }
    HitsReplaceGuesses(profile, hits);
  }
}
