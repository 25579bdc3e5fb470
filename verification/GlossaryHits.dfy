/** What a hit is, told from the glossary, the words and the rules alone: which entry answers for some
    words, which forms of a word are tried, and what a text mentions. */
module GlossaryHits {
  import opened Wrappers
  import opened GlossaryMatch
  import opened GlossaryWords
  import opened GlossaryIndex

  /** One of the seven letters Hebrew glues onto a word: vav, he, bet, lamed, mem, shin, kaf. */
  predicate IsPrefixLetter(c: Char) {
    c in {Hebrew(5), Hebrew(4), Hebrew(1), Hebrew(12), Hebrew(14), Hebrew(25), Hebrew(11)}
  }

  lemma PrefixLetters(c: Char)
    ensures c.Hebrew? && c.n in PREFIXES <==> IsPrefixLetter(c)
  {
  }

  /** The forms of a word that are tried, in order: the word, and without one or two prefix letters in
      front while at least two characters are left. */
  lemma VariantsAre(word: Text)
    ensures var forms := Variants(word);
            && 1 <= |forms| <= 3 && forms[0] == word
            && (|forms| > 1 <==> |word| >= 3 && IsPrefixLetter(word[0]))
            && (|forms| > 2 <==> |word| >= 4 && IsPrefixLetter(word[0]) && IsPrefixLetter(word[1]))
            && (|forms| > 1 ==> forms[1] == word[1..])
            && (|forms| > 2 ==> forms[2] == word[2..])
  {
    if word != [] { PrefixLetters(word[0]); }
    if |word| > 1 { PrefixLetters(word[1]); }
    if |word| >= 3 {
      var once := word[1..];
      assert once[0] == word[1] && once[1..] == word[2..];
      assert Stripped(once, 1) == if |once| >= 3 && once[0].Hebrew? && once[0].n in PREFIXES then [once[1..]] else [];
    }
  }

  /** `i` is the place of the last key with exactly these words. */
  ghost predicate LastWith(glossary: Glossary, words: seq<Text>, i: nat) {
    && i < |glossary| && Words(glossary[i].0) == words
    && forall j :: i < j < |glossary| ==> Words(glossary[j].0) != words
  }

  /** Of the keys with exactly these words, from one to four of them, the last one answers. */
  lemma {:induction false} EntryForIff(glossary: Glossary, words: seq<Text>)
    ensures match EntryFor(glossary, words)
            case Some(e) => 1 <= |words| <= 4 && exists i: nat :: LastWith(glossary, words, i) && glossary[i] == e
            case None => 1 <= |words| <= 4 ==> forall i :: 0 <= i < |glossary| ==> Words(glossary[i].0) != words
  {
    if glossary != [] {
      var rest, last := glossary[..|glossary| - 1], glossary[|glossary| - 1];
      EntryForIff(rest, words);
      if Indexable(last.0) && Words(last.0) == words {
        assert LastWith(glossary, words, |glossary| - 1);
      } else if EntryFor(rest, words).Some? {
        var i: nat :| LastWith(rest, words, i) && rest[i] == EntryFor(rest, words).value;
        assert LastWith(glossary, words, i);
      }
    }
  }

  /** The words from `i` on, the first in its form number `v`. */
  function Form(tokens: seq<Text>, i: nat, n: nat, v: nat): seq<Text>
    requires i < i + n <= |tokens| && v < |Variants(tokens[i])|
  {
    [Variants(tokens[i])[v]] + tokens[i + 1..i + n]
  }

  lemma {:induction false} FirstVariantIff(glossary: Glossary, variants: seq<Text>, rest: seq<Text>)
    ensures match FirstVariant(glossary, variants, rest)
            case Some(e) => exists v: nat :: v < |variants| && EntryFor(glossary, [variants[v]] + rest) == Some(e)
                              && forall u :: 0 <= u < v ==> EntryFor(glossary, [variants[u]] + rest).None?
            case None => forall v :: 0 <= v < |variants| ==> EntryFor(glossary, [variants[v]] + rest).None?
  {
    if variants != [] && EntryFor(glossary, [variants[0]] + rest).None? {
      FirstVariantIff(glossary, variants[1..], rest);
      match FirstVariant(glossary, variants[1..], rest)
      case Some(e) =>
        var v: nat :| v < |variants| - 1 && EntryFor(glossary, [variants[1..][v]] + rest) == Some(e)
                      && forall u :: 0 <= u < v ==> EntryFor(glossary, [variants[1..][u]] + rest).None?;
        forall u | 0 <= u < v + 1 ensures EntryFor(glossary, [variants[u]] + rest).None? {
          if u > 0 { assert variants[u] == variants[1..][u - 1]; }
        }
        assert variants[v + 1] == variants[1..][v];
      case None =>
        forall v | 0 <= v < |variants| ensures EntryFor(glossary, [variants[v]] + rest).None? {
          if v > 0 { assert variants[v] == variants[1..][v - 1]; }
        }
    }
  }

  /** A phrase stands at `i` when some form of the word there and the words after it are a key's: the
      word's own form first, then the one with fewer letters stripped. */
  lemma PhraseAtIff(glossary: Glossary, tokens: seq<Text>, i: nat, n: nat)
    requires i < i + n <= |tokens|
    ensures match PhraseAt(glossary, tokens, i, n)
            case Some(e) => exists v: nat :: v < |Variants(tokens[i])| && EntryFor(glossary, Form(tokens, i, n, v)) == Some(e)
                              && forall u :: 0 <= u < v ==> EntryFor(glossary, Form(tokens, i, n, u)).None?
            case None => forall v :: 0 <= v < |Variants(tokens[i])| ==> EntryFor(glossary, Form(tokens, i, n, v)).None?
  {
    FirstVariantIff(glossary, Variants(tokens[i]), tokens[i + 1..i + n]);
    assert forall v :: 0 <= v < |Variants(tokens[i])| ==> Form(tokens, i, n, v) == [Variants(tokens[i])[v]] + tokens[i + 1..i + n];
  }

  lemma {:induction false} CollectIff(hits: seq<Hit>, found: map<Text, Entry>, k: Text)
    ensures k in Collect(hits, found) <==> k in found || exists h :: h in hits && h.key == k
    ensures k in Collect(hits, found) ==>
              (k in found && Collect(hits, found)[k] == found[k]) || exists h :: h in hits && h.key == k && h.entry == Collect(hits, found)[k]
  {
    if hits != [] {
      CollectIff(hits[1..], found[hits[0].key := hits[0].entry], k);
      assert hits[0] in hits && forall h :: h in hits <==> h == hits[0] || h in hits[1..];
    }
  }

  /** A text mentions the keys of its scan's spans, each with the entry of a span. */
  lemma MentionedIff(glossary: Glossary, text: Text, k: Text)
    ensures var hits, mentioned := Scan(glossary, Words(text), 0), Mentioned(glossary, text);
            && (k in mentioned <==> exists h :: h in hits && h.key == k)
            && (k in mentioned ==> exists h :: h in hits && h.key == k && h.entry == mentioned[k])
  {
    CollectIff(Scan(glossary, Words(text), 0), map[], k);
  }

  /** Case, niqqud, the form of quote marks and hyphens for spaces make no difference to what a text
      mentions; and a text that looks like an indexed key mentions its entry and nothing else. */
  lemma LookAlikesAreFound(glossary: Glossary, key: Text, text: Text)
    requires LookAlike(key, text)
    ensures Mentioned(glossary, text) == Mentioned(glossary, key)
    ensures Indexable(key) && (exists e :: e in glossary && e.0 == key) ==>
              EntryFor(glossary, Words(key)).Some?
              && var found := EntryFor(glossary, Words(key)).value; Mentioned(glossary, text) == map[found.0 := found.1]
  {
    LookAlikesShareAKey(key, text);
    if Indexable(key) && exists e :: e in glossary && e.0 == key { KeyFindsItself(glossary, key); }
  }
}
