/** Finding glossary names in a message: normalisation, words, and the indexed longest-phrase scan
    against a naive one.  Characters come from a small alphabet with the classes the matcher
    tells apart; case folding is one letter to one letter. */
module GlossaryMatch {
  import opened Wrappers

  /** Hebrew letters are numbered from alef (0) to tav (26), final forms included. */
  datatype Char =
    | Hebrew(n: nat)
    | Letter(n: nat, upper: bool)
    | Digit(n: nat)
    | Underscore
    | Geresh
    | Gershayim
    | SingleQuote        // ' and its typographic forms
    | DoubleQuote
    | Niqqud
    | Dash               // maqaf, hyphens, slash
    | Space
    | Other

  type Text = seq<Char>

  const PREFIXES: set<nat> := {5, 4, 1, 12, 14, 25, 11}
  const MAX_PREFIXES := 2
  const MIN_STEM := 2
  const MAX_WORDS := 4

  function Fold(c: Char): Char {
    match c
    case Dash => Space
    case DoubleQuote => Gershayim
    case SingleQuote => Geresh
    case Letter(n, _) => Letter(n, false)
    case _ => c
  }

  function Normalize(text: Text): Text {
    if text == [] then []
    else (if text[0].Niqqud? then [] else [Fold(text[0])]) + Normalize(text[1..])
  }

  predicate IsWord(c: Char) {
    c.Hebrew? || c.Letter? || c.Digit? || c.Underscore? || c.Geresh? || c.Gershayim?
  }

  predicate IsQuote(c: Char) {
    c.Geresh? || c.Gershayim?
  }

  predicate IsGershayim(c: Char) {
    c.Gershayim?
  }

  predicate IsBar(c: Char) {
    c.Underscore?
  }

  function TrimLeft(w: Text, drop: Char -> bool): Text {
    if w != [] && drop(w[0]) then TrimLeft(w[1..], drop) else w
  }

  function TrimRight(w: Text, drop: Char -> bool): Text {
    if w != [] && drop(w[|w| - 1]) then TrimRight(w[..|w| - 1], drop) else w
  }

  /** lstrip quotes, rstrip gershayim, strip underscores. */
  function Trim(w: Text): Text {
    TrimRight(TrimLeft(Unquoted(w), IsBar), IsBar)
  }

  /** A token after the quote marks in front and the gershayim at the end are stripped. */
  function Unquoted(w: Text): Text {
    TrimRight(TrimLeft(w, IsQuote), IsGershayim)
  }

  /** The length of the run of word characters a text starts with. */
  function RunLength(s: Text): (n: nat)
    ensures n <= |s| && (forall i :: 0 <= i < n ==> IsWord(s[i])) && (n < |s| ==> !IsWord(s[n]))
  {
    if s == [] || !IsWord(s[0]) then 0 else 1 + RunLength(s[1..])
  }

  /** findall of the word pattern. */
  function Tokens(s: Text): seq<Text>
    decreases |s|
  {
    if s == [] then []
    else if !IsWord(s[0]) then Tokens(s[1..])
    else [s[..RunLength(s)]] + Tokens(s[RunLength(s)..])
  }

  function TrimAll(tokens: seq<Text>): seq<Text> {
    if tokens == [] then []
    else (if Trim(tokens[0]) == [] then [] else [Trim(tokens[0])]) + TrimAll(tokens[1..])
  }

  function Words(text: Text): seq<Text> {
    TrimAll(Tokens(Normalize(text)))
  }

  /** " ".join */
  function Phrase(words: seq<Text>): Text {
    Join(words, [Space])
  }

  method SplitWords(text: Text) returns (out: seq<Text>)
    ensures out == Words(text)
  {
    var tokens := Tokens(Normalize(text));
    out := [];
    for i := 0 to |tokens|
      invariant out + TrimAll(tokens[i..]) == TrimAll(tokens)
    {
      assert tokens[i..][1..] == tokens[i + 1..];
      var w := Trim(tokens[i]);
      if w != [] { out := out + [w]; }
    }
  }

  function KeyOf(text: Text): Text {
    Phrase(Words(text))
  }

  // Joining and splitting.

  predicate WordLike(w: Text) {
    w != [] && forall c :: c in w ==> IsWord(c)
  }

  /** A word normalisation leaves alone. */
  predicate Clean(w: Text) {
    WordLike(w) && forall c :: c in w ==> Fold(c) == c && !c.Niqqud?
  }

  lemma RunOfWord(w: Text, rest: Text)
    requires WordLike(w) && (rest == [] || !IsWord(rest[0]))
    ensures RunLength(w + rest) == |w|
  {
    var s, n := w + rest, RunLength(w + rest);
    assert forall i :: 0 <= i < |w| ==> s[i] == w[i] && w[i] in w;
    assert rest != [] ==> s[|w|] == rest[0];
  }

  /** Joined words split back into themselves. */
  lemma {:induction false} TokensOfPhrase(words: seq<Text>)
    requires forall w :: w in words ==> WordLike(w)
    ensures Tokens(Phrase(words)) == words
  {
    if words != [] {
      var w := words[0];
      assert w in words;
      if |words| == 1 {
        RunOfWord(w, []);
        assert w + [] == w;
        assert words == [w];
        assert Tokens(w[|w|..]) == [];
      } else {
        var rest := [Space] + Phrase(words[1..]);
        assert Phrase(words) == w + rest;
        RunOfWord(w, rest);
        assert (w + rest)[|w|..] == rest && (w + rest)[..|w|] == w && (w + rest)[0] == w[0];
        assert rest[1..] == Phrase(words[1..]);
        TokensOfPhrase(words[1..]);
        assert Tokens(rest) == words[1..];
      }
    }
  }

  lemma PhraseInjective(a: seq<Text>, b: seq<Text>)
    requires (forall w :: w in a ==> WordLike(w)) && (forall w :: w in b ==> WordLike(w)) && Phrase(a) == Phrase(b)
    ensures a == b
  {
    TokensOfPhrase(a);
    TokensOfPhrase(b);
  }

  lemma {:induction false} NormalizeAppend(a: Text, b: Text)
    ensures Normalize(a + b) == Normalize(a) + Normalize(b)
  {
    if a == [] {
      assert a + b == b;
    } else {
      assert (a + b)[1..] == a[1..] + b;
      NormalizeAppend(a[1..], b);
    }
  }

  lemma {:induction false} NormalizeFixed(s: Text)
    requires forall c :: c in s ==> Fold(c) == c && !c.Niqqud?
    ensures Normalize(s) == s
  {
    if s != [] { NormalizeFixed(s[1..]); }
  }

  lemma {:induction false} PhraseCharacters(words: seq<Text>)
    requires forall w :: w in words ==> Clean(w)
    ensures forall c :: c in Phrase(words) ==> Fold(c) == c && !c.Niqqud?
  {
    if |words| > 1 { PhraseCharacters(words[1..]); }
    if words != [] { assert words[0] in words; }
  }

  lemma {:induction false} NormalizeIsFolded(text: Text)
    ensures forall c :: c in Normalize(text) ==> Fold(c) == c && !c.Niqqud?
  {
    if text != [] { NormalizeIsFolded(text[1..]); }
  }

  lemma {:induction false} TokensAreRuns(s: Text)
    ensures forall t :: t in Tokens(s) ==> WordLike(t) && forall c :: c in t ==> c in s
    decreases |s|
  {
    if s != [] {
      if IsWord(s[0]) {
        var n := RunLength(s);
        TokensAreRuns(s[n..]);
        assert forall c :: c in s[..n] ==> exists i :: 0 <= i < n && s[i] == c;
      } else {
        TokensAreRuns(s[1..]);
      }
    }
  }

  lemma {:induction false} TrimLeftSuffix(w: Text, drop: Char -> bool)
    ensures |TrimLeft(w, drop)| <= |w| && TrimLeft(w, drop) == w[|w| - |TrimLeft(w, drop)|..]
    ensures TrimLeft(w, drop) != [] ==> !drop(TrimLeft(w, drop)[0])
  {
    if w != [] && drop(w[0]) { TrimLeftSuffix(w[1..], drop); }
  }

  lemma {:induction false} TrimRightPrefix(w: Text, drop: Char -> bool)
    ensures |TrimRight(w, drop)| <= |w| && TrimRight(w, drop) == w[..|TrimRight(w, drop)|]
    ensures TrimRight(w, drop) != [] ==> !drop(TrimRight(w, drop)[|TrimRight(w, drop)| - 1])
  {
    if w != [] && drop(w[|w| - 1]) { TrimRightPrefix(w[..|w| - 1], drop); }
  }

  lemma TrimIsPart(w: Text)
    ensures |Trim(w)| <= |w| && forall c :: c in Trim(w) ==> c in w
  {
    var a := TrimLeft(w, IsQuote);
    var b := TrimRight(a, IsGershayim);
    var d := TrimLeft(b, IsBar);
    TrimLeftSuffix(w, IsQuote);
    TrimRightPrefix(a, IsGershayim);
    TrimLeftSuffix(b, IsBar);
    TrimRightPrefix(d, IsBar);
  }

  lemma {:induction false} TrimAllParts(tokens: seq<Text>)
    ensures forall w :: w in TrimAll(tokens) ==> w != [] && exists t :: t in tokens && w == Trim(t)
  {
    if tokens != [] {
      TrimAllParts(tokens[1..]);
      assert tokens[0] in tokens;
      assert forall t :: t in tokens[1..] ==> t in tokens;
    }
  }

  lemma WordsAreClean(text: Text)
    ensures forall w :: w in Words(text) ==> Clean(w)
  {
    var s := Normalize(text);
    NormalizeIsFolded(text);
    TokensAreRuns(s);
    TrimAllParts(Tokens(s));
    forall w | w in Words(text) ensures Clean(w) {
      var t :| t in Tokens(s) && w == Trim(t);
      TrimIsPart(t);
    }
  }

  /** The words of a key are the words of the text it was made from, trimmed once more. */
  lemma WordsOfKey(text: Text)
    ensures Words(KeyOf(text)) == TrimAll(Words(text))
  {
    WordsAreClean(text);
    PhraseCharacters(Words(text));
    NormalizeFixed(KeyOf(text));
    TokensOfPhrase(Words(text));
  }

  /** A word Trim has nothing to take from. */
  predicate Tight(w: Text) {
    w != [] && !IsQuote(w[0]) && !w[|w| - 1].Gershayim?
  }

  predicate NoBarEnds(w: Text) {
    w != [] && w[0] != Underscore && w[|w| - 1] != Underscore
  }

  lemma TrimTight(w: Text)
    requires Tight(w) && NoBarEnds(w)
    ensures Trim(w) == w
  {
  }

  lemma TrimLoose(w: Text)
    requires w != [] && !Tight(w)
    ensures |Trim(w)| < |w|
  {
    var a := TrimLeft(w, IsQuote);
    var b := TrimRight(a, IsGershayim);
    TrimLeftSuffix(w, IsQuote);
    TrimRightPrefix(a, IsGershayim);
    TrimLeftSuffix(b, IsBar);
    TrimRightPrefix(TrimLeft(b, IsBar), IsBar);
    if IsQuote(w[0]) { TrimLeftSuffix(w[1..], IsQuote); } else { TrimRightPrefix(w[..|w| - 1], IsGershayim); }
  }

  lemma TrimmedEnds(w: Text)
    ensures Trim(w) != [] ==> NoBarEnds(Trim(w))
  {
    var b := TrimRight(TrimLeft(w, IsQuote), IsGershayim);
    TrimLeftSuffix(b, IsBar);
    TrimRightPrefix(TrimLeft(b, IsBar), IsBar);
  }

  lemma WordsEnds(text: Text)
    ensures forall w :: w in Words(text) ==> NoBarEnds(w)
  {
    TrimAllParts(Tokens(Normalize(text)));
    forall w | w in Words(text) ensures NoBarEnds(w) {
      var t :| t in Tokens(Normalize(text)) && w == Trim(t);
      TrimmedEnds(t);
    }
  }

  lemma {:induction false} TrimAllTight(words: seq<Text>)
    requires forall w :: w in words ==> NoBarEnds(w)
    ensures (forall w :: w in words ==> Tight(w)) ==> TrimAll(words) == words
    ensures (exists w :: w in words && !Tight(w)) ==> Size(TrimAll(words)) < Size(words)
    ensures Size(TrimAll(words)) <= Size(words)
  {
    if words != [] {
      assert words[0] in words && (forall w :: w in words[1..] ==> w in words);
      assert forall w :: w in words ==> w == words[0] || w in words[1..];
      TrimAllTight(words[1..]);
      if Tight(words[0]) { TrimTight(words[0]); } else { TrimLoose(words[0]); }
      TrimIsPart(words[0]);
      if Trim(words[0]) != [] {
        assert TrimAll(words)[1..] == TrimAll(words[1..]);
      } else {
        assert TrimAll(words) == TrimAll(words[1..]);
      }
    }
  }

  function Size(words: seq<Text>): nat {
    if words == [] then 0 else |words[0]| + Size(words[1..])
  }

  predicate Bars(w: Text, from: nat, to: nat)
    requires to <= |w|
  {
    forall p :: from <= p < to ==> w[p] == Underscore
  }

  /** Underscores, then a quote mark at `k`. */
  predicate ShieldsFront(w: Text, k: nat) {
    0 < k < |w| && Bars(w, 0, k) && IsQuote(w[k])
  }

  /** A gershayim at `k`, then underscores. */
  predicate ShieldsBack(w: Text, k: nat) {
    k + 1 < |w| && Bars(w, k + 1, |w|) && w[k].Gershayim?
  }

  /** Underscores stand before a quote mark at the front, or after a gershayim at the end: the first
      pass stripped quotes before it came to the underscores. */
  predicate Shields(w: Text) {
    exists k: nat :: k < |w| && (ShieldsFront(w, k) || ShieldsBack(w, k))
  }

  lemma {:induction false} TrimLeftBars(w: Text) returns (n: nat)
    ensures n <= |w| && Bars(w, 0, n) && TrimLeft(w, IsBar) == w[n..] && (n < |w| ==> w[n] != Underscore)
  {
    n := 0;
    if w != [] && w[0] == Underscore {
      n := TrimLeftBars(w[1..]);
      assert forall p :: 0 < p <= n ==> w[p] == w[1..][p - 1];
      n := n + 1;
    }
  }

  lemma {:induction false} TrimRightBars(w: Text) returns (n: nat)
    ensures n <= |w| && Bars(w, n, |w|) && TrimRight(w, IsBar) == w[..n] && (n > 0 ==> w[n - 1] != Underscore)
  {
    n := |w|;
    if w != [] && w[|w| - 1] == Underscore {
      n := TrimRightBars(w[..|w| - 1]);
      assert forall p :: n <= p < |w| - 1 ==> w[p] == w[..|w| - 1][p];
    }
  }

  /** A text is bars, a core that begins and ends with something else, and bars. */
  lemma Core(w: Text) returns (i: nat, j: nat)
    ensures i <= j <= |w| && Bars(w, 0, i) && Bars(w, j, |w|) && TrimRight(TrimLeft(w, IsBar), IsBar) == w[i..j]
    ensures i < |w| ==> i < j && w[i] != Underscore && w[j - 1] != Underscore
  {
    i := TrimLeftBars(w);
    var a := w[i..];
    var m := TrimRightBars(a);
    j := i + m;
    assert forall p :: j <= p < |w| ==> w[p] == a[p - i];
    assert i < |w| ==> a[0] == w[i];
    assert m > 0 ==> a[m - 1] == w[j - 1];
  }

  /** A token leaves a word that the next pass would still trim exactly when it shields one. */
  lemma TightIff(w: Text)
    requires w != [] ==> !IsQuote(w[0]) && !w[|w| - 1].Gershayim?
    ensures var d := TrimRight(TrimLeft(w, IsBar), IsBar);
            Shields(w) <==> d != [] && !Tight(d)
  {
    var i, j := Core(w);
    if i < |w| {
      assert w[i..j][0] == w[i] && w[i..j][j - i - 1] == w[j - 1];
      assert ShieldsFront(w, i) <==> IsQuote(w[i]);
      assert ShieldsBack(w, j - 1) <==> w[j - 1].Gershayim?;
      forall k: nat | k < |w| && ShieldsFront(w, k) ensures k == i { assert k <= i; }
      forall k: nat | k < |w| && ShieldsBack(w, k) ensures k == j - 1 { assert k >= j - 1; }
    }
  }

  lemma UnquotedEnds(t: Text)
    ensures var w := Unquoted(t); w != [] ==> !IsQuote(w[0]) && !w[|w| - 1].Gershayim?
  {
    TrimLeftSuffix(t, IsQuote);
    TrimRightPrefix(TrimLeft(t, IsQuote), IsGershayim);
  }

  lemma {:induction false} TrimAllMembers(tokens: seq<Text>)
    ensures forall t :: t in tokens && Trim(t) != [] ==> Trim(t) in TrimAll(tokens)
  {
    if tokens != [] { TrimAllMembers(tokens[1..]); }
  }

  /** key_of is idempotent exactly on the texts no token of which shields a quote mark in front or
      a gershayim at the end behind underscores. */
  lemma KeyOfIdempotentIff(text: Text)
    ensures KeyOf(KeyOf(text)) == KeyOf(text) <==> forall t :: t in Tokens(Normalize(text)) ==> !Shields(Unquoted(t))
  {
    var tokens := Tokens(Normalize(text));
    KeyOfFixedIff(text);
    TrimAllMembers(tokens);
    TrimAllParts(tokens);
    forall t | t in tokens ensures Shields(Unquoted(t)) <==> Trim(t) != [] && !Tight(Trim(t)) {
      UnquotedEnds(t);
      TightIff(Unquoted(t));
    }
  }

  lemma KeyOfFixedIff(text: Text)
    ensures KeyOf(KeyOf(text)) == KeyOf(text) <==> forall w :: w in Words(text) ==> Tight(w)
  {
    WordsOfKey(text);
    WordsEnds(text);
    TrimAllTight(Words(text));
    if KeyOf(KeyOf(text)) == KeyOf(text) {
      WordsAreClean(text);
      WordsAreClean(KeyOf(text));
      PhraseInjective(Words(KeyOf(text)), Words(text));
    }
  }

  lemma {:induction false} NormalizeKeeps(text: Text)
    requires Underscore !in text
    ensures Underscore !in Normalize(text)
  {
    if text != [] { NormalizeKeeps(text[1..]); }
  }

  /** ... in particular on every text without underscores. */
  lemma KeyOfIdempotent(text: Text)
    requires Underscore !in text
    ensures KeyOf(KeyOf(text)) == KeyOf(text)
  {
    NormalizeKeeps(text);
    var s := Normalize(text);
    TokensAreRuns(s);
    forall t | t in Tokens(s) ensures !Shields(Unquoted(t)) {
      assert Underscore !in t;
      TrimLeftSuffix(t, IsQuote);
      TrimRightPrefix(TrimLeft(t, IsQuote), IsGershayim);
      NoBarsNoShield(Unquoted(t));
    }
    KeyOfIdempotentIff(text);
  }

  lemma NoBarsNoShield(w: Text)
    requires Underscore !in w
    ensures !Shields(w)
  {
    forall k: nat | k < |w| ensures !ShieldsFront(w, k) && !ShieldsBack(w, k) {
      assert w[0] in w;
      if k + 1 < |w| { assert w[k + 1] in w; }
    }
  }

  lemma OneToken(w: Text)
    requires Clean(w)
    ensures Words(w) == if Trim(w) == [] then [] else [Trim(w)]
  {
    NormalizeFixed(w);
    TokensOfPhrase([w]);
    assert TrimAll([w]) == if Trim(w) == [] then [] else [Trim(w)];
  }

  /** With underscores it can fail: `_` guards a quote mark from the first pass only. */
  lemma KeyOfNotIdempotent()
    ensures var text := [Underscore, Geresh, Hebrew(0)]; KeyOf(text) == [Geresh, Hebrew(0)] && KeyOf(KeyOf(text)) == [Hebrew(0)]
  {
    var text, key, name := [Underscore, Geresh, Hebrew(0)], [Geresh, Hebrew(0)], [Hebrew(0)];
    assert text[1..] == key && key[1..] == name;
    TrimExamples();
    OneToken(text);
    OneToken(key);
  }

  lemma TrimExamples()
    ensures Trim([Underscore, Geresh, Hebrew(0)]) == [Geresh, Hebrew(0)] && Trim([Geresh, Hebrew(0)]) == [Hebrew(0)]
  {
    var text, key, name := [Underscore, Geresh, Hebrew(0)], [Geresh, Hebrew(0)], [Hebrew(0)];
    assert text[1..] == key && key[1..] == name;
    assert TrimLeft(text, IsQuote) == text && TrimLeft(text, IsBar) == key;
    assert TrimLeft(key, IsQuote) == name;
  }
}
