/** What two texts must share to be the same to the glossary, and what the words of a text are: laws
    that between them determine normalisation and the splitting into words. */
module GlossaryWords {
  import opened Wrappers
  import opened GlossaryMatch

  // Texts that look the same.

  /** The same letter in either case, the same kind of quote mark, or both ways to part two words. */
  predicate Alike(c: Char, d: Char) {
    || c == d
    || (c.Letter? && d.Letter? && c.n == d.n)
    || ((c.DoubleQuote? || c.Gershayim?) && (d.DoubleQuote? || d.Gershayim?))
    || ((c.SingleQuote? || c.Geresh?) && (d.SingleQuote? || d.Geresh?))
    || ((c.Dash? || c.Space?) && (d.Dash? || d.Space?))
  }

  function WithoutNiqqud(text: Text): Text {
    if text == [] then [] else (if text[0].Niqqud? then [] else [text[0]]) + WithoutNiqqud(text[1..])
  }

  /** The texts differ in niqqud, case, the form of quote marks and in hyphens for spaces only. */
  predicate LookAlike(a: Text, b: Text) {
    |WithoutNiqqud(a)| == |WithoutNiqqud(b)|
    && forall i :: 0 <= i < |WithoutNiqqud(a)| ==> Alike(WithoutNiqqud(a)[i], WithoutNiqqud(b)[i])
  }

  lemma FoldIff(c: Char, d: Char)
    ensures Fold(c) == Fold(d) <==> Alike(c, d)
  {
  }

  lemma {:induction false} NormalizeIs(text: Text)
    ensures |Normalize(text)| == |WithoutNiqqud(text)|
    ensures forall i :: 0 <= i < |Normalize(text)| ==> Normalize(text)[i] == Fold(WithoutNiqqud(text)[i])
  {
    if text != [] { NormalizeIs(text[1..]); }
  }

  /** Normalisation makes two texts the same exactly when they look alike. */
  lemma NormalizeIff(a: Text, b: Text)
    ensures Normalize(a) == Normalize(b) <==> LookAlike(a, b)
  {
    var x, y := WithoutNiqqud(a), WithoutNiqqud(b);
    NormalizeIs(a);
    NormalizeIs(b);
    forall i | 0 <= i < |x| && i < |y| ensures Fold(x[i]) == Fold(y[i]) <==> Alike(x[i], y[i]) { FoldIff(x[i], y[i]); }
    if Normalize(a) == Normalize(b) {
      forall i | 0 <= i < |x| ensures Alike(x[i], y[i]) { assert Normalize(a)[i] == Normalize(b)[i]; }
    }
  }

  /** So keys and texts that look alike have one key, whatever case, quotes or vowel points they have. */
  lemma LookAlikesShareAKey(a: Text, b: Text)
    requires LookAlike(a, b)
    ensures Words(a) == Words(b) && KeyOf(a) == KeyOf(b)
  {
    NormalizeIff(a, b);
  }

  // The words of a text.

  predicate Separates(c: Char) {
    c.Space? || c.Dash? || c.Other?
  }

  lemma {:induction false} TokensSplit(a: Text, sep: Char, b: Text)
    requires !IsWord(sep)
    ensures Tokens(a + [sep] + b) == Tokens(a) + Tokens(b)
    decreases |a|
  {
    var s := a + [sep] + b;
    if a == [] {
      assert s[0] == sep && s[1..] == b;
    } else if !IsWord(a[0]) {
      assert s[1..] == a[1..] + [sep] + b;
      TokensSplit(a[1..], sep, b);
    } else {
      var n := RunLength(a);
      RunBefore(a, sep, b);
      assert s[..n] == a[..n] && s[n..] == a[n..] + [sep] + b;
      TokensSplit(a[n..], sep, b);
    }
  }

  lemma RunBefore(a: Text, sep: Char, b: Text)
    requires a != [] && IsWord(a[0]) && !IsWord(sep)
    ensures RunLength(a + [sep] + b) == RunLength(a) > 0
  {
    var s, n := a + [sep] + b, RunLength(a);
    assert forall i :: 0 <= i < n ==> s[i] == a[i];
    assert n < |a| ==> s[n] == a[n];
    assert n == |a| ==> s[n] == sep;
  }

  lemma {:induction false} TrimAllAppend(a: seq<Text>, b: seq<Text>)
    ensures TrimAll(a + b) == TrimAll(a) + TrimAll(b)
  {
    if a == [] {
      assert a + b == b;
    } else {
      assert (a + b)[1..] == a[1..] + b;
      TrimAllAppend(a[1..], b);
    }
  }

  /** A space, a hyphen or anything foreign parts words, wherever it stands: the words of a text are
      those before it and those after it. */
  lemma SeparatorsPartWords(a: Text, sep: Char, b: Text)
    requires Separates(sep)
    ensures Words(a + [sep] + b) == Words(a) + Words(b)
  {
    NormalizeAppend(a + [sep], b);
    NormalizeAppend(a, [sep]);
    assert [sep][1..] == [];
    assert Normalize([sep]) == [Fold(sep)];
    TokensSplit(Normalize(a), Fold(sep), Normalize(b));
    TrimAllAppend(Tokens(Normalize(a)), Tokens(Normalize(b)));
  }

  /** ... and nothing else does: a text without any of these is one word, or none. */
  lemma NothingElseParts(text: Text)
    requires forall c :: c in text ==> !Separates(c)
    ensures var w := Trim(Normalize(text)); Words(text) == if w == [] then [] else [w]
  {
    var s := Normalize(text);
    WordCharacters(text);
    if s == [] {
      TrimNothing();
    } else {
      assert WordLike(s);
      TokensOfPhrase([s]);
      assert Phrase([s]) == s;
      assert TrimAll([s]) == if Trim(s) == [] then [] else [Trim(s)];
    }
  }

  lemma TrimNothing()
    ensures Trim([]) == []
  {
  }

  lemma {:induction false} WordCharacters(text: Text)
    requires forall c :: c in text ==> !Separates(c)
    ensures forall c :: c in Normalize(text) ==> IsWord(c)
  {
    if text != [] {
      assert text[0] in text && forall c :: c in text[1..] ==> c in text;
      WordCharacters(text[1..]);
    }
  }

  // What is stripped off a word.

  /** `w` without its first `i` characters, quote marks, and those from `j` on, gershayim; then without
      the underscores before `m` and from `n` on. */
  ghost predicate TrimmedTo(w: Text, i: nat, m: nat, n: nat, j: nat) {
    && i <= m <= n <= j <= |w|
    && (forall k :: 0 <= k < i ==> w[k].Geresh? || w[k].Gershayim?)
    && (forall k :: j <= k < |w| ==> w[k].Gershayim?)
    && (i < j ==> !w[i].Geresh? && !w[i].Gershayim? && !w[j - 1].Gershayim?)
    && (forall k :: i <= k < j && (k < m || n <= k) ==> w[k].Underscore?)
    && (m < n ==> !w[m].Underscore? && !w[n - 1].Underscore?)
  }

  lemma {:induction false} LeftDrop(w: Text, drop: Char -> bool) returns (i: nat)
    ensures i <= |w| && TrimLeft(w, drop) == w[i..] && (forall k :: 0 <= k < i ==> drop(w[k])) && (i < |w| ==> !drop(w[i]))
  {
    i := 0;
    if w != [] && drop(w[0]) {
      i := LeftDrop(w[1..], drop);
      assert forall k :: 0 < k <= i ==> w[k] == w[1..][k - 1];
      i := i + 1;
    }
  }

  lemma {:induction false} RightDrop(w: Text, drop: Char -> bool) returns (j: nat)
    ensures j <= |w| && TrimRight(w, drop) == w[..j] && (forall k :: j <= k < |w| ==> drop(w[k])) && (j > 0 ==> !drop(w[j - 1]))
  {
    j := |w|;
    if w != [] && drop(w[|w| - 1]) {
      j := RightDrop(w[..|w| - 1], drop);
      assert forall k :: j <= k < |w| - 1 ==> w[k] == w[..|w| - 1][k];
    }
  }

  lemma UnquotedBounds(w: Text) returns (i: nat, j: nat)
    ensures i <= j <= |w| && Unquoted(w) == w[i..j]
    ensures (forall k :: 0 <= k < i ==> w[k].Geresh? || w[k].Gershayim?) && (forall k :: j <= k < |w| ==> w[k].Gershayim?)
    ensures i < j ==> !w[i].Geresh? && !w[i].Gershayim? && !w[j - 1].Gershayim?
  {
    i := LeftDrop(w, IsQuote);
    var rest := w[i..];
    var n := RightDrop(rest, IsGershayim);
    j := i + n;
    assert forall k :: j <= k < |w| ==> w[k] == rest[k - i];
    assert n > 0 ==> rest[n - 1] == w[j - 1];
  }

  lemma TrimBounds(w: Text) returns (i: nat, m: nat, n: nat, j: nat)
    ensures TrimmedTo(w, i, m, n, j) && Trim(w) == w[m..n]
  {
    i, j := UnquotedBounds(w);
    var inner := w[i..j];
    var a, b := Core(inner);
    m, n := i + a, i + b;
    assert forall k :: i <= k < j ==> w[k] == inner[k - i];
    assert w[m..n] == inner[a..b];
  }

  /** What a token leaves: quote marks in front and gershayim at the end go, then underscores at both
      ends, all of them and nothing else; a geresh at the end stays. */
  lemma TrimIff(w: Text, x: Text)
    ensures x == Trim(w) <==> exists i: nat, m: nat, n: nat, j: nat :: TrimmedTo(w, i, m, n, j) && x == w[m..n]
  {
    var i, m, n, j := TrimBounds(w);
    if i': nat, m': nat, n': nat, j': nat :| TrimmedTo(w, i', m', n', j') && x == w[m'..n'] {
      TrimUnique(w, i, m, n, j, i', m', n', j');
    }
  }

  lemma QuotesUnique(w: Text, i: nat, m: nat, n: nat, j: nat, i': nat, m': nat, n': nat, j': nat)
    requires TrimmedTo(w, i, m, n, j) && TrimmedTo(w, i', m', n', j')
    ensures i < j <==> i' < j'
    ensures i < j ==> i == i' && j == j'
  {
  }

  lemma TrimUnique(w: Text, i: nat, m: nat, n: nat, j: nat, i': nat, m': nat, n': nat, j': nat)
    requires TrimmedTo(w, i, m, n, j) && TrimmedTo(w, i', m', n', j')
    ensures w[m..n] == w[m'..n']
  {
    QuotesUnique(w, i, m, n, j, i', m', n', j');
  }
}
