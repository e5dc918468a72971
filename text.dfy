/**
 * String primitives that the terminal code takes from JavaScript: what `\s`
 * matches (and `String.prototype.trim` strips), `trim()`, ASCII
 * `toLowerCase()`, `split(/\s+/)`, `replace(/\s+/g, " ")`, `join`,
 * `startsWith`, `includes`, and the "words" of a string (its maximal runs of
 * non-whitespace characters), which is what ties them together.
 *
 * The scanners work on an index into one string, so that most proofs are
 * about a single string; `WordsWindow` is the one bridge between a string
 * and a piece of it.
 */
module Text {

  /** The characters that JavaScript's `\s` matches and `trim()` strips
      (WhiteSpace and LineTerminator of ECMA-262), apart from the range
      U+2000..U+200A. */
  const SpaceChars: set<char> := {
    ' ', '\t', '\n', '\r', '\U{000B}', '\U{000C}', '\U{00A0}', '\U{1680}',
    '\U{2028}', '\U{2029}', '\U{202F}', '\U{205F}', '\U{3000}', '\U{FEFF}'
  }

  predicate IsSpace(c: char) {
    c in SpaceChars || '\U{2000}' <= c <= '\U{200A}'
  }

  predicate AllSpace(s: string) {
    forall i :: 0 <= i < |s| ==> IsSpace(s[i])
  }

  /** A non-empty string without whitespace: one class token, one command word. */
  predicate IsWord(w: string) {
    w != [] && forall i :: 0 <= i < |w| ==> !IsSpace(w[i])
  }

  /** A string in the normal form `combineClasses` produces: words separated by
      exactly one ' ', and no whitespace at either end. */
  predicate Normal(u: string) {
    && (u == [] || (!IsSpace(u[0]) && !IsSpace(u[|u| - 1])))
    && forall i :: 0 <= i < |u| && IsSpace(u[i]) ==> u[i] == ' ' && i + 1 < |u| && !IsSpace(u[i + 1])
  }

  /** Every whitespace character is ' ' and is not followed by more whitespace. */
  predicate SingleSpaced(u: string) {
    forall i :: 0 <= i < |u| && IsSpace(u[i]) ==> u[i] == ' ' && (i + 1 < |u| ==> !IsSpace(u[i + 1]))
  }

  // ---------------------------------------------------------------------------
  // Scanners
  // ---------------------------------------------------------------------------

  /** The first index at or after `i` that does not hold whitespace, or |s|. */
  function SkipSpaces(s: string, i: nat): (j: nat)
    requires i <= |s|
    ensures i <= j <= |s|
    ensures j < |s| ==> !IsSpace(s[j])
    ensures i < |s| && IsSpace(s[i]) ==> i < j
    decreases |s| - i
  {
    if i < |s| && IsSpace(s[i]) then SkipSpaces(s, i + 1) else i
  }

  /** The first index at or after `i` that holds whitespace, or |s|. */
  function SkipWord(s: string, i: nat): (j: nat)
    requires i <= |s|
    ensures i <= j <= |s|
    ensures j < |s| ==> IsSpace(s[j])
    ensures i < |s| && !IsSpace(s[i]) ==> i < j
    decreases |s| - i
  {
    if i < |s| && !IsSpace(s[i]) then SkipWord(s, i + 1) else i
  }

  /** The end of `s[..j]` once its trailing whitespace is dropped. */
  function TrimEnd(s: string, j: nat): (b: nat)
    requires j <= |s|
    ensures b <= j
    ensures b > 0 ==> !IsSpace(s[b - 1])
    decreases j
  {
    if j > 0 && IsSpace(s[j - 1]) then TrimEnd(s, j - 1) else j
  }

  lemma {:induction false} SkipSpacesAll(s: string, i: nat)
    requires i <= |s|
    ensures forall k :: i <= k < SkipSpaces(s, i) ==> IsSpace(s[k])
    decreases |s| - i
  {
    if i < |s| && IsSpace(s[i]) { SkipSpacesAll(s, i + 1); }
  }

  lemma {:induction false} SkipWordAll(s: string, i: nat)
    requires i <= |s|
    ensures forall k :: i <= k < SkipWord(s, i) ==> !IsSpace(s[k])
    decreases |s| - i
  {
    if i < |s| && !IsSpace(s[i]) { SkipWordAll(s, i + 1); }
  }

  lemma {:induction false} TrimEndAll(s: string, j: nat)
    requires j <= |s|
    ensures forall k :: TrimEnd(s, j) <= k < j ==> IsSpace(s[k])
    decreases j
  {
    if j > 0 && IsSpace(s[j - 1]) { TrimEndAll(s, j - 1); }
  }

  lemma {:induction false} SkipWordOfSpaceFree(s: string, i: nat)
    requires i <= |s|
    requires forall k :: i <= k < |s| ==> !IsSpace(s[k])
    ensures SkipWord(s, i) == |s|
    decreases |s| - i
  {
    if i < |s| { SkipWordOfSpaceFree(s, i + 1); }
  }

  // ---------------------------------------------------------------------------
  // The JavaScript operations
  // ---------------------------------------------------------------------------

  /** JavaScript `s.trim()`: the middle of `s` between its leading and trailing
      whitespace runs. */
  function Trim(s: string): (r: string)
    ensures r == [] || (!IsSpace(r[0]) && !IsSpace(r[|r| - 1]))
  {
    var a := SkipSpaces(s, 0);
    if a == |s| then []
    else
      TrimEndAll(s, |s|);
      s[a..TrimEnd(s, |s|)]
  }

  /** `trim()` removes exactly the leading and the trailing whitespace: its
      result is a slice of `s` with only whitespace around it, and it neither
      starts nor ends with whitespace. */
  lemma TrimIsSlice(s: string)
    ensures exists a, b :: 0 <= a <= b <= |s| && Trim(s) == s[a..b] && AllSpace(s[..a]) && AllSpace(s[b..])
    ensures Trim(s) == [] || (!IsSpace(Trim(s)[0]) && !IsSpace(Trim(s)[|Trim(s)| - 1]))
  {
    var a := SkipSpaces(s, 0);
    SkipSpacesAll(s, 0);
    TrimEndAll(s, |s|);
    if a == |s| {
      assert AllSpace(s[..a]) && AllSpace(s[a..]) && Trim(s) == s[a..a];
    } else {
      var b := TrimEnd(s, |s|);
      assert a < b by { assert !IsSpace(s[a]); }
      assert AllSpace(s[..a]) && AllSpace(s[b..]) && Trim(s) == s[a..b];
    }
  }

  /** ASCII `toLowerCase()` of one character. */
  function LowerChar(c: char): (d: char)
    ensures IsSpace(d) <==> IsSpace(c)
    ensures 'A' <= c <= 'Z' ==> 'a' <= d <= 'z'
    ensures !('A' <= c <= 'Z') ==> d == c
  {
    if 'A' <= c <= 'Z' then (c as int + 32) as char else c
  }

  /** JavaScript `s.toLowerCase()`, restricted to the ASCII letters. */
  function ToLower(s: string): (r: string)
    ensures |r| == |s|
    ensures forall i :: 0 <= i < |s| ==> r[i] == LowerChar(s[i])
  {
    seq(|s|, i requires 0 <= i < |s| => LowerChar(s[i]))
  }

  /** `s.split(/\s+/)` from index `i` on. */
  function SplitFrom(s: string, i: nat): (r: seq<string>)
    requires i <= |s|
    ensures |r| >= 1
    decreases |s| - i
  {
    var k := SkipWord(s, i);
    if k == |s| then [s[i..]]
    else [s[i..k]] + SplitFrom(s, SkipSpaces(s, k))
  }

  /** JavaScript `s.split(/\s+/)`: the pieces between maximal whitespace runs,
      including an empty first or last piece when `s` begins or ends with
      whitespace. */
  function Split(s: string): seq<string> {
    SplitFrom(s, 0)
  }

  /** `s.replace(/\s+/g, " ")` from index `i` on. */
  function CollapseFrom(s: string, i: nat): string
    requires i <= |s|
    decreases |s| - i
  {
    if i == |s| then []
    else if IsSpace(s[i]) then [' '] + CollapseFrom(s, SkipSpaces(s, i))
    else s[i..SkipWord(s, i)] + CollapseFrom(s, SkipWord(s, i))
  }

  /** JavaScript `s.replace(/\s+/g, " ")`: each maximal whitespace run becomes
      one ' ', everything else is copied. */
  function Collapse(s: string): string {
    CollapseFrom(s, 0)
  }

  /** The words of `s` that start at or after index `i`. */
  function WordsFrom(s: string, i: nat): seq<string>
    requires i <= |s|
    decreases |s| - i
  {
    if i == |s| then []
    else if IsSpace(s[i]) then WordsFrom(s, i + 1)
    else [s[i..SkipWord(s, i)]] + WordsFrom(s, SkipWord(s, i))
  }

  /** The maximal runs of non-whitespace characters of `s`, in order. */
  function Words(s: string): seq<string> {
    WordsFrom(s, 0)
  }

  /** JavaScript `ws.join(sep)`. */
  function JoinWith(ws: seq<string>, sep: string): string {
    if ws == [] then []
    else if |ws| == 1 then ws[0]
    else ws[0] + sep + JoinWith(ws[1..], sep)
  }

  /** The words of each string of `ps`, concatenated in order. */
  function WordsOfAll(ps: seq<string>): seq<string> {
    if ps == [] then [] else Words(ps[0]) + WordsOfAll(ps[1..])
  }

  /** JavaScript `s.startsWith(p)`. */
  predicate StartsWith(s: string, p: string) {
    |p| <= |s| && s[..|p|] == p
  }

  /** JavaScript `s.includes(sub)`. */
  predicate Contains(s: string, sub: string)
    decreases |s|
  {
    StartsWith(s, sub) || (s != [] && Contains(s[1..], sub))
  }

  /** JavaScript `s.substring(0, n)` and `s.slice(0, n)` for n >= 0. */
  function Take<T>(s: seq<T>, n: nat): (r: seq<T>)
    ensures |r| == if |s| < n then |s| else n
    ensures r == s[..|r|]
  {
    if |s| < n then s else s[..n]
  }

  // ---------------------------------------------------------------------------
  // Trim
  // ---------------------------------------------------------------------------

  /** `trim()` gives the empty string exactly on all-whitespace input. */
  lemma TrimEmpty(s: string)
    ensures Trim(s) == [] <==> AllSpace(s)
  {
    SkipSpacesAll(s, 0);
    var a := SkipSpaces(s, 0);
    if a < |s| {
      TrimEndAll(s, |s|);
      assert !IsSpace(s[a]);
      assert a < TrimEnd(s, |s|);
    }
  }

  /** A string with no whitespace at either end is its own `trim()`. */
  lemma TrimOfTrimmed(s: string)
    requires s == [] || (!IsSpace(s[0]) && !IsSpace(s[|s| - 1]))
    ensures Trim(s) == s
  {
    assert s != [] ==> SkipSpaces(s, 0) == 0 && TrimEnd(s, |s|) == |s|;
    assert s[0..|s|] == s;
  }

  // ---------------------------------------------------------------------------
  // Words
  // ---------------------------------------------------------------------------

  /** Every word of a string is a non-empty run without whitespace. */
  lemma {:induction false} WordsFromAreWords(s: string, i: nat)
    requires i <= |s|
    ensures forall k :: 0 <= k < |WordsFrom(s, i)| ==> IsWord(WordsFrom(s, i)[k])
    decreases |s| - i
  {
    if i < |s| {
      if IsSpace(s[i]) {
        WordsFromAreWords(s, i + 1);
      } else {
        var j := SkipWord(s, i);
        SkipWordAll(s, i);
        WordsFromAreWords(s, j);
        var w := s[i..j];
        assert forall k :: 0 <= k < |w| ==> w[k] == s[i + k];
      }
    }
  }

  lemma WordsAreWords(s: string)
    ensures forall k :: 0 <= k < |Words(s)| ==> IsWord(Words(s)[k])
  {
    WordsFromAreWords(s, 0);
  }

  /** Skipping whitespace does not change the words that follow. */
  lemma {:induction false} WordsSkip(s: string, i: nat)
    requires i <= |s|
    ensures WordsFrom(s, SkipSpaces(s, i)) == WordsFrom(s, i)
    decreases |s| - i
  {
    if i < |s| && IsSpace(s[i]) { WordsSkip(s, i + 1); }
  }

  lemma {:induction false} WordsOfSpaces(s: string, i: nat)
    requires i <= |s|
    requires forall k :: i <= k < |s| ==> IsSpace(s[k])
    ensures WordsFrom(s, i) == []
    decreases |s| - i
  {
    if i < |s| { WordsOfSpaces(s, i + 1); }
  }

  /** `t` occurs in `s` at offset `o`. */
  predicate At(t: string, s: string, o: nat) {
    o + |t| <= |s| && forall k :: 0 <= k < |t| ==> s[o + k] == t[k]
  }

  /** A word of `s` cannot run past a position that ends `s` or holds
      whitespace. */
  predicate Boundary(s: string, p: nat) {
    p <= |s| && (p == |s| || IsSpace(s[p]))
  }

  lemma {:induction false} SkipWordWindow(s: string, t: string, o: nat, i: nat)
    requires At(t, s, o) && Boundary(s, o + |t|) && i <= |t|
    ensures SkipWord(s, o + i) == o + SkipWord(t, i)
    decreases |t| - i
  {
    if i < |t| {
      assert s[o + i] == t[i];
      if !IsSpace(t[i]) { SkipWordWindow(s, t, o, i + 1); }
    }
  }

  /** The words of `s` from inside an occurrence of `t` that ends on a
      boundary: the words of `t` from there, then those of `s` after it. */
  lemma {:induction false} WordsWindow(s: string, t: string, o: nat, i: nat)
    requires At(t, s, o) && Boundary(s, o + |t|) && i <= |t|
    ensures WordsFrom(s, o + i) == WordsFrom(t, i) + WordsFrom(s, o + |t|)
    decreases |t| - i
  {
    if i < |t| {
      if IsSpace(t[i]) {
        assert s[o + i] == t[i];
        WordsWindow(s, t, o, i + 1);
      } else {
        var k := SkipWord(t, i);
        var w, rest := t[i..k], WordsFrom(s, o + |t|);
        WordsWindowStep(s, t, o, i);
        WordsWindow(s, t, o, k);
        assert WordsFrom(t, i) == [w] + WordsFrom(t, k);
        AppendAssoc([w], WordsFrom(t, k), rest);
      }
    }
  }

  lemma AppendAssoc<T>(a: seq<T>, b: seq<T>, c: seq<T>)
    ensures a + (b + c) == (a + b) + c
  {
  }

  /** One word of `t`, read inside `s`. */
  lemma WordsWindowStep(s: string, t: string, o: nat, i: nat)
    requires At(t, s, o) && Boundary(s, o + |t|) && i < |t| && !IsSpace(t[i])
    ensures o + SkipWord(t, i) <= |s|
    ensures WordsFrom(s, o + i) == [t[i..SkipWord(t, i)]] + WordsFrom(s, o + SkipWord(t, i))
  {
    var k := SkipWord(t, i);
    assert s[o + i] == t[i];
    SkipWordWindow(s, t, o, i);
    SliceWindow(s, t, o, i, k);
  }


  lemma SliceWindow(s: string, t: string, o: nat, i: nat, k: nat)
    requires At(t, s, o) && i <= k <= |t|
    ensures s[o + i..o + k] == t[i..k]
  {
    var x, y := s[o + i..o + k], t[i..k];
    forall m | 0 <= m < |x| ensures x[m] == y[m] {
      assert x[m] == s[o + (i + m)];
    }
  }

  /** The words of a whole string that occurs at a boundary-ended offset. */
  lemma WordsOfPiece(s: string, t: string, o: nat)
    requires At(t, s, o) && Boundary(s, o + |t|)
    ensures WordsFrom(s, o) == Words(t) + WordsFrom(s, o + |t|)
  {
    WordsWindow(s, t, o, 0);
  }

  lemma WordsOfWord(w: string)
    requires IsWord(w)
    ensures Words(w) == [w]
  {
    SkipWordOfSpaceFree(w, 0);
    assert !IsSpace(w[0]);
    assert WordsFrom(w, |w|) == [];
    assert w[0..|w|] == w;
  }

  /** Words do not run across a whitespace boundary between two strings. */
  lemma WordsOfConcat(a: string, b: string)
    requires b == [] || IsSpace(b[0])
    ensures Words(a + b) == Words(a) + Words(b)
  {
    var s := a + b;
    assert At(a, s, 0);
    WordsOfPiece(s, a, 0);
    assert At(b, s, |a|);
    WordsOfPiece(s, b, |a|);
  }

  /** A leading whitespace character adds no word. */
  lemma WordsAfterSpace(c: char, b: string)
    requires IsSpace(c)
    ensures Words([c] + b) == Words(b)
  {
    var s := [c] + b;
    assert WordsFrom(s, 0) == WordsFrom(s, 1);
    assert At(b, s, 1);
    WordsOfPiece(s, b, 1);
  }

  /** A whitespace character separates the words on its two sides. */
  lemma WordsAroundSpace(a: string, c: char, b: string)
    requires IsSpace(c)
    ensures Words(a + [c] + b) == Words(a) + Words(b)
  {
    assert a + [c] + b == a + ([c] + b);
    WordsOfConcat(a, [c] + b);
    WordsAfterSpace(c, b);
  }


  lemma WordsOfTrim(s: string)
    ensures Words(Trim(s)) == Words(s)
  {
    var a := SkipSpaces(s, 0);
    WordsSkip(s, 0);
    if a < |s| {
      var b := TrimEnd(s, |s|);
      TrimEndAll(s, |s|);
      var t := s[a..b];
      assert At(t, s, a);
      WordsOfPiece(s, t, a);
      WordsOfSpaces(s, b);
    }
  }

  // ---------------------------------------------------------------------------
  // Collapse
  // ---------------------------------------------------------------------------

  lemma SingleSpacedAfterWord(w: string, r: string)
    requires forall k :: 0 <= k < |w| ==> !IsSpace(w[k])
    requires SingleSpaced(r)
    ensures SingleSpaced(w + r)
  {
    var u := w + r;
    forall i | 0 <= i < |u| && IsSpace(u[i])
      ensures u[i] == ' ' && (i + 1 < |u| ==> !IsSpace(u[i + 1]))
    {
      assert u[i] == r[i - |w|];
      if i + 1 < |u| { assert u[i + 1] == r[i + 1 - |w|]; }
    }
  }

  lemma SingleSpacedAfterSpace(r: string)
    requires SingleSpaced(r)
    requires r == [] || !IsSpace(r[0])
    ensures SingleSpaced([' '] + r)
  {
    var u := [' '] + r;
    forall i | 0 <= i < |u| && IsSpace(u[i])
      ensures u[i] == ' ' && (i + 1 < |u| ==> !IsSpace(u[i + 1]))
    {
      if i > 0 {
        assert u[i] == r[i - 1];
        if i + 1 < |u| { assert u[i + 1] == r[i]; }
      } else if i + 1 < |u| {
        assert u[1] == r[0];
      }
    }
  }

  /** The shape of `replace(/\s+/g, " ")` from index `i`: single-spaced,
      empty only at the end, and starting with ' ' exactly where `s` has
      whitespace at `i`. */
  lemma {:induction false} CollapseFromShape(s: string, i: nat)
    requires i <= |s|
    ensures SingleSpaced(CollapseFrom(s, i))
    ensures CollapseFrom(s, i) == [] <==> i == |s|
    ensures i < |s| ==> CollapseFrom(s, i)[0] == if IsSpace(s[i]) then ' ' else s[i]
    decreases |s| - i
  {
    if i < |s| {
      if IsSpace(s[i]) {
        var j := SkipSpaces(s, i);
        CollapseFromShape(s, j);
        SingleSpacedAfterSpace(CollapseFrom(s, j));
      } else {
        var j := SkipWord(s, i);
        CollapseFromShape(s, j);
        SkipWordAll(s, i);
        var w := s[i..j];
        assert forall k :: 0 <= k < |w| ==> w[k] == s[i + k];
        SingleSpacedAfterWord(w, CollapseFrom(s, j));
      }
    }
  }

  lemma CollapseShape(s: string)
    ensures SingleSpaced(Collapse(s))
    ensures Collapse(s) == [] <==> s == []
  {
    CollapseFromShape(s, 0);
  }

  /** `replace(/\s+/g, " ")` keeps the words. */
  lemma {:induction false} WordsOfCollapseFrom(s: string, i: nat)
    requires i <= |s|
    ensures Words(CollapseFrom(s, i)) == WordsFrom(s, i)
    decreases |s| - i
  {
    if i < |s| {
      if IsSpace(s[i]) {
        var j := SkipSpaces(s, i);
        CollapseSpaceStep(s, i);
        WordsOfCollapseFrom(s, j);
        WordsSkip(s, i);
      } else {
        var j := SkipWord(s, i);
        CollapseWordStep(s, i);
        WordsOfCollapseFrom(s, j);
      }
    }
  }

  /** A whitespace run becomes one ' ', which adds no word. */
  lemma CollapseSpaceStep(s: string, i: nat)
    requires i < |s| && IsSpace(s[i])
    ensures Words(CollapseFrom(s, i)) == Words(CollapseFrom(s, SkipSpaces(s, i)))
  {
    WordsAfterSpace(' ', CollapseFrom(s, SkipSpaces(s, i)));
  }

  /** A word is copied as it is and stays one word. */
  lemma CollapseWordStep(s: string, i: nat)
    requires i < |s| && !IsSpace(s[i])
    ensures Words(CollapseFrom(s, i)) == [s[i..SkipWord(s, i)]] + Words(CollapseFrom(s, SkipWord(s, i)))
  {
    var j := SkipWord(s, i);
    var w := s[i..j];
    var rest := CollapseFrom(s, j);
    CollapseFromShape(s, j);
    WordsOfConcat(w, rest);
    SkipWordAll(s, i);
    assert forall k :: 0 <= k < |w| ==> w[k] == s[i + k];
    WordsOfWord(w);
  }



  lemma WordsOfCollapse(s: string)
    ensures Words(Collapse(s)) == Words(s)
  {
    WordsOfCollapseFrom(s, 0);
  }

  // ---------------------------------------------------------------------------
  // Normal strings and joining
  // ---------------------------------------------------------------------------

  /** Trimming a single-spaced string gives a normal one. */
  lemma TrimSingleSpaced(u: string)
    requires SingleSpaced(u)
    ensures Normal(Trim(u))
  {
    var r := Trim(u);
    var a := SkipSpaces(u, 0);
    TrimEndAll(u, |u|);
    var b := TrimEnd(u, |u|);
    assert a < |u| ==> a < b && r == u[a..b];
    assert forall i :: 0 <= i < |r| ==> r[i] == u[a + i];
    forall i | 0 <= i < |r| && IsSpace(r[i])
      ensures r[i] == ' ' && i + 1 < |r| && !IsSpace(r[i + 1])
    {
      assert r[i] == u[a + i];
      if i + 1 < |r| { assert r[i + 1] == u[a + i + 1]; }
    }
  }

  /** In a normal string, a word that is not the last is followed by one ' '
      and a normal rest. */
  lemma NormalAfterWord(u: string, k: nat)
    requires Normal(u) && k < |u| && IsSpace(u[k])
    ensures u[k] == ' '
    ensures var rest := u[k + 1..]; rest != [] && !IsSpace(rest[0]) && Normal(rest)
  {
    var rest := u[k + 1..];
    forall i | 0 <= i < |rest| && IsSpace(rest[i])
      ensures rest[i] == ' ' && i + 1 < |rest| && !IsSpace(rest[i + 1])
    {
      assert rest[i] == u[k + 1 + i];
      if i + 1 < |rest| { assert rest[i + 1] == u[k + 2 + i]; }
    }
  }

  lemma JoinCons(w: string, ws: seq<string>, sep: string)
    requires ws != []
    ensures JoinWith([w] + ws, sep) == w + sep + JoinWith(ws, sep)
  {
    assert ([w] + ws)[1..] == ws;
  }

  /** A normal string is the single-space join of its words. */
  lemma {:induction false} NormalIsJoinOfWords(u: string)
    requires Normal(u)
    ensures JoinWith(Words(u), " ") == u
    decreases |u|
  {
    if u != [] {
      var k := SkipWord(u, 0);
      SkipWordAll(u, 0);
      if k == |u| {
        WordsOfWord(u);
      } else {
        var w := u[..k];
        var rest := u[k + 1..];
        NormalAfterWord(u, k);
        NormalIsJoinOfWords(rest);
        assert u == w + [' '] + rest;
        WordsAroundSpace(w, ' ', rest);
        assert forall i :: 0 <= i < |w| ==> w[i] == u[i];
        WordsOfWord(w);
        assert Words(rest) != [];
        JoinCons(w, Words(rest), " ");
      }
    }
  }

  /** Joining words with single spaces gives a normal string whose words are
      exactly the words joined: `Words` and `JoinWith(·, " ")` are inverse. */
  lemma {:induction false} JoinOfWordsIsNormal(ws: seq<string>)
    requires forall k :: 0 <= k < |ws| ==> IsWord(ws[k])
    ensures Normal(JoinWith(ws, " "))
    ensures Words(JoinWith(ws, " ")) == ws
    decreases |ws|
  {
    if |ws| == 1 {
      WordsOfWord(ws[0]);
    } else if |ws| > 1 {
      var w := ws[0];
      var rest := JoinWith(ws[1..], " ");
      JoinOfWordsIsNormal(ws[1..]);
      var u := w + " " + rest;
      assert u == w + [' '] + rest;
      assert rest != [];
      WordsAroundSpace(w, ' ', rest);
      WordsOfWord(w);
      assert forall i :: 0 <= i < |w| ==> u[i] == w[i];
      forall i | 0 <= i < |u| && IsSpace(u[i])
        ensures u[i] == ' ' && i + 1 < |u| && !IsSpace(u[i + 1])
      {
        if i == |w| {
          assert u[i + 1] == rest[0];
        } else {
          assert u[i] == rest[i - |w| - 1];
          if i + 1 < |u| { assert u[i + 1] == rest[i - |w|]; }
        }
      }
      assert u[|u| - 1] == rest[|rest| - 1];
    }
  }

  /** The words of strings joined with a whitespace separator. */
  lemma {:induction false} WordsOfJoin(ps: seq<string>, sep: char)
    requires IsSpace(sep)
    ensures Words(JoinWith(ps, [sep])) == WordsOfAll(ps)
    decreases |ps|
  {
    if |ps| == 1 {
      assert WordsOfAll(ps) == Words(ps[0]) + WordsOfAll([]);
    } else if |ps| > 1 {
      WordsOfJoin(ps[1..], sep);
      WordsAroundSpace(ps[0], sep, JoinWith(ps[1..], [sep]));
      assert JoinWith(ps, [sep]) == ps[0] + [sep] + JoinWith(ps[1..], [sep]);
    }
  }

  /** `s.replace(/\s+/g, " ").trim()` is the words of `s` joined by single
      spaces. */
  lemma TrimCollapseIsJoinOfWords(s: string)
    ensures Trim(Collapse(s)) == JoinWith(Words(s), " ")
  {
    var u := Collapse(s);
    CollapseShape(s);
    TrimSingleSpaced(u);
    WordsOfTrim(u);
    WordsOfCollapse(s);
    NormalIsJoinOfWords(Trim(u));
  }

  // ---------------------------------------------------------------------------
  // Split
  // ---------------------------------------------------------------------------

  lemma {:induction false} SplitFromTrimmed(s: string, i: nat)
    requires i < |s| && !IsSpace(s[i]) && !IsSpace(s[|s| - 1])
    ensures SplitFrom(s, i) == WordsFrom(s, i)
    decreases |s| - i
  {
    var k := SkipWord(s, i);
    assert WordsFrom(s, i) == [s[i..k]] + WordsFrom(s, k);
    if k == |s| {
      assert s[i..] == s[i..k];
      assert WordsFrom(s, k) == [];
    } else {
      var j := SkipSpaces(s, k);
      SkipSpacesAll(s, k);
      assert j < |s|;
      SplitFromTrimmed(s, j);
      WordsSkip(s, k);
    }
  }

  /** On a string with no whitespace at either end, `split(/\s+/)` yields
      exactly its words. */
  lemma SplitTrimmedIsWords(s: string)
    requires s != [] && !IsSpace(s[0]) && !IsSpace(s[|s| - 1])
    ensures Split(s) == Words(s)
  {
    SplitFromTrimmed(s, 0);
  }

  // ---------------------------------------------------------------------------
  // Lowercasing
  // ---------------------------------------------------------------------------

  /** Strings with whitespace in the same places. */
  predicate SameSpaces(s: string, t: string) {
    |s| == |t| && forall i :: 0 <= i < |s| ==> (IsSpace(s[i]) <==> IsSpace(t[i]))
  }

  lemma {:induction false} SameSpacesSkip(s: string, t: string, i: nat)
    requires SameSpaces(s, t) && i <= |s|
    ensures SkipSpaces(s, i) == SkipSpaces(t, i)
    decreases |s| - i
  {
    if i < |s| && IsSpace(s[i]) { SameSpacesSkip(s, t, i + 1); }
  }

  lemma {:induction false} SameSpacesTrimEnd(s: string, t: string, j: nat)
    requires SameSpaces(s, t) && j <= |s|
    ensures TrimEnd(s, j) == TrimEnd(t, j)
    decreases j
  {
    if j > 0 && IsSpace(s[j - 1]) { SameSpacesTrimEnd(s, t, j - 1); }
  }

  lemma LowerSameSpaces(s: string)
    ensures SameSpaces(s, ToLower(s))
  {
    forall i | 0 <= i < |s| ensures IsSpace(s[i]) <==> IsSpace(ToLower(s)[i]) {
      assert ToLower(s)[i] == LowerChar(s[i]);
    }
  }

  /** Lowercasing keeps a string blank or non-blank. */
  lemma LowerAllSpace(s: string)
    ensures AllSpace(ToLower(s)) <==> AllSpace(s)
  {
    LowerSameSpaces(s);
    var l := ToLower(s);
    if !AllSpace(s) {
      var i :| 0 <= i < |s| && !IsSpace(s[i]);
      assert !IsSpace(l[i]);
    }
    if !AllSpace(l) {
      var i :| 0 <= i < |l| && !IsSpace(l[i]);
      assert !IsSpace(s[i]);
    }
  }

  lemma LowerOfSlice(s: string, a: nat, b: nat)
    requires a <= b <= |s|
    ensures ToLower(s[a..b]) == ToLower(s)[a..b]
  {
    var x, y := ToLower(s[a..b]), ToLower(s)[a..b];
    forall i | 0 <= i < |x| ensures x[i] == y[i] {
      assert s[a..b][i] == s[a + i];
    }
  }

  /** Lowercasing commutes with trimming. */
  lemma LowerOfTrim(s: string)
    ensures ToLower(Trim(s)) == Trim(ToLower(s))
  {
    var l := ToLower(s);
    LowerSameSpaces(s);
    SameSpacesSkip(s, l, 0);
    SameSpacesTrimEnd(s, l, |s|);
    var a := SkipSpaces(s, 0);
    if a < |s| {
      TrimEndAll(s, |s|);
      LowerOfSlice(s, a, TrimEnd(s, |s|));
    }
  }
}
