/**
 * `combineClasses` from the terminal's style helpers: it keeps the truthy
 * arguments, joins them with spaces, turns every whitespace run into one
 * space and trims the ends.
 */
module TerminalStyles {
  import opened Text

  /** One argument of `combineClasses`: a class string, `undefined` or `false`. */
  datatype ClassArg = Str(s: string) | Undefined | False

  /** What `filter(Boolean)` keeps: a non-empty string. */
  predicate Truthy(a: ClassArg) {
    a.Str? && a.s != []
  }

  /** `classes.filter(Boolean)`. */
  function Kept(args: seq<ClassArg>): (r: seq<string>)
    ensures |r| <= |args|
  {
    if args == [] then []
    else if Truthy(args[0]) then [args[0].s] + Kept(args[1..])
    else Kept(args[1..])
  }

  /** `filter(Boolean)` distributes over concatenation, and keeps a single
      argument exactly when it is a non-empty string; together these say that
      the kept strings are those of the truthy arguments, in order. */
  lemma {:induction false} KeptAppend(a: seq<ClassArg>, b: seq<ClassArg>)
    ensures Kept(a + b) == Kept(a) + Kept(b)
    ensures |a| == 1 ==> Kept(a) == (if Truthy(a[0]) then [a[0].s] else [])
    decreases |a|
  {
    if a == [] {
      assert a + b == b;
    } else {
      assert (a + b)[0] == a[0] && (a + b)[1..] == a[1..] + b;
      KeptAppend(a[1..], b);
      if |a| == 1 { assert a[1..] == []; }
    }
  }

  /** The kept strings are exactly the strings of the truthy arguments. */
  lemma {:induction false} KeptMembers(args: seq<ClassArg>)
    ensures forall x :: x in Kept(args) <==> exists i :: 0 <= i < |args| && Truthy(args[i]) && args[i].s == x
    decreases |args|
  {
    if args != [] {
      KeptMembers(args[1..]);
      forall x | x in Kept(args) ensures exists i :: 0 <= i < |args| && Truthy(args[i]) && args[i].s == x {
        if !(Truthy(args[0]) && x == args[0].s) {
          assert x in Kept(args[1..]);
          var i :| 0 <= i < |args[1..]| && Truthy(args[1..][i]) && args[1..][i].s == x;
          assert Truthy(args[i + 1]) && args[i + 1].s == x;
        }
      }
      forall x, i | 0 <= i < |args| && Truthy(args[i]) && args[i].s == x ensures x in Kept(args) {
        if i > 0 {
          assert Truthy(args[1..][i - 1]) && args[1..][i - 1].s == x;
        }
      }
    }
  }

  /** `combineClasses(...classes)`. */
  function CombineClasses(args: seq<ClassArg>): (r: string)
    ensures Normal(r)
  {
    var u := Collapse(JoinWith(Kept(args), " "));
    CollapseShape(JoinWith(Kept(args), " "));
    TrimSingleSpaced(u);
    Trim(u)
  }

  /** The class tokens an argument carries: the words of a string, none
      for `undefined` or `false`. */
  function ArgWords(a: ClassArg): seq<string> {
    if a.Str? then Words(a.s) else []
  }

  /** The class tokens of all arguments, in argument order. */
  function ArgTokens(args: seq<ClassArg>): seq<string> {
    if args == [] then [] else ArgWords(args[0]) + ArgTokens(args[1..])
  }

  lemma {:induction false} KeptTokens(args: seq<ClassArg>)
    ensures WordsOfAll(Kept(args)) == ArgTokens(args)
    decreases |args|
  {
    if args != [] {
      KeptTokens(args[1..]);
      if Truthy(args[0]) {
        var ps := [args[0].s] + Kept(args[1..]);
        assert ps[0] == args[0].s && ps[1..] == Kept(args[1..]);
      } else if args[0].Str? {
        assert Words(args[0].s) == [];
      }
    }
  }

  lemma {:induction false} ArgTokensAppend(a: seq<ClassArg>, b: seq<ClassArg>)
    ensures ArgTokens(a + b) == ArgTokens(a) + ArgTokens(b)
    decreases |a|
  {
    if a != [] {
      assert (a + b)[0] == a[0] && (a + b)[1..] == a[1..] + b;
      ArgTokensAppend(a[1..], b);
      assert ArgTokens(a + b) == ArgWords(a[0]) + ArgTokens(a[1..] + b);
      assert ArgTokens(a) == ArgWords(a[0]) + ArgTokens(a[1..]);
      AppendAssoc(ArgWords(a[0]), ArgTokens(a[1..]), ArgTokens(b));
    } else {
      assert a + b == b;
    }
  }

  lemma {:induction false} TokensAreWords(args: seq<ClassArg>)
    ensures forall k :: 0 <= k < |ArgTokens(args)| ==> IsWord(ArgTokens(args)[k])
    decreases |args|
  {
    if args != [] {
      TokensAreWords(args[1..]);
      if args[0].Str? { WordsAreWords(args[0].s); }
      var h, t := ArgWords(args[0]), ArgTokens(args[1..]);
      assert forall k :: 0 <= k < |h + t| ==> (h + t)[k] == if k < |h| then h[k] else t[k - |h|];
    }
  }

  /** The result is the class tokens of the arguments, in argument order,
      separated by single spaces. */
  lemma CombineIsJoinOfTokens(args: seq<ClassArg>)
    ensures CombineClasses(args) == JoinWith(ArgTokens(args), " ")
  {
    var joined := JoinWith(Kept(args), " ");
    TrimCollapseIsJoinOfWords(joined);
    WordsOfJoin(Kept(args), ' ');
    KeptTokens(args);
  }

  /** The tokens of the result are exactly the tokens of the arguments, in
      order. */
  lemma CombineTokens(args: seq<ClassArg>)
    ensures Words(CombineClasses(args)) == ArgTokens(args)
  {
    CombineIsJoinOfTokens(args);
    TokensAreWords(args);
    JoinOfWordsIsNormal(ArgTokens(args));
  }

  /** The result has no whitespace at either end, no two whitespace
      characters in a row, and all its whitespace is ' '. */
  lemma CombineShape(args: seq<ClassArg>)
    ensures var r := CombineClasses(args);
      && (r == [] || (!IsSpace(r[0]) && !IsSpace(r[|r| - 1])))
      && (forall i :: 0 <= i < |r| && IsSpace(r[i]) ==> r[i] == ' ')
      && (forall i :: 0 <= i < |r| - 1 && IsSpace(r[i]) ==> !IsSpace(r[i + 1]))
  {
  }

  /** An argument that carries no token (`undefined`, `false`, an empty or
      all-whitespace string) does not change the result. */
  lemma NoTokenArgIsIgnored(pre: seq<ClassArg>, a: ClassArg, post: seq<ClassArg>)
    requires ArgWords(a) == []
    ensures CombineClasses(pre + [a] + post) == CombineClasses(pre + post)
  {
    ArgTokensAppend(pre + [a], post);
    ArgTokensAppend(pre, [a]);
    ArgTokensAppend(pre, post);
    assert ArgTokens([a]) == ArgWords(a) + ArgTokens([]);
    assert ArgTokens(pre + [a]) == ArgTokens(pre);
    CombineIsJoinOfTokens(pre + [a] + post);
    CombineIsJoinOfTokens(pre + post);
  }

  /** The falsy values `undefined`, `false` and `""` contribute nothing. */
  lemma FalsyIsIgnored(pre: seq<ClassArg>, a: ClassArg, post: seq<ClassArg>)
    requires !Truthy(a)
    ensures CombineClasses(pre + [a] + post) == CombineClasses(pre + post)
  {
    if a.Str? { assert Words(a.s) == []; }
    NoTokenArgIsIgnored(pre, a, post);
  }

  /** A normalised class string passes through unchanged. */
  lemma CombineOfNormal(u: string)
    requires Normal(u)
    ensures CombineClasses([Str(u)]) == u
  {
    CombineIsJoinOfTokens([Str(u)]);
    assert ArgTokens([Str(u)]) == Words(u) + ArgTokens([]);
    assert ArgTokens([Str(u)]) == Words(u);
    NormalIsJoinOfWords(u);
  }

  /** Applying `combineClasses` to its own result changes nothing. */
  lemma CombineIdempotent(args: seq<ClassArg>)
    ensures CombineClasses([Str(CombineClasses(args))]) == CombineClasses(args)
  {
    CombineOfNormal(CombineClasses(args));
  }
}
