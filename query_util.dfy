/**
 * Named-parameter substitution (`QueryUtil::buildQueryByNamedArgs`, also
 * written inline in the vapm MySQL connection): every key `k` of the named
 * arguments becomes the search token ":" + k, and PHP's array form of
 * `str_replace` replaces the tokens one pair at a time, in the array's
 * order, each pass working on the output of the previous one. Replacement
 * is literal: no quoting, no escaping.
 */
module QueryUtil {

  /** PHP's ordered array of named arguments, values in their string form. */
  type NamedArgs = seq<(string, string)>

  /** The search token for a key. */
  function Token(key: string): (t: string)
    ensures |t| == |key| + 1 && t[0] == ':' && t[1..] == key
  {
    [':'] + key
  }

  /** `pat` occurs in `s` starting at index `i`. */
  predicate OccursAt(s: string, pat: string, i: nat)
  {
    i + |pat| <= |s| && s[i..i + |pat|] == pat
  }

  /** `pat` occurs somewhere in `s`. */
  ghost predicate Occurs(s: string, pat: string)
  {
    exists i: nat :: OccursAt(s, pat, i)
  }

  /**
   * One `str_replace` pass: scans `s` left to right and replaces every
   * non-overlapping occurrence of `pat` by `rep`; the text a replacement
   * inserts is not scanned again.
   */
  function ReplaceAll(s: string, pat: string, rep: string): (r: string)
    requires pat != []
    ensures |rep| == |pat| ==> |r| == |s|
    decreases |s|
  {
    if |s| < |pat| then s
    else if s[..|pat|] == pat then rep + ReplaceAll(s[|pat|..], pat, rep)
    else [s[0]] + ReplaceAll(s[1..], pat, rep)
  }

  /** `buildQueryByNamedArgs`: one `ReplaceAll` per named argument, in order. */
  function BuildQuery(query: string, args: NamedArgs): (r: string)
    ensures (forall i :: 0 <= i < |args| ==> |args[i].1| == |Token(args[i].0)|) ==> |r| == |query|
    decreases |args|
  {
    if args == [] then query
    else BuildQuery(ReplaceAll(query, Token(args[0].0), args[0].1), args[1..])
  }

  /**
   * Both MySQL connections substitute only when the argument array is
   * non-empty; the guard changes nothing, because substitution with no
   * arguments is the identity.
   */
  function SubstituteIfAny(query: string, args: NamedArgs): (q: string)
    ensures q == BuildQuery(query, args)
  {
    if |args| > 0 then BuildQuery(query, args) else query
  }

  /** A text in which `pat` does not occur comes out of `ReplaceAll` unchanged. */
  lemma {:induction false} ReplaceAllAbsent(s: string, pat: string, rep: string)
    requires pat != []
    requires !Occurs(s, pat)
    ensures ReplaceAll(s, pat, rep) == s
    decreases |s|
  {
    if |s| >= |pat| {
      assert !OccursAt(s, pat, 0);
      assert s[..|pat|] != pat;
      forall i: nat ensures OccursAt(s[1..], pat, i) ==> OccursAt(s, pat, i + 1) {
        if i + |pat| <= |s[1..]| {
          assert s[1..][i..i + |pat|] == s[i + 1..i + 1 + |pat|];
        }
      }
      ReplaceAllAbsent(s[1..], pat, rep);
      assert [s[0]] + s[1..] == s;
    }
  }

  /** Replacing a pattern by itself changes nothing. */
  lemma {:induction false} ReplaceAllSelf(s: string, pat: string)
    requires pat != []
    ensures ReplaceAll(s, pat, pat) == s
    decreases |s|
  {
    if |s| >= |pat| {
      if s[..|pat|] == pat {
        ReplaceAllSelf(s[|pat|..], pat);
        assert s[..|pat|] + s[|pat|..] == s;
      } else {
        ReplaceAllSelf(s[1..], pat);
        assert [s[0]] + s[1..] == s;
      }
    }
  }

  /**
   * The leftmost occurrence is replaced and scanning resumes right after it:
   * when `pat` does not start anywhere inside `a`, the occurrence that
   * follows `a` becomes `rep`, and the rest `b` is processed on its own.
   * Applied repeatedly this says that every occurrence is replaced, not
   * just the first.
   */
  lemma {:induction false} ReplaceAllFirst(a: string, pat: string, b: string, rep: string)
    requires pat != []
    requires forall i: nat :: i < |a| ==> !OccursAt(a + pat, pat, i)
    ensures ReplaceAll(a + pat + b, pat, rep) == a + rep + ReplaceAll(b, pat, rep)
    decreases |a|
  {
    if a == [] {
      assert a + pat + b == pat + b;
      ReplaceAllAtToken(pat, b, rep);
    } else {
      assert !OccursAt(a + pat, pat, 0);
      NoEarlyOccurrenceTail(a, pat);
      ReplaceAllFirst(a[1..], pat, b, rep);
      ReplaceAllFirstStep(a, pat, b, rep);
    }
  }

  /** One step of `ReplaceAllFirst`: a first character of `a` that starts no token is kept. */
  lemma ReplaceAllFirstStep(a: string, pat: string, b: string, rep: string)
    requires pat != [] && a != [] && !OccursAt(a + pat, pat, 0)
    requires ReplaceAll(a[1..] + pat + b, pat, rep) == a[1..] + rep + ReplaceAll(b, pat, rep)
    ensures ReplaceAll(a + pat + b, pat, rep) == a + rep + ReplaceAll(b, pat, rep)
  {
    var s := a + pat + b;
    SplitFirst(a, pat, b);
    ReplaceAllSkip(s, pat, rep);
    SplitFirst(a, rep, ReplaceAll(b, pat, rep));
  }

  /** `a + x + y` with `a` non-empty: its first character is `a`'s, then the rest; the text starts as `a + x` does. */
  lemma SplitFirst(a: string, x: string, y: string)
    requires a != []
    ensures var s := a + x + y;
            && s[0] == a[0] && s[1..] == a[1..] + x + y && s == [a[0]] + (a[1..] + x + y)
            && s[..|a + x|] == a + x
  {
    var s := a + x + y;
    assert s == [a[0]] + (a[1..] + x + y);
  }

  /** A text that starts with the pattern: the replacement, then the rest on its own. */
  lemma ReplaceAllAtToken(pat: string, b: string, rep: string)
    requires pat != []
    ensures ReplaceAll(pat + b, pat, rep) == rep + ReplaceAll(b, pat, rep)
  {
    var s := pat + b;
    assert s[..|pat|] == pat && s[|pat|..] == b;
  }

  /** A text that does not start with the pattern keeps its first character. */
  lemma ReplaceAllSkip(s: string, pat: string, rep: string)
    requires pat != [] && |s| >= |pat| && s[..|pat|] != pat
    ensures ReplaceAll(s, pat, rep) == [s[0]] + ReplaceAll(s[1..], pat, rep)
  {
  }

  /** Dropping the first character of `a` keeps `pat` from starting inside what is left of it. */
  lemma NoEarlyOccurrenceTail(a: string, pat: string)
    requires a != []
    requires forall i: nat :: i < |a| ==> !OccursAt(a + pat, pat, i)
    ensures forall i: nat :: i < |a[1..]| ==> !OccursAt(a[1..] + pat, pat, i)
  {
    forall i: nat | i < |a[1..]| ensures !OccursAt(a[1..] + pat, pat, i) {
      assert !OccursAt(a + pat, pat, i + 1);
      assert (a[1..] + pat)[i..i + |pat|] == (a + pat)[i + 1..i + 1 + |pat|];
    }
  }

  /** A token starts with ':', so it cannot start at a position holding another character. */
  lemma NoColonNoToken(a: string, key: string, rest: string)
    requires ':' !in a
    ensures forall i: nat :: i < |a| ==> !OccursAt(a + rest, Token(key), i)
  {
    forall i: nat | i < |a| ensures !OccursAt(a + rest, Token(key), i) {
      assert (a + rest)[i] == a[i];
    }
  }

  /** A query without ':' is returned unchanged, whatever the arguments. */
  lemma {:induction false} BuildQueryNoColon(query: string, args: NamedArgs)
    requires ':' !in query
    ensures BuildQuery(query, args) == query
    decreases |args|
  {
    if args != [] {
      var pat := Token(args[0].0);
      NoColonNoToken(query, args[0].0, []);
      assert query + [] == query;
      assert forall i: nat :: !OccursAt(query, pat, i);
      ReplaceAllAbsent(query, pat, args[0].1);
      BuildQueryNoColon(query, args[1..]);
    }
  }

  /** Substitution is a fold: arguments split in two apply as two successive substitutions. */
  lemma {:induction false} BuildQueryAppend(query: string, xs: NamedArgs, ys: NamedArgs)
    ensures BuildQuery(query, xs + ys) == BuildQuery(BuildQuery(query, xs), ys)
    decreases |xs|
  {
    if xs != [] {
      assert xs + ys != [];
      assert (xs + ys)[0] == xs[0];
      assert (xs + ys)[1..] == xs[1..] + ys;
      BuildQueryAppend(ReplaceAll(query, Token(xs[0].0), xs[0].1), xs[1..], ys);
    } else {
      assert xs + ys == ys;
    }
  }

  /** A token at the end of a query without other ':' becomes the bare value. */
  lemma TokenAtEnd(a: string, key: string, value: string)
    requires ':' !in a
    ensures BuildQuery(a + Token(key), [(key, value)]) == a + value
  {
    NoColonNoToken(a, key, Token(key));
    assert a + Token(key) + [] == a + Token(key);
    ReplaceAllFirst(a, Token(key), [], value);
    BuildQuerySingle(a + Token(key), key, value);
  }

  /** A token at the start of a query is rewritten even when more name characters follow it. */
  lemma TokenAtStart(key: string, rest: string, value: string)
    requires ':' !in rest
    ensures BuildQuery(Token(key) + rest, [(key, value)]) == value + rest
  {
    var t := Token(key);
    assert [] + t + rest == t + rest;
    ReplaceAllFirst([], t, rest, value);
    NoColonNoToken(rest, key, []);
    assert rest + [] == rest;
    ReplaceAllAbsent(rest, t, value);
    BuildQuerySingle(t + rest, key, value);
  }

  /** The source's own example: `:id` with {id: "5"} becomes the bare text 5, without quotes. */
  lemma ExampleSelectById()
    ensures BuildQuery("SELECT * FROM `user` WHERE `id` = :id", [("id", "5")])
         == "SELECT * FROM `user` WHERE `id` = 5"
  {
    TokenAtEnd("SELECT * FROM `user` WHERE `id` = ", "id", "5");
    assert "SELECT * FROM `user` WHERE `id` = " + Token("id") == "SELECT * FROM `user` WHERE `id` = :id";
  }

  /** A token that is a prefix of a longer name is rewritten inside it: ":id" inside ":idx". */
  lemma ExamplePrefixToken()
    ensures BuildQuery(":idx = 1", [("id", "5")]) == "5x = 1"
  {
    TokenAtStart("id", "x = 1", "5");
    assert Token("id") + "x = 1" == ":idx = 1";
  }

  /** With one named argument the query goes through one `ReplaceAll`. */
  lemma BuildQuerySingle(query: string, key: string, value: string)
    ensures BuildQuery(query, [(key, value)]) == ReplaceAll(query, Token(key), value)
  {
    assert [(key, value)][1..] == [];
  }

  /** A value holding another token is rewritten by a later pair. */
  lemma ExampleChained()
    ensures BuildQuery(":a", [("a", ":b"), ("b", "7")]) == "7"
  {
    ReplaceAllFirst([], Token("a"), [], ":b");
    assert [] + Token("a") + [] == ":a";
    ReplaceAllFirst([], Token("b"), [], "7");
    assert [] + Token("b") + [] == ":b";
  }
}
