/** Logical paths -- components separated by `/` -- and the one question most
    rules ask of them: is this path at or beneath that one? */
module Paths {
  /** `path` is `prefix`, or lies beneath it at a directory boundary. */
  predicate Under(prefix: string, path: string) {
    path == prefix
    || (|prefix| < |path| && path[..|prefix|] == prefix && path[|prefix|] == '/')
  }

  /** The components of a path, empty ones included. */
  function Split(path: string): (parts: seq<string>)
    ensures |parts| >= 1
  {
    if path == "" then [""]
    else
      var rest := Split(path[1..]);
      if path[0] == '/' then [""] + rest
      else [[path[0]] + rest[0]] + rest[1..]
  }

  lemma SplitStep(c: char, rest: string)
    ensures Split([c] + rest) == if c == '/' then [""] + Split(rest) else [[c] + Split(rest)[0]] + Split(rest)[1..]
  {
    assert ([c] + rest)[1..] == rest;
  }

  lemma {:induction false} SplitPlain(name: string)
    requires '/' !in name
    ensures Split(name) == [name]
  {
    if name != "" {
      SplitPlain(name[1..]);
      assert name == [name[0]] + name[1..];
    }
  }

  /** Comparing text at a directory boundary is comparing whole components: the
      trap a plain prefix test falls into (`work` against `workshop`) is shut. */
  lemma {:induction false} UnderIsComponentPrefix(prefix: string, path: string)
    ensures Under(prefix, path) <==> Split(prefix) <= Split(path)
    decreases |prefix|
  {
    if prefix == "" {
      assert Split(prefix) <= Split(path) <==> Split(path)[0] == "";
    } else if path != "" && prefix[0] == path[0] {
      UnderIsComponentPrefix(prefix[1..], path[1..]);
      var p, q := Split(prefix[1..]), Split(path[1..]);
      if prefix[0] == '/' {
        PrefixCons("", p, q);
      } else {
        HeadConsPrefix(prefix[0], p, q);
      }
    } else {
      if path != "" {
        FirstCharacter(prefix);
        FirstCharacter(path);
      }
    }
  }

  lemma FirstCharacter(path: string)
    requires path != ""
    ensures path[0] == '/' ==> Split(path)[0] == ""
    ensures path[0] != '/' ==> Split(path)[0] != "" && Split(path)[0][0] == path[0]
  {}

  lemma PrefixCons<T>(x: T, p: seq<T>, q: seq<T>)
    ensures [x] + p <= [x] + q <==> p <= q
  {
    if p <= q {
      assert [x] + q == [x] + p + q[|p|..];
    }
    if [x] + p <= [x] + q {
      assert p == ([x] + p)[1..];
      assert q[..|p|] == ([x] + q)[..|p| + 1][1..];
    }
  }

  lemma HeadConsPrefix(c: char, p: seq<string>, q: seq<string>)
    requires |p| >= 1 && |q| >= 1
    ensures [[c] + p[0]] + p[1..] <= [[c] + q[0]] + q[1..] <==> p <= q
  {
    assert p == [p[0]] + p[1..] && q == [q[0]] + q[1..];
    PrefixCons(p[0], p[1..], q[1..]);
    PrefixCons([c] + p[0], p[1..], q[1..]);
    if p[0] != q[0] {
      assert ([c] + p[0])[1..] != ([c] + q[0])[1..];
    }
    if [[c] + p[0]] + p[1..] <= [[c] + q[0]] + q[1..] {
      assert ([[c] + p[0]] + p[1..])[0] == ([[c] + q[0]] + q[1..])[0];
    }
  }

  /** Being beneath is transitive. */
  lemma {:induction false} UnderTransitive(a: string, b: string, c: string)
    requires Under(a, b) && Under(b, c)
    ensures Under(a, c)
  {
    UnderIsComponentPrefix(a, b);
    UnderIsComponentPrefix(b, c);
    UnderIsComponentPrefix(a, c);
    assert Split(a) <= Split(c);
  }

  /** A path another device may name: inside the folder, and nowhere else. */
  predicate IsSafe(path: string) {
    path != "" && path[0] != '/' && '\0' !in path
    && forall i | 0 <= i < |Split(path)| :: Split(path)[i] != "" && Split(path)[i] != "." && Split(path)[i] != ".."
  }

  /** Of two places a path lies beneath, the shorter holds the longer. */
  lemma UnderBoth(a: string, b: string, path: string)
    requires Under(a, path) && Under(b, path) && |a| <= |b|
    ensures Under(a, b)
  {
    if |a| < |b| {
      assert b[..|a|] == path[..|a|] == a;
      assert b[|a|] == path[|a|];
    } else {
      assert a == path[..|a|] == b;
    }
  }
}
