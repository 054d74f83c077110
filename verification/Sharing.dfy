/** Rules about folders: the files they are kept in, and whom a set of them lets in. */
module Sharing {
  import opened Wrappers
  import opened Versions
  import opened Names
  import Paths

  function SharingDir(): (dir: string)
    ensures dir != "" && '/' !in dir
  {
    ".qurb-sharing"
  }

  // ----- rule files

  predicate IsRulePath(path: string) { SharingDir() + "/" <= path }

  function ReplaceChar(s: string, c: char, by_: string): string {
    if s == "" then "" else (if s[0] == c then by_ else [s[0]]) + ReplaceChar(s[1..], c, by_)
  }

  /** Every `pat`, from the left, replaced by one character. */
  function ReplaceText(s: string, pat: string, by_: char): string
    requires pat != ""
  {
    if s == "" then ""
    else if pat <= s then [by_] + ReplaceText(s[|pat|..], pat, by_)
    else [s[0]] + ReplaceText(s[1..], pat, by_)
  }

  function Escape(folder: string): string { ReplaceChar(ReplaceChar(folder, '%', "%25"), '/', "%2F") }

  function Unescape(name: string): string { ReplaceText(ReplaceText(name, "%2F", '/'), "%25", '%') }

  /** The rule file for `folder`. */
  function RulePath(folder: string): string { SharingDir() + "/" + Escape(folder) }

  predicate ValidFolder(folder: string) {
    folder != "" && folder[0] != '/' && folder[|folder| - 1] != '/'
    && !IsRulePath(folder) && folder != SharingDir() && Paths.IsSafe(folder)
  }

  /** Reading a folder back off the path of its rule; a conflict copy's gives none. */
  function RuleFolder(path: string): (r: Option<string>)
    ensures r.Some? ==> IsRulePath(path) && ValidFolder(r.value)
  {
    if !IsRulePath(path) then None
    else
      var name := path[|SharingDir()| + 1..];
      if name == "" || '/' in name || ConflictOrigin(path).Some? then None
      else
        var folder := Unescape(name);
        if ValidFolder(folder) then Some(folder) else None
  }

  /** Escaped twice on the way in, read twice on the way out. */
  lemma {:induction false} EscapeReadsBack(folder: string)
    ensures Unescape(Escape(folder)) == folder && '/' !in Escape(folder)
  {
    SlashesReadBack(folder);
    PercentsReadBack(folder);
  }

  lemma {:induction false} PercentsReadBack(folder: string)
    ensures ReplaceText(ReplaceChar(folder, '%', "%25"), "%25", '%') == folder
  {
    if folder != "" {
      PercentsReadBack(folder[1..]);
      var s, rest := ReplaceChar(folder, '%', "%25"), ReplaceChar(folder[1..], '%', "%25");
      if folder[0] == '%' {
        assert s == "%25" + rest && s[3..] == rest && "%25" <= s;
      } else {
        assert s == [folder[0]] + rest && s[1..] == rest;
      }
    }
  }

  lemma {:induction false} SlashesReadBack(folder: string)
    ensures ReplaceText(Escape(folder), "%2F", '/') == ReplaceChar(folder, '%', "%25")
    ensures '/' !in Escape(folder)
  {
    if folder != "" {
      SlashesReadBack(folder[1..]);
      var s, rest := Escape(folder), Escape(folder[1..]);
      var once := ReplaceChar(folder[1..], '%', "%25");
      if folder[0] == '%' {
        EscapedPercent(once);
        assert ReplaceChar(folder, '%', "%25") == "%25" + once;
        assert s == "%25" + rest;
        CopiesThree(rest);
      } else if folder[0] == '/' {
        assert ReplaceChar(folder, '%', "%25") == "/" + once;
        assert ("/" + once)[1..] == once;
        assert s == "%2F" + rest && s[3..] == rest && "%2F" <= s;
      } else {
        assert ReplaceChar(folder, '%', "%25") == [folder[0]] + once;
        assert ([folder[0]] + once)[1..] == once;
        assert s == [folder[0]] + rest && s[1..] == rest;
      }
    }
  }

  lemma ReplaceCharFirst(first: char, rest: string, c: char, by_: string)
    ensures ReplaceChar([first] + rest, c, by_) == (if first == c then by_ else [first]) + ReplaceChar(rest, c, by_)
  {
    assert ([first] + rest)[1..] == rest;
  }

  lemma ReplaceTextFirst(first: char, rest: string, pat: string, by_: char)
    requires pat != "" && !(pat <= [first] + rest)
    ensures ReplaceText([first] + rest, pat, by_) == [first] + ReplaceText(rest, pat, by_)
  {
    assert ([first] + rest)[1..] == rest;
  }

  lemma EscapedPercent(once: string)
    ensures ReplaceChar("%25" + once, '/', "%2F") == "%25" + ReplaceChar(once, '/', "%2F")
  {
    ReplaceCharFirst('5', once, '/', "%2F");
    ReplaceCharFirst('2', "5" + once, '/', "%2F");
    ReplaceCharFirst('%', "2" + ("5" + once), '/', "%2F");
    assert "%25" + once == "%" + ("2" + ("5" + once));
  }

  lemma CopiesThree(rest: string)
    ensures ReplaceText("%25" + rest, "%2F", '/') == "%25" + ReplaceText(rest, "%2F", '/')
  {
    var s := "%" + ("2" + ("5" + rest));
    assert "%25" + rest == s;
    assert s[2] == '5';
    ReplaceTextFirst('5', rest, "%2F", '/');
    ReplaceTextFirst('2', "5" + rest, "%2F", '/');
    ReplaceTextFirst('%', "2" + ("5" + rest), "%2F", '/');
  }

  /** Writing a folder's name into a path and reading it back gives the folder -- unless
      the path is that of a conflict copy, and then the folder can have no rule. */
  lemma RuleNamesItsFolder(folder: string)
    requires ValidFolder(folder)
    ensures RuleFolder(RulePath(folder)) == Some(folder) <==> ConflictOrigin(RulePath(folder)).None?
    ensures IsRulePath(RulePath(folder))
  {
    EscapeReadsBack(folder);
    assert Unescape("") == "";
    hide Escape, Unescape, ConflictOrigin, SharingDir;
    var path := RulePath(folder);
    assert path[..|SharingDir()| + 1] == SharingDir() + "/";
    assert path[|SharingDir()| + 1..] == Escape(folder);
  }

  /** Unescaping a name keeps a conflict copy's mark in it. */
  lemma {:induction false} ReplaceKeepsMark(s: string, pat: string, by_: char)
    requires |pat| == 3 && pat[0] == '%' && pat[1] != '.' && pat[2] != '.' && HasMark(s)
    ensures HasMark(ReplaceText(s, pat, by_))
  {
    var i :| OccursAt(s, Mark(), i);
    assert s[i] == Mark()[0];
    if pat <= s {
      assert s[3..][i - 3..i - 3 + |Mark()|] == s[i..i + |Mark()|];
      assert OccursAt(s[3..], Mark(), i - 3);
      ReplaceKeepsMark(s[3..], pat, by_);
      MarkBehind(by_, ReplaceText(s[3..], pat, by_));
    } else if i == 0 {
      CopiedWhole(s, pat, by_, |Mark()|);
      assert OccursAt(ReplaceText(s, pat, by_), Mark(), 0);
    } else {
      assert s[1..][i - 1..i - 1 + |Mark()|] == s[i..i + |Mark()|];
      assert OccursAt(s[1..], Mark(), i - 1);
      ReplaceKeepsMark(s[1..], pat, by_);
      MarkBehind(s[0], ReplaceText(s[1..], pat, by_));
    }
  }

  lemma MarkBehind(c: char, s: string)
    requires HasMark(s)
    ensures HasMark([c] + s)
  {
    var i :| OccursAt(s, Mark(), i);
    assert ([c] + s)[i + 1..i + 1 + |Mark()|] == s[i..i + |Mark()|];
    assert OccursAt([c] + s, Mark(), i + 1);
  }

  lemma {:induction false} CopiedWhole(s: string, pat: string, by_: char, n: nat)
    requires |pat| == 3 && pat[0] == '%' && n <= |s| && '%' !in s[..n]
    ensures |ReplaceText(s, pat, by_)| >= n && ReplaceText(s, pat, by_)[..n] == s[..n]
  {
    if n > 0 {
      assert s[0] == s[..n][0];
      assert s[1..][..n - 1] == s[..n][1..];
      CopiedWhole(s[1..], pat, by_, n - 1);
    }
  }

  // ----- what the rules answer

  type Rules = map<string, set<DeviceId>>

  /** The first, from the top, of the folders with a rule that `path` is in. */
  function CoverFrom(rules: Rules, path: string, k: nat): (r: Option<string>)
    requires k <= |path|
    ensures r.Some? ==> r.value in rules && Paths.Under(r.value, path) && |r.value| >= k
    ensures forall f | f in rules && Paths.Under(f, path) && |f| >= k :: r.Some? && |r.value| <= |f|
    decreases |path| - k
  {
    if path[..k] in rules && Paths.Under(path[..k], path) then Some(path[..k])
    else if k == |path| then
      (assert forall f | Paths.Under(f, path) && |f| >= k :: f == path == path[..k];
       None)
    else
      (assert forall f | Paths.Under(f, path) && |f| == k :: f == path[..k];
       CoverFrom(rules, path, k + 1))
  }

  /** The folder whose rule covers `path`. */
  function Covering(rules: Rules, path: string): (r: Option<string>)
    ensures r.Some? ==> r.value in rules && Paths.Under(r.value, path)
    ensures forall f | f in rules && Paths.Under(f, path) :: r.Some? && |r.value| <= |f|
  {
    CoverFrom(rules, path, 0)
  }

  /** Whether `device` may see and change `path`. */
  predicate Allows(rules: Rules, path: string, device: DeviceId) {
    Covering(rules, path).None? || device in rules[Covering(rules, path).value]
  }

  /** Whether `device` may change the rule for `folder`. */
  predicate MayChange(rules: Rules, folder: string, device: DeviceId) {
    folder !in rules || device in rules[folder]
  }

  /** Every rule over `path` lets `device` in. */
  ghost predicate EveryRuleAllows(rules: Rules, path: string, device: DeviceId) {
    forall f | f in rules && Paths.Under(f, path) :: device in rules[f]
  }

  /** When rules nest, only the outermost is asked. Every rule over a path is
      honoured, for every path and device, exactly when no outermost rule lets in a
      device that a rule beneath it leaves out. */
  lemma EveryRuleApplies(rules: Rules)
    ensures (forall path, d :: Allows(rules, path, d) <==> EveryRuleAllows(rules, path, d))
      <==> (forall g | g in rules :: rules[Outermost(rules, g)] <= rules[g])
  {
    if forall path, d :: Allows(rules, path, d) <==> EveryRuleAllows(rules, path, d) {
      forall g | g in rules ensures rules[Outermost(rules, g)] <= rules[g] {
        forall d | d in rules[Outermost(rules, g)] ensures d in rules[g] {
          assert Paths.Under(g, g);
          assert Allows(rules, g, d);
        }
      }
    }
    if forall g | g in rules :: rules[Outermost(rules, g)] <= rules[g] {
      forall path, d ensures Allows(rules, path, d) <==> EveryRuleAllows(rules, path, d) {
        AllRulesWithin(rules, path, d);
      }
    }
  }

  lemma AllRulesWithin(rules: Rules, path: string, d: DeviceId)
    requires forall g | g in rules :: rules[Outermost(rules, g)] <= rules[g]
    ensures Allows(rules, path, d) <==> EveryRuleAllows(rules, path, d)
  {
    hide Paths.Under, CoverFrom;
    if Covering(rules, path).Some? && Allows(rules, path, d) {
      forall f | f in rules && Paths.Under(f, path) ensures d in rules[f] {
        SameOutermost(rules, path, f);
        assert rules[Outermost(rules, f)] <= rules[f];
      }
    }
  }

  function Outermost(rules: Rules, folder: string): (r: string)
    requires folder in rules
    ensures r in rules
  {
    assert Paths.Under(folder, folder);
    Covering(rules, folder).value
  }

  lemma SameOutermost(rules: Rules, path: string, f: string)
    requires f in rules && Paths.Under(f, path)
    ensures Covering(rules, path) == Some(Outermost(rules, f))
  {
    var c, o := Covering(rules, path).value, Outermost(rules, f);
    Paths.UnderBoth(c, f, path);
    Paths.UnderTransitive(o, f, path);
    Paths.UnderBoth(c, o, path);
    assert |c| == |o|;
    Paths.UnderBoth(o, c, path);
  }
}
