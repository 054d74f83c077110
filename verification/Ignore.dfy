/** Which names are never synced, in either direction: version control's directories,
    lock files, downloads under way, and the files a transfer puts together. */
module Ignore {
  import opened Wrappers
  import opened Versions
  import opened Names
  import Paths
  import Text

  function IgnoredDirs(): set<string> { {".git", ".svn", ".hg", ".bzr", "node_modules", "__pycache__"} }

  function IgnoredNames(): set<string> { {".DS_Store", "Thumbs.db", "desktop.ini"} }

  function IgnoredPrefixes(): set<string> { {".#", "~$", ".~lock."} }

  function IgnoredSuffixes(): set<string> {
    {".tmp", ".temp", ".swp", ".swx", ".part", ".partial", ".crdownload", ".download", Incoming(), "~"}
  }

  /** What ends the name of a file being put together. */
  function Incoming(): string { ".incoming" }

  /** Where the store is, if it is inside the folder, and directories left out besides. */
  datatype Rules = Rules(store: Option<string>, extra: set<string>)

  predicate EndsWith(s: string, suffix: string) { |suffix| <= |s| && s[|s| - |suffix|..] == suffix }

  predicate IsIgnoredName(name: string) {
    name in IgnoredNames()
    || (exists p | p in IgnoredPrefixes() :: p <= name)
    || exists s | s in IgnoredSuffixes() :: EndsWith(Text.Lower(name), s)
  }

  predicate IsIgnored(rules: Rules, path: string) {
    (rules.store.Some? && Paths.Under(rules.store.value, path))
    || (exists part | part in Paths.Split(path) :: part in IgnoredDirs() || part in rules.extra)
    || IsIgnoredName(path[|Dir(path)|..])
  }

  /** What another device names is taken only if it lies inside the folder and is not
      one of these. */
  predicate Refused(rules: Rules, path: string) { !Paths.IsSafe(path) || IsIgnored(rules, path) }

  /** A file at the top of the folder, under a name with nothing to be ignored for, is let
      through. */
  lemma TopNameIsTaken(name: string)
    requires name != "" && '/' !in name && '\0' !in name && name != "." && name != ".."
    requires name !in IgnoredDirs() && !IsIgnoredName(name)
    ensures !Refused(Rules(None, {}), name)
  {
    Paths.SplitPlain(name);
    assert "" + name == name == name[0..];
    DirIs("", name);
    hide Dir, Paths.Split, IgnoredDirs, IsIgnoredName;
  }

  lemma UmlautIsTaken()
    ensures !Refused(Rules(None, {}), UMLAUT)
  {
    var name := UMLAUT;
    assert |name| == 5 && name[0] == '\U{00FC}' && name[1] == '.' && name[2] == 't' && name[3] == 'x' && name[4] == 't';
    hide *;
    NothingToIgnore(name);
  }

  lemma NothingToIgnore(name: string)
    requires |name| == 5 && name[0] as int >= 128 && name[4] == 't'
    requires '/' !in name && '\0' !in name && forall i | 0 <= i < 5 :: !('A' <= name[i] <= 'Z')
    ensures !Refused(Rules(None, {}), name)
  {
    PlainBeginnings();
    hide *;
    NoIgnoredName(name);
    TopNameIsTaken(name);
  }

  lemma NoIgnoredName(name: string)
    requires |name| == 5 && name[0] as int >= 128 && name[4] == 't'
    requires forall i | 0 <= i < 5 :: !('A' <= name[i] <= 'Z')
    ensures !IsIgnoredName(name)
  {
    hide IgnoredPrefixes, IgnoredNames, IgnoredSuffixes, Text.Lower, EndsWith;
    PlainBeginnings();
    assert forall p | p in IgnoredPrefixes() :: !(p <= name);
    Text.LowerOfLower(name);
    forall s | s in IgnoredSuffixes() ensures !EndsWith(Text.Lower(name), s) { NotItsEnding(name, s); }
  }

  lemma NotItsEnding(name: string, s: string)
    requires |name| == 5 && name[0] as int >= 128 && name[4] == 't' && s in IgnoredSuffixes()
    ensures !EndsWith(name, s)
  {
    PlainEndings();
    hide IgnoredSuffixes;
    if EndsWith(name, s) { EndsAlike(name, s); }
  }

  lemma PlainBeginnings()
    ensures forall p | p in IgnoredPrefixes() || p in IgnoredDirs() || p in IgnoredNames() ::
              p != "" && p[0] as int < 128
  {}

  lemma PlainEndings()
    ensures forall s | s in IgnoredSuffixes() :: s != "" && (s[|s| - 1] != 't' || s == ".part")
  {}

  lemma EndsAlike(name: string, s: string)
    requires EndsWith(name, s) && s != ""
    ensures name[|name| - 1] == s[|s| - 1] && (|s| == |name| ==> s == name)
  {
    assert name[|name| - |s|..][|s| - 1] == name[|name| - 1];
  }

  /** Where a file is put together before it is moved into place. */
  function StagingPath(path: string): string { Dir(path) + ("." + path[|Dir(path)|..] + Incoming()) }

  ghost predicate IsStaging(path: string) { exists x :: path == StagingPath(x) }

  /** A staging file is never a file another device may name. */
  lemma StagingIsRefused(rules: Rules, path: string)
    requires EndsWith(path[|Dir(path)|..], Incoming())
    ensures Refused(rules, path)
  {
    LowerEnds(path[|Dir(path)|..], Incoming());
    IncomingIsSuffix();
    Text.LowerOfLower(Incoming());
    assert Incoming() in IgnoredSuffixes();
    hide Dir, Paths.Under, Paths.Split, Paths.IsSafe, Text.Lower, IgnoredDirs, IgnoredNames, IgnoredPrefixes,
      IgnoredSuffixes, Incoming, EndsWith;
  }

  lemma {:induction false} StagingEnds(path: string)
    requires IsStaging(path)
    ensures EndsWith(path[|Dir(path)|..], Incoming())
  {
    var x :| path == StagingPath(x);
    var name := "." + x[|Dir(x)|..] + Incoming();
    DirIs(Dir(x), name);
  }

  lemma {:induction false} LowerEnds(s: string, suffix: string)
    requires EndsWith(s, suffix)
    ensures EndsWith(Text.Lower(s), Text.Lower(suffix))
  {
    Text.LowerAt(s);
    Text.LowerAt(suffix);
    var n := |s| - |suffix|;
    forall i | 0 <= i < |suffix| ensures Text.Lower(s)[n..][i] == Text.Lower(suffix)[i] {
      assert s[n + i] == s[n..][i] == suffix[i];
    }
  }

  /** A file this device lets another device name is not a staging file, nor is the name
      it is filed under when its own is taken. */
  lemma LetThroughIsNotStaging(rules: Rules, v: FileVersion)
    requires !Refused(rules, v.path) && IsDevice(v.author)
    ensures !IsStaging(v.path) && !IsStaging(ReceivedPath(v))
  {
    if IsStaging(v.path) {
      StagingEnds(v.path);
      StagingIsRefused(rules, v.path);
    }
    if IsStaging(ReceivedPath(v)) {
      StagingEnds(ReceivedPath(v));
      ReceivedEnds(v);
      StagingIsRefused(rules, v.path);
    }
  }

  /** A made-up name ends in work under way only if the original's does: the date before
      the extension holds no dot. */
  lemma ReceivedEnds(v: FileVersion)
    requires IsDevice(v.author)
    requires EndsWith(ReceivedPath(v)[|Dir(ReceivedPath(v))|..], Incoming())
    ensures EndsWith(v.path[|Dir(v.path)|..], Incoming())
  {
    hide FormatUtc, Dir, ExtensionAt, IsSuffix;
    var when, ext := FormatUtc(v.at), Extension(v);
    var front := Stem(v) + "." + "from" + "-" + ShortId(v.author) + "-";
    DateText(v.at);
    ReceivedName(v);
    assert Base(v) == Stem(v) + ext;
    hide *;
    assert IsSuffix(Incoming()) by { IncomingIsSuffix(); }
    LastOfName(front, when, ext, Incoming());
  }

  lemma IncomingIsSuffix()
    ensures IsSuffix(Incoming())
    ensures forall i | 0 <= i < |Incoming()| :: !('A' <= Incoming()[i] <= 'Z')
  {
    var s := Incoming();
    assert |s| == 9 && s[8] == 'g';
    assert [s[|s| - 1]][0] == 'g';
  }

  lemma ReceivedName(v: FileVersion)
    requires IsDevice(v.author)
    ensures var path := ReceivedPath(v);
            path[|Dir(path)|..]
                == Stem(v) + "." + "from" + "-" + ShortId(v.author) + "-" + FormatUtc(v.at) + Extension(v)
  {
    DecorationBeside(v, "from");
    hide FormatUtc, Dir, ExtensionAt;
  }

  /** Text that a date cannot end in, with a dot at its head only. */
  predicate IsSuffix(s: string) {
    s != "" && s[0] == '.' && '.' !in s[1..] && '-' !in s && !IsDateText([s[|s| - 1]])
  }

  lemma LastOfName(front: string, when: string, ext: string, suffix: string)
    requires IsDateText(when) && (ext == "" || (ext[0] == '.' && '.' !in ext[1..])) && IsSuffix(suffix)
    requires EndsWith(front + when + ext, suffix) && front != "" && front[|front| - 1] == '-'
    ensures ext == suffix
  {
    var name, k := front + when + ext, |front + when|;
    var n := |name| - |suffix|;
    forall i | 0 <= i < |suffix| ensures name[n + i] == suffix[i] {
      assert name[n..][i] == suffix[i];
    }
    assert name[k - 1] == if when == "" then '-' else when[|when| - 1];
    assert ext != "" by { assert name[|name| - 1] == suffix[|suffix| - 1]; }
    assert name[k] == '.';
    forall i | 0 < i < |suffix| ensures suffix[i] != '.' { assert suffix[1..][i - 1] == suffix[i]; }
    forall i | k < i < |name| ensures name[i] != '.' { assert name[i] == ext[1..][i - k - 1]; }
    assert k == n;
    assert name[k..] == ext;
  }
}
