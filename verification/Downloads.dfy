/** A file sent to this device, taken as an ordinary file in Downloads: staged beside
    its place, moved there, recorded, and only then confirmed to its sender -- with
    the process free to stop between any two of these. */
module Downloads {
  import opened Wrappers
  import opened Versions
  import opened Names
  import opened Planning
  import opened Ignore

  /** The directory, by name, the bytes by their hash; the sends recorded as taken,
      and where; those whose sender has been told. And, for the record, which send
      each file moved into place came from. */
  datatype Desk = Desk(
    files: map<string, Hash>, taken: map<Send, string>, told: set<Send>, born: map<string, FileVersion>)

  function SendOf(v: FileVersion): Send { Send(v.author, v.path, v.vector) }

  /** How far an attempt gets: nothing touched; the fetch cut off, or the process
      stopped while it ran, with something in the staging file; stopped with the file
      staged; the move refused, which removes it; stopped after the move; after the
      record; or all of it, the sender told. */
  datatype Fate = Untouched | CutOff(partial: Hash) | Staged | MoveRefused | Moved | Recorded | Told

  /** Where a delivery goes: it is there already; a name is free; or neither is. Or the
      program stops, for want of a second name. */
  datatype Choice = Already(path: string) | Free(path: string) | Neither | Stopped {
    predicate Open() { Already? || Free? }
  }

  /** `blocked` names are taken by something whose bytes cannot be read: a directory,
      say. */
  function ChooseAt(files: map<string, Hash>, blocked: set<string>, path: string, hash: Hash): Choice {
    if path in blocked then Neither
    else if path !in files then Free(path)
    else if files[path] == hash then Already(path)
    else Neither
  }

  /** Both names are worked out before either is looked at. */
  function Choose(files: map<string, Hash>, blocked: set<string>, v: FileVersion): Choice
    requires v.content.File?
  {
    match Decorated(v, "from")
    case None => Stopped
    case Some(other) =>
      var first := ChooseAt(files, blocked, v.path, v.content.hash);
      if first.Neither? then ChooseAt(files, blocked, other, v.content.hash) else first
  }

  /** The record, which stands once made. */
  function Note(taken: map<Send, string>, v: FileVersion, path: string): map<Send, string> {
    if SendOf(v) in taken then taken else taken[SendOf(v) := path]
  }

  function Record(d: Desk, v: FileVersion, path: string, fate: Fate): Desk {
    match fate
    case Recorded => d.(taken := Note(d.taken, v, path))
    case Told => d.(taken := Note(d.taken, v, path), told := d.told + {SendOf(v)})
    case _ => d
  }

  /** The directory and the records after an attempt. */
  function Attempt(d: Desk, blocked: set<string>, v: FileVersion, fate: Fate): Desk {
    if v.content.Deleted? then d else AttemptAt(d, Choose(d.files, blocked, v), v, fate)
  }

  function AttemptAt(d: Desk, place: Choice, v: FileVersion, fate: Fate): Desk
    requires v.content.File?
  {
    match place
    case Neither => d
    case Stopped => d
    case Already(path) => Record(d, v, path, fate)
    case Free(path) =>
      var staging := StagingPath(path);
      match fate
      case Untouched => d
      case CutOff(partial) => d.(files := d.files[staging := partial])
      case Staged => d.(files := d.files[staging := v.content.hash])
      case MoveRefused => d.(files := d.files - {staging})
      case _ =>
        var moved := d.(files := (d.files - {staging})[path := v.content.hash], born := d.born[path := v]);
        Record(moved, v, path, fate)
  }

  class Directory {
    var files: map<string, Hash>
    var taken: map<Send, string>
    var told: set<Send>
    const blocked: set<string>
    ghost var born: map<string, FileVersion>

    constructor (files: map<string, Hash>, blocked: set<string>)
      ensures Now() == Desk(files, map[], {}, map[]) && this.blocked == blocked
    {
      this.files, taken, told, born := files, map[], {}, map[];
      this.blocked := blocked;
    }

    ghost function Now(): Desk reads this { Desk(files, taken, told, born) }

    /** The first of the two names that is free, or has these bytes already. */
    method FindPlace(v: FileVersion) returns (c: Choice)
      requires v.content.File?
      ensures c == Choose(files, blocked, v)
    {
      if !CanDecorate(v.path) {
        return Stopped;
      }
      var names := [v.path, ReceivedPath(v)];
      hide ReceivedPath, CanDecorate;
      for i := 0 to 2
        invariant forall k | 0 <= k < i :: ChooseAt(files, blocked, names[k], v.content.hash).Neither?
      {
        var name := names[i];
        assert i == 1 ==> ChooseAt(files, blocked, names[0], v.content.hash).Neither?;
        if name !in files && name !in blocked {
          return Free(name);
        }
        if name !in blocked && files[name] == v.content.hash {
          return Already(name);
        }
      }
      assert ChooseAt(files, blocked, names[0], v.content.hash).Neither?;
      assert ChooseAt(files, blocked, names[1], v.content.hash).Neither?;
      return Neither;
    }

    /** One attempt at a delivery, getting as far as `fate` lets it. */
    method TakeIntoDownloads(v: FileVersion, fate: Fate) returns (done: bool)
      modifies this
      ensures Now() == Attempt(old(Now()), blocked, v, fate)
      ensures done <==> v.content.File? && fate.Told? && Choose(old(files), blocked, v).Open()
    {
      hide StagingPath, Choose;
      if v.content.Deleted? {
        return false;
      }
      var place := FindPlace(v);
      if !place.Open() {
        return false;
      }
      var path := place.path;
      if place.Already? {
        done := TakenIntoDownloads(v, path, fate);
        return;
      }
      var staging := StagingPath(path);
      match fate {
        case Untouched => return false;
        case CutOff(partial) =>
          files := files[staging := partial];
          return false;
        case Staged =>
          files := files[staging := v.content.hash];
          return false;
        case MoveRefused =>
          files := files - {staging};
          return false;
        case _ =>
          files := (files - {staging})[path := v.content.hash];
          born := born[path := v];
          done := TakenIntoDownloads(v, path, fate);
      }
    }

    /** Record a delivery that is in place, and tell its sender. */
    method TakenIntoDownloads(v: FileVersion, path: string, fate: Fate) returns (done: bool)
      modifies this`taken, this`told
      ensures Now() == Record(old(Now()), v, path, fate)
      ensures done <==> fate.Told?
    {
      if !fate.Recorded? && !fate.Told? {
        return false;
      }
      if SendOf(v) !in taken {
        taken := taken[SendOf(v) := path];
      }
      if fate.Recorded? {
        return false;
      }
      told := told + {SendOf(v)};
      return true;
    }
  }

  // ----- any number of attempts

  type Attempts = seq<(FileVersion, Fate)>

  /** A file under names that are not staging names. */
  ghost predicate Sendable(v: FileVersion) {
    v.content.File? && !IsStaging(v.path) && !IsStaging(ReceivedPath(v))
  }

  /** Every send says which device it is from. */
  predicate FromDevices(attempts: Attempts) {
    forall i | 0 <= i < |attempts| :: IsDevice(attempts[i].0.author)
  }

  /** An attempt at a version this device lets another name; the others are refused
      before anything is touched. */
  function Try(d: Desk, rules: Rules, blocked: set<string>, v: FileVersion, fate: Fate): Desk {
    if Refused(rules, v.path) then d else Attempt(d, blocked, v, fate)
  }

  function TryAll(d: Desk, rules: Rules, blocked: set<string>, attempts: Attempts): Desk {
    if attempts == [] then d
    else
      var n := |attempts| - 1;
      Try(TryAll(d, rules, blocked, attempts[..n]), rules, blocked, attempts[n].0, attempts[n].1)
  }

  ghost predicate IsName(v: FileVersion, path: string) { path == v.path || path == ReceivedPath(v) }

  /** What every attempt keeps. */
  ghost predicate Kept(start: Desk, d: Desk, blocked: set<string>) {
    && OldStay(start.files, d.files)
    && NewAreBorn(start.files, d)
    && (forall p | p in d.born :: BornAs(start, d.files, blocked, p, d.born[p]))
    && Placed(start, d)
    && (forall s | s in d.told :: s in start.told || s in d.taken)
  }

  /** No file there before has changed, staging files apart. */
  ghost predicate OldStay(before: map<string, Hash>, files: map<string, Hash>) {
    forall p | p in before && !IsStaging(p) :: p in files && files[p] == before[p]
  }

  /** Every new file came from a send. */
  ghost predicate NewAreBorn(before: map<string, Hash>, d: Desk) {
    forall p | p in d.files && p !in before && !IsStaging(p) :: p in d.born
  }

  /** What is recorded as taken is in place. */
  ghost predicate Placed(start: Desk, d: Desk) {
    forall s | s in d.taken :: s in start.taken || InPlace(d, s)
  }

  ghost predicate BornAs(start: Desk, files: map<string, Hash>, blocked: set<string>, p: string, v: FileVersion) {
    && Sendable(v) && p !in start.files && p !in blocked && p in files && files[p] == v.content.hash
    && (p == v.path
        || (p == ReceivedPath(v)
            && (v.path in blocked || (v.path in files && files[v.path] != v.content.hash))))
  }

  /** `v`'s bytes, whole, at `path`, which is one of its names. */
  ghost predicate IsAt(files: map<string, Hash>, v: FileVersion, path: string) {
    v.content.File? && IsName(v, path) && path in files && files[path] == v.content.hash
  }

  /** The send's bytes are where its record says, under one of its names. */
  ghost predicate InPlace(d: Desk, s: Send) {
    s in d.taken && exists v: FileVersion :: Sendable(v) && SendOf(v) == s && IsAt(d.files, v, d.taken[s])
  }

  lemma StagingIsStaging(path: string)
    ensures IsStaging(StagingPath(path))
  {}

  lemma ChoiceIs(files: map<string, Hash>, blocked: set<string>, v: FileVersion)
    requires v.content.File?
    ensures match Choose(files, blocked, v)
            case Already(path) => IsName(v, path) && path in files && files[path] == v.content.hash
            case Free(path) => IsFree(files, blocked, v, path)
            case _ => true
  {
    hide Decoration, CanDecorate;
  }

  lemma AttemptKeeps(start: Desk, d: Desk, blocked: set<string>, v: FileVersion, fate: Fate)
    requires Kept(start, d, blocked) && Sendable(v)
    ensures Kept(start, Attempt(d, blocked, v, fate), blocked)
  {
    hide StagingPath, Decorated, Decoration, IsStaging, Kept, Choose;
    if v.content.File? { ChoiceIs(d.files, blocked, v); }
    match Choose(d.files, blocked, v)
    case Neither =>
    case Stopped =>
    case Already(path) => RecordKeeps(start, d, blocked, v, path, fate);
    case Free(path) =>
      StagingIsStaging(path);
      var staging, hash := StagingPath(path), v.content.hash;
      match fate
      case Untouched =>
      case CutOff(partial) => FilesKeep(start, d, d.(files := d.files[staging := partial]), blocked, v, path, staging);
      case Staged => FilesKeep(start, d, d.(files := d.files[staging := hash]), blocked, v, path, staging);
      case MoveRefused => FilesKeep(start, d, d.(files := d.files - {staging}), blocked, v, path, staging);
      case _ =>
        var moved := d.(files := (d.files - {staging})[path := hash], born := d.born[path := v]);
        FilesKeep(start, d, moved, blocked, v, path, staging);
        RecordKeeps(start, moved, blocked, v, path, fate);
  }

  ghost predicate IsFree(files: map<string, Hash>, blocked: set<string>, v: FileVersion, path: string) {
    && v.content.File? && path !in files && path !in blocked && IsName(v, path)
    && (path == v.path || v.path in blocked || (v.path in files && files[v.path] != v.content.hash))
  }

  lemma RecordKeeps(start: Desk, d: Desk, blocked: set<string>, v: FileVersion, path: string, fate: Fate)
    requires Kept(start, d, blocked) && Sendable(v) && v.content.File? && IsName(v, path) && path in d.files
      && d.files[path] == v.content.hash
    ensures Kept(start, Record(d, v, path, fate), blocked)
  {
    hide Kept, Note, Sendable, IsName;
    if fate.Recorded? || fate.Told? {
      NotedKeeps(start, d, Record(d, v, path, fate), blocked, v, path);
    }
  }

  lemma NotedKeeps(start: Desk, d: Desk, e: Desk, blocked: set<string>, v: FileVersion, path: string)
    requires Kept(start, d, blocked) && Sendable(v) && IsName(v, path) && path in d.files
      && d.files[path] == v.content.hash
    requires e.files == d.files && e.born == d.born && e.taken == Note(d.taken, v, path)
    requires e.told <= d.told + {SendOf(v)}
    ensures Kept(start, e, blocked)
  {
    assert IsAt(d.files, v, path);
    hide OldStay, NewAreBorn, BornAs, IsAt, InPlace, Sendable, IsName, Placed, Note;
    NotePlaces(start, d, e, v, path);
  }

  lemma NotePlaces(start: Desk, d: Desk, e: Desk, v: FileVersion, path: string)
    requires Placed(start, d) && Sendable(v) && IsAt(d.files, v, path)
    requires e.files == d.files && e.taken == Note(d.taken, v, path)
    ensures Placed(start, e) && SendOf(v) in e.taken && forall s | s in d.taken :: s in e.taken
  {
    hide IsAt, InPlace, Sendable;
    forall s | s in e.taken ensures s in start.taken || InPlace(e, s) {
      if s !in start.taken {
        if s in d.taken {
          NotStaging(d, s);
          StaysInPlace(d, e, s);
        } else {
          NowInPlace(e, v, path);
        }
      }
    }
  }

  lemma NowInPlace(d: Desk, v: FileVersion, path: string)
    requires Sendable(v) && IsAt(d.files, v, path) && SendOf(v) in d.taken && d.taken[SendOf(v)] == path
    ensures InPlace(d, SendOf(v))
  {
    hide Sendable, IsAt;
  }

  lemma StaysInPlace(d: Desk, e: Desk, s: Send)
    requires InPlace(d, s) && s in e.taken && e.taken[s] == d.taken[s]
    requires d.taken[s] in e.files && e.files[d.taken[s]] == d.files[d.taken[s]]
    ensures InPlace(e, s)
  {
    hide Sendable, IsName;
    var v: FileVersion :| Sendable(v) && SendOf(v) == s && IsAt(d.files, v, d.taken[s]);
    assert IsAt(e.files, v, e.taken[s]);
  }

  /** The same files but for these two names. */
  ghost predicate Elsewhere(a: map<string, Hash>, b: map<string, Hash>, staging: string, path: string) {
    forall p | p != staging && p != path :: (p in b <==> p in a) && (p in a ==> b[p] == a[p])
  }

  /** Writing a staging file, or moving one to a free name, disturbs nothing else. */
  lemma FilesKeep(start: Desk, d: Desk, e: Desk, blocked: set<string>, v: FileVersion, path: string, staging: string)
    requires Kept(start, d, blocked) && Sendable(v) && IsFree(d.files, blocked, v, path) && IsStaging(staging)
    requires e.taken == d.taken && e.told == d.told && Elsewhere(d.files, e.files, staging, path)
    requires (e.born == d.born && path !in e.files)
             || (e.born == d.born[path := v] && path in e.files && e.files[path] == v.content.hash)
    ensures Kept(start, e, blocked)
  {
    hide StagingPath, ReceivedPath, IsStaging, BornAs, InPlace, Sendable, Placed, Elsewhere, OldStay, NewAreBorn,
      IsFree;
    OldAndNew(start, d, e, blocked, v, path, staging);
    forall p | p in d.born ensures p != path && BornAs(start, e.files, blocked, p, d.born[p]) {
      BornStays(start, d, e, blocked, p, d.born[p], staging, path);
    }
    if e.born != d.born { IsBorn(start, d, e, blocked, v, path, staging); }
    PlacedStay(start, d, e, staging, path);
  }

  lemma OldAndNew(start: Desk, d: Desk, e: Desk, blocked: set<string>, v: FileVersion, path: string, staging: string)
    requires OldStay(start.files, d.files) && NewAreBorn(start.files, d) && Sendable(v)
    requires IsFree(d.files, blocked, v, path) && IsStaging(staging) && Elsewhere(d.files, e.files, staging, path)
    requires (e.born == d.born && path !in e.files) || e.born == d.born[path := v]
    ensures path !in d.files && path !in start.files
    ensures OldStay(start.files, e.files) && NewAreBorn(start.files, e)
  {
    assert !IsStaging(path);
    hide StagingPath, ReceivedPath, IsStaging, Sendable, IsName;
  }

  lemma IsBorn(start: Desk, d: Desk, e: Desk, blocked: set<string>, v: FileVersion, path: string, staging: string)
    requires Sendable(v) && IsStaging(staging) && path !in start.files && IsFree(d.files, blocked, v, path)
    requires Elsewhere(d.files, e.files, staging, path) && path in e.files && e.files[path] == v.content.hash
    ensures BornAs(start, e.files, blocked, path, v)
  {
    hide ReceivedPath, IsStaging;
  }

  lemma PlacedStay(start: Desk, d: Desk, e: Desk, staging: string, path: string)
    requires Placed(start, d) && e.taken == d.taken && IsStaging(staging) && path !in d.files
    requires Elsewhere(d.files, e.files, staging, path)
    ensures Placed(start, e)
  {
    hide InPlace, IsStaging;
    forall s | s in e.taken ensures s in start.taken || InPlace(e, s) {
      if s !in start.taken {
        NotStaging(d, s);
        StaysInPlace(d, e, s);
      }
    }
  }

  lemma NotStaging(d: Desk, s: Send)
    requires InPlace(d, s)
    ensures !IsStaging(d.taken[s]) && d.taken[s] in d.files
  {}

  lemma BornStays(start: Desk, d: Desk, e: Desk, blocked: set<string>, p: string, v: FileVersion, staging: string,
      path: string)
    requires BornAs(start, d.files, blocked, p, v) && IsStaging(staging) && path !in d.files
    requires Elsewhere(d.files, e.files, staging, path)
    ensures p != path && BornAs(start, e.files, blocked, p, v)
  {
    hide StagingPath, ReceivedPath, IsStaging;
  }

  lemma {:induction false} TriesKeep(start: Desk, rules: Rules, blocked: set<string>, attempts: Attempts)
    requires FromDevices(attempts) && start.born == map[]
    ensures Kept(start, TryAll(start, rules, blocked, attempts), blocked)
  {
    if attempts == [] {
      assert Kept(start, start, blocked);
    } else {
      var n := |attempts| - 1;
      hide Kept, Choose, StagingPath, Attempt, Refused, IsStaging, IsDevice;
      TriesKeep(start, rules, blocked, attempts[..n]);
      TryKeeps(start, TryAll(start, rules, blocked, attempts[..n]), rules, blocked, attempts[n].0, attempts[n].1);
    }
  }

  /** What is let through is no staging file, so an attempt at it keeps all that. */
  lemma TryKeeps(start: Desk, d: Desk, rules: Rules, blocked: set<string>, v: FileVersion, fate: Fate)
    requires Kept(start, d, blocked) && IsDevice(v.author)
    ensures Kept(start, Try(d, rules, blocked, v, fate), blocked)
  {
    hide Kept, Choose, StagingPath, Refused, IsStaging, IsDevice, ReceivedPath;
    if !Refused(rules, v.path) && v.content.File? {
      LetThroughIsNotStaging(rules, v);
      AttemptKeeps(start, d, blocked, v, fate);
    }
  }

  function SendsOf(attempts: Attempts): set<FileVersion> {
    if attempts == [] then {} else SendsOf(attempts[..|attempts| - 1]) + {attempts[|attempts| - 1].0}
  }

  lemma {:induction false} BornOfSends(start: Desk, rules: Rules, blocked: set<string>, attempts: Attempts, p: string)
    requires start.born == map[]
    ensures var born := TryAll(start, rules, blocked, attempts).born;
            p in born ==> born[p] in SendsOf(attempts)
  {
    hide Attempt, Refused;
    if attempts != [] {
      var n := |attempts| - 1;
      BornOfSends(start, rules, blocked, attempts[..n], p);
      AttemptBears(TryAll(start, rules, blocked, attempts[..n]), blocked, attempts[n].0, attempts[n].1, p);
    }
  }

  lemma AttemptBears(d: Desk, blocked: set<string>, v: FileVersion, fate: Fate, p: string)
    ensures var born := Attempt(d, blocked, v, fate).born;
            p in born ==> born[p] == v || (p in d.born && born[p] == d.born[p])
  {
    hide Choose, StagingPath;
  }

  /** No send makes two files. */
  lemma OneFileASend(start: Desk, d: Desk, blocked: set<string>, p: string, q: string)
    requires Kept(start, d, blocked) && p in d.born && q in d.born && d.born[p] == d.born[q]
    ensures p == q
  {
    assert BornAs(start, d.files, blocked, p, d.born[p]) && BornAs(start, d.files, blocked, q, d.born[q]);
  }

  ghost function NewFiles(start: Desk, d: Desk): set<string> {
    set p | p in d.files && p !in start.files && !IsStaging(p)
  }

  /** Over any number of attempts at any sends, each getting as far as it may: no file
      that was there changes, staging files apart; every new file is some send's bytes,
      whole, under one of its two names, and there are no more of them than sends;
      whatever these attempts recorded as taken is in place; and they told no sender
      of anything that is not recorded. */
  lemma DownloadsSurviveStops(start: Desk, rules: Rules, blocked: set<string>, attempts: Attempts)
    requires FromDevices(attempts) && start.born == map[]
    ensures var end := TryAll(start, rules, blocked, attempts);
            && (forall p | p in start.files && !IsStaging(p) :: p in end.files && end.files[p] == start.files[p])
            && |NewFiles(start, end)| <= |SendsOf(attempts)|
            && (forall p | p in NewFiles(start, end) :: exists v: FileVersion ::
                  v in SendsOf(attempts) && IsAt(end.files, v, p))
            && (forall s | s in end.taken :: s in start.taken || InPlace(end, s))
            && (forall s | s in end.told :: s in start.told || s in end.taken)
  {
    var end := TryAll(start, rules, blocked, attempts);
    TriesKeep(start, rules, blocked, attempts);
    hide SendsOf, TryAll, Sendable, StagingPath;
    forall p | p in NewFiles(start, end)
      ensures p in end.born && end.born[p] in SendsOf(attempts) && IsAt(end.files, end.born[p], p)
    {
      BornOfSends(start, rules, blocked, attempts, p);
      assert BornAs(start, end.files, blocked, p, end.born[p]);
    }
    forall p, q | p in NewFiles(start, end) && q in NewFiles(start, end) && end.born[p] == end.born[q] ensures p == q {
      OneFileASend(start, end, blocked, p, q);
    }
    NoMoreThan(NewFiles(start, end), end.born, SendsOf(attempts));
  }

  lemma {:induction false} NoMoreThan(names: set<string>, born: map<string, FileVersion>, sends: set<FileVersion>)
    requires forall p | p in names :: p in born && born[p] in sends
    requires forall p, q | p in names && q in names && born[p] == born[q] :: p == q
    ensures |names| <= |sends|
  {
    if names != {} {
      var p :| p in names;
      NoMoreThan(names - {p}, born, sends - {born[p]});
      assert |names - {p}| == |names| - 1 && |sends - {born[p]}| == |sends| - 1;
    }
  }

  /** A send not taken before arrives exactly when this device lets its name in, a second
      name can be made of it, and the two are not both taken by other things: after any number of attempts at it cut
      short anywhere and then one that is not, its bytes are in place under one of its
      names, it is recorded, its sender has been told, and at most one file is new.
      Otherwise nothing is done. */
  lemma {:induction false} DeliveryArrives(start: Desk, rules: Rules, blocked: set<string>, v: FileVersion,
      fates: seq<Fate>)
    requires v.content.File? && IsDevice(v.author) && start.born == map[] && SendOf(v) !in start.taken
    ensures var end := TryAll(start, rules, blocked, Tries(v, fates + [Told]));
            && (SendOf(v) in end.taken <==>
                  !Refused(rules, v.path) && CanDecorate(v.path) && !BothTaken(start.files, blocked, v))
            && (SendOf(v) in end.taken ==> InPlace(end, SendOf(v)) && SendOf(v) in end.told)
            && (SendOf(v) !in end.taken ==> end == start)
            && |NewFiles(start, end)| <= 1
  {
    var all := Tries(v, fates + [Told]);
    var d, end := TryAll(start, rules, blocked, Tries(v, fates)), TryAll(start, rules, blocked, all);
    DownloadsSurviveStops(start, rules, blocked, all);
    OnlySend(all, v);
    LastTry(start, rules, blocked, v, fates);
    hide TryAll, Attempt, Choose, Sendable, StagingPath, ReceivedPath, IsStaging, IsAt, InPlace, Refused;
    OpenIs(start.files, blocked, v);
    if Refused(rules, v.path) || !Choose(start.files, blocked, v).Open() {
      TriesStayShut(start, rules, blocked, v, fates);
      ShutOrTaken(start, blocked, v);
    } else {
      LetThroughIsNotStaging(rules, v);
      assert Sendable(v) by { Named(v); }
      TriesStayOpen(start, rules, blocked, v, fates);
      ShutOrTaken(d, blocked, v);
    }
  }

  /** Another thing is at each of the two names. */
  predicate BothTaken(files: map<string, Hash>, blocked: set<string>, v: FileVersion)
    requires v.content.File?
  {
    IsOther(files, blocked, v.path, v.content.hash) && IsOther(files, blocked, ReceivedPath(v), v.content.hash)
  }

  predicate IsOther(files: map<string, Hash>, blocked: set<string>, name: string, hash: Hash) {
    name in blocked || (name in files && files[name] != hash)
  }

  lemma OpenIs(files: map<string, Hash>, blocked: set<string>, v: FileVersion)
    requires v.content.File?
    ensures Choose(files, blocked, v).Open() <==> CanDecorate(v.path) && !BothTaken(files, blocked, v)
  {
    hide CanDecorate, Decoration;
  }

  lemma StoppedIs(files: map<string, Hash>, blocked: set<string>, v: FileVersion)
    requires v.content.File?
    ensures Choose(files, blocked, v).Stopped? <==> !CanDecorate(v.path)
  {
    hide CanDecorate, Decoration;
  }

  lemma Named(v: FileVersion)
    requires v.content.File? && !IsStaging(v.path) && !IsStaging(ReceivedPath(v))
    ensures Sendable(v)
  {}

  lemma LastTry(start: Desk, rules: Rules, blocked: set<string>, v: FileVersion, fates: seq<Fate>)
    ensures TryAll(start, rules, blocked, Tries(v, fates + [Told]))
            == Try(TryAll(start, rules, blocked, Tries(v, fates)), rules, blocked, v, Told)
  {
    hide Try;
    assert Tries(v, fates + [Told])[..|fates|] == Tries(v, fates);
  }

  lemma ToldIsThere(d: Desk, blocked: set<string>, v: FileVersion)
    requires v.content.File? && Choose(d.files, blocked, v).Open()
    ensures exists p :: IsAt(Attempt(d, blocked, v, Told).files, v, p)
  {
    ChoiceIs(d.files, blocked, v);
    hide Choose, IsName, AttemptAt, IsAt;
    var place := Choose(d.files, blocked, v);
    assert IsName(v, place.path) && (place.Already? ==> place.path in d.files && d.files[place.path] == v.content.hash);
    hide IsFree;
    PlacedThere(d, place, v);
    assert IsAt(Attempt(d, blocked, v, Told).files, v, place.path);
  }

  lemma PlacedThere(d: Desk, place: Choice, v: FileVersion)
    requires v.content.File? && place.Open() && IsName(v, place.path)
    requires place.Already? ==> place.path in d.files && d.files[place.path] == v.content.hash
    ensures IsAt(AttemptAt(d, place, v, Told).files, v, place.path)
  {
    hide IsName, StagingPath;
  }

  /** An attempt that is not cut short either cannot begin, or ends with the send taken. */
  lemma ShutOrTaken(d: Desk, blocked: set<string>, v: FileVersion)
    requires v.content.File?
    ensures var e := Attempt(d, blocked, v, Told);
            if !Choose(d.files, blocked, v).Open() then e == d else SendOf(v) in e.taken && SendOf(v) in e.told
  {
    hide StagingPath, ReceivedPath, Choose;
  }

  lemma {:induction false} TriesStayShut(start: Desk, rules: Rules, blocked: set<string>, v: FileVersion,
      fates: seq<Fate>)
    requires v.content.File? && (Refused(rules, v.path) || !Choose(start.files, blocked, v).Open())
    ensures TryAll(start, rules, blocked, Tries(v, fates)) == start
  {
    hide Refused, Choose, StagingPath;
    if fates != [] {
      var n := |fates| - 1;
      TriesStayShut(start, rules, blocked, v, fates[..n]);
      assert Tries(v, fates)[..n] == Tries(v, fates[..n]);
    }
  }

  lemma {:induction false} OnlySend(attempts: Attempts, v: FileVersion)
    requires forall i | 0 <= i < |attempts| :: attempts[i].0 == v
    ensures SendsOf(attempts) == if attempts == [] then {} else {v}
  {
    if attempts != [] { OnlySend(attempts[..|attempts| - 1], v); }
  }

  ghost function Tries(v: FileVersion, fates: seq<Fate>): (r: Attempts)
    ensures |r| == |fates| && forall i | 0 <= i < |r| :: r[i] == (v, fates[i])
  {
    seq(|fates|, i requires 0 <= i < |fates| => (v, fates[i]))
  }

  /** A file of such a name is let in, finds both names free, and never arrives. */
  lemma UmlautNeverArrives(v: FileVersion, fates: seq<Fate>)
    requires v.path == UMLAUT && v.content.File?
    ensures !Refused(Rules(None, {}), v.path) && !BothTaken(map[], {}, v)
    ensures var start := Desk(map[], map[], {}, map[]); TryAll(start, Rules(None, {}), {}, Tries(v, fates)) == start
  {
    UmlautIsTaken();
    UmlautCannot();
    hide Refused, CanDecorate, Decoration;
    TriesStayShut(Desk(map[], map[], {}, map[]), Rules(None, {}), {}, v, fates);
  }

  /** Its own attempts never take a send's names from it. */
  lemma {:induction false} TriesStayOpen(start: Desk, rules: Rules, blocked: set<string>, v: FileVersion,
      fates: seq<Fate>)
    requires Sendable(v) && Choose(start.files, blocked, v).Open()
    ensures Choose(TryAll(start, rules, blocked, Tries(v, fates)).files, blocked, v).Open()
  {
    hide Choose, Attempt, Refused, Sendable;
    if fates != [] {
      var n := |fates| - 1;
      TriesStayOpen(start, rules, blocked, v, fates[..n]);
      assert Tries(v, fates)[..n] == Tries(v, fates[..n]);
      StaysOpen(TryAll(start, rules, blocked, Tries(v, fates[..n])), blocked, v, fates[n]);
    }
  }

  lemma StaysOpen(d: Desk, blocked: set<string>, v: FileVersion, fate: Fate)
    requires Sendable(v) && Choose(d.files, blocked, v).Open()
    ensures Choose(Attempt(d, blocked, v, fate).files, blocked, v).Open()
  {
    hide StagingPath, Decoration, CanDecorate, IsStaging;
    var place := Choose(d.files, blocked, v);
    if place.Free? {
      StagingIsStaging(place.path);
      var e := Attempt(d, blocked, v, fate);
      var staging := StagingPath(place.path);
      forall p | p != staging && p != place.path
        ensures p in e.files <==> p in d.files
        ensures p in d.files ==> e.files[p] == d.files[p]
      {}
    }
  }

  /** And what is recorded is not offered again, by whatever list. */
  lemma TakenIsNotOffered(view: View, list: seq<FileVersion>, v: FileVersion)
    requires SendOf(v) in view.taken
    ensures Adopt(v) !in Deliveries(view, list)
  {
    if Adopt(v) in Deliveries(view, list) { UntakenOnly(view, list, Adopt(v)); }
  }
}
