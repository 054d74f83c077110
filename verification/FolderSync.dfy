/** Keeping the index in step with the folder: the whole-tree pass run at startup
    (`reconcile`) and the batches the watcher reports (`apply`). */
module FolderSync {
  import opened Wrappers
  import Paths
  import opened Text

  /** A file's bytes. */
  type Bytes = seq<bv8>

  /** A regular file as the walk lists it: the name on disk, and the logical path
      that name normalises to. */
  datatype DiskFile = DiskFile(spelling: string, logical: string, content: Bytes, mtime: int)

  /** What the index says of a path: dead is a tombstone, and a live file that is
      not `here` was dropped from the folder to stay under the storage cap. */
  datatype Row = Row(content: Bytes, mtime: int, live: bool, here: bool)

  type Index = map<string, Row>

  /** The rows, and the paths whose size and time prove nothing yet. */
  datatype State = State(index: Index, racy: set<string>)

  /** What refuses to work on this run: index lookups and deletions by logical
      path, reads by name on disk. */
  datatype Faults = Faults(looks: set<string>, puts: set<string>, deletes: set<string>)

  const NONE := Faults({}, {}, {})

  datatype SyncStats = SyncStats(stored: nat, same: nat, deleted: nat, collided: nat, failures: seq<string>)

  const NOTHING := SyncStats(0, 0, 0, 0, [])

  /** Adding one run's figures to another's. Collisions are counted where the scan
      is, and are not carried over. */
  function Merge(a: SyncStats, b: SyncStats): SyncStats {
    SyncStats(a.stored + b.stored, a.same + b.same, a.deleted + b.deleted, a.collided,
              a.failures + b.failures)
  }

  // ----- the index

  predicate Live(index: Index, p: string) { p in index && index[p].live }

  /** Live, and its bytes expected in the folder. */
  predicate InFolder(index: Index, p: string) { Live(index, p) && index[p].here }

  /** The row of a file just read. */
  function FileRow(f: DiskFile): Row { Row(f.content, f.mtime, true, true) }

  /** Size and time match a live row, and are old enough to be believed. */
  predicate LooksSame(s: State, f: DiskFile) {
    f.logical !in s.racy && Live(s.index, f.logical)
    && |s.index[f.logical].content| == |f.content| && s.index[f.logical].mtime == f.mtime
  }

  const RACY := 3_000_000_000

  /** Written so recently that another write could leave the same time. */
  predicate TooRecent(mtime: int, clock: int) { -RACY < clock - mtime < RACY }

  function Marked(racy: set<string>, f: DiskFile, clock: int): set<string> {
    if TooRecent(f.mtime, clock) then racy + {f.logical} else racy - {f.logical}
  }

  /** Storing one file: nothing when it cannot be read. */
  function PutOne(s: State, f: DiskFile, clock: int, bad: set<string>): State {
    if f.spelling in bad then s
    else State(s.index[f.logical := FileRow(f)], Marked(s.racy, f, clock))
  }

  function PutStats(s: State, f: DiskFile, bad: set<string>): SyncStats {
    if f.spelling in bad then NOTHING.(failures := [f.spelling])
    else if Live(s.index, f.logical) && s.index[f.logical].content == f.content then NOTHING.(same := 1)
    else NOTHING.(stored := 1)
  }

  /** Storing a list of files, one after the other. */
  function PutAll(s: State, queue: seq<DiskFile>, clock: int, bad: set<string>): State {
    if queue == [] then s
    else
      var n := |queue| - 1;
      PutOne(PutAll(s, queue[..n], clock, bad), queue[n], clock, bad)
  }

  function PutAllStats(s: State, queue: seq<DiskFile>, clock: int, bad: set<string>): SyncStats {
    if queue == [] then NOTHING
    else
      var n := |queue| - 1;
      Merge(PutAllStats(s, queue[..n], clock, bad), PutStats(PutAll(s, queue[..n], clock, bad), queue[n], bad))
  }

  predicate DistinctPaths(files: seq<DiskFile>) {
    forall i, j | 0 <= i < j < |files| :: files[i].logical != files[j].logical
  }

  predicate AmongPaths(files: seq<DiskFile>, p: string) {
    exists i | 0 <= i < |files| :: files[i].logical == p
  }

  /** With one entry a path, storing a list does to each path what storing its own
      entry does, whatever the others are. */
  lemma {:induction false} PutAllElsewhere(s: State, queue: seq<DiskFile>, clock: int, bad: set<string>, p: string)
    requires !AmongPaths(queue, p)
    ensures Lookup(PutAll(s, queue, clock, bad).index, p) == Lookup(s.index, p)
    ensures p in PutAll(s, queue, clock, bad).racy <==> p in s.racy
  {
    if queue != [] {
      var n := |queue| - 1;
      assert queue[n].logical != p;
      forall i | 0 <= i < n ensures queue[..n][i].logical != p { assert queue[i].logical != p; }
      PutAllElsewhere(s, queue[..n], clock, bad, p);
    }
  }

  lemma {:induction false} PutAllAt(s: State, queue: seq<DiskFile>, clock: int, bad: set<string>, i: nat)
    requires DistinctPaths(queue) && i < |queue|
    ensures var p, f, t := queue[i].logical, queue[i], PutAll(s, queue, clock, bad);
            Lookup(t.index, p) == Lookup(PutOne(s, f, clock, bad).index, p)
            && (p in t.racy <==> p in PutOne(s, f, clock, bad).racy)
  {
    var n := |queue| - 1;
    if i == n {
      PutAllElsewhere(s, queue[..n], clock, bad, queue[n].logical);
    } else {
      PutAllAt(s, queue[..n], clock, bad, i);
    }
  }

  // ----- the scan

  /** A walk lists each name once, names of one logical path together. */
  predicate IsScan(tree: seq<DiskFile>) {
    (forall i, j | 0 <= i < j < |tree| :: tree[i].spelling != tree[j].spelling)
    && (forall i, j, k | 0 <= i < j < k < |tree| && tree[i].logical == tree[k].logical ::
         tree[j].logical == tree[i].logical)
  }

  /** The first spelling of each logical path. */
  function Kept(tree: seq<DiskFile>): seq<DiskFile> {
    if tree == [] then []
    else
      var n := |tree| - 1;
      if AmongPaths(tree[..n], tree[n].logical) then Kept(tree[..n]) else Kept(tree[..n]) + [tree[n]]
  }

  lemma {:induction false} KeptPaths(tree: seq<DiskFile>)
    ensures DistinctPaths(Kept(tree))
    ensures forall p :: AmongPaths(Kept(tree), p) <==> AmongPaths(tree, p)
    ensures |Kept(tree)| <= |tree|
  {
    if tree != [] {
      var n := |tree| - 1;
      KeptPaths(tree[..n]);
      var kept := Kept(tree[..n]);
      forall p ensures AmongPaths(tree, p) <==> AmongPaths(tree[..n], p) || tree[n].logical == p {
        AmongLast(tree[..n], tree[n], p);
        assert tree == tree[..n] + [tree[n]];
      }
      forall p ensures AmongPaths(kept + [tree[n]], p) <==> AmongPaths(kept, p) || tree[n].logical == p {
        AmongLast(kept, tree[n], p);
      }
    }
  }

  lemma AmongLast(files: seq<DiskFile>, f: DiskFile, p: string)
    ensures AmongPaths(files + [f], p) <==> AmongPaths(files, p) || f.logical == p
  {
    var more := files + [f];
    if AmongPaths(files, p) {
      var i :| 0 <= i < |files| && files[i].logical == p;
      assert more[i].logical == p;
    }
    if f.logical == p { assert more[|files|].logical == p; }
  }

  /** Dropping every entry after the first of its group, as the pass does: each
      logical path keeps the spelling listed first. */
  method KeepFirst(tree: seq<DiskFile>) returns (kept: seq<DiskFile>, skipped: nat)
    requires IsScan(tree)
    ensures kept == Kept(tree) && skipped == |tree| - |kept|
  {
    kept, skipped := [], 0;
    for i := 0 to |tree|
      invariant kept == Kept(tree[..i]) && skipped == i - |kept|
    {
      assert tree[..i + 1][..i] == tree[..i];
      if i > 0 && tree[i - 1].logical == tree[i].logical {
        skipped := skipped + 1;
      } else {
        kept := kept + [tree[i]];
      }
    }
    assert tree[..|tree|] == tree;
  }

  // ----- the whole-tree pass

  /** What the pass makes of a file it kept: looked up in vain, believed, found
      unreadable, read and found the same, or read and new. */
  datatype Verdict = Refused | Trusted | Unread | Reread | Stored
  {
    predicate Put() { Reread? || Stored? }
    predicate Queued() { Unread? || Reread? || Stored? }
  }

  function Decide(s: State, f: DiskFile, faults: Faults): Verdict {
    if f.logical in faults.looks then Refused
    else if LooksSame(s, f) then Trusted
    else if f.spelling in faults.puts then Unread
    else if Live(s.index, f.logical) && s.index[f.logical].content == f.content then Reread
    else Stored
  }

  /** The kept files that have to be read. */
  function Changed(s: State, kept: seq<DiskFile>, faults: Faults): seq<DiskFile> {
    if kept == [] then []
    else
      var n := |kept| - 1;
      Changed(s, kept[..n], faults) + if Decide(s, kept[n], faults).Queued() then [kept[n]] else []
  }

  /** How many of the files got this verdict. */
  function Tally(s: State, kept: seq<DiskFile>, faults: Faults, v: Verdict): nat {
    if kept == [] then 0
    else
      var n := |kept| - 1;
      Tally(s, kept[..n], faults, v) + if Decide(s, kept[n], faults) == v then 1 else 0
  }

  /** Live, expected in the folder, and no name on disk -- kept or skipped -- stands
      for it. */
  predicate Vanished(s: State, tree: seq<DiskFile>, p: string) {
    InFolder(s.index, p) && !AmongPaths(tree, p)
  }

  function Dead(row: Row): Row { row.(live := false) }

  /** The state a pass leaves: a file put has its row and its mark; a path with no
      file is dead if it vanished and could be deleted; the rest is as it was. */
  ghost predicate Settled(s: State, tree: seq<DiskFile>, faults: Faults, clock: int, t: State) {
    && (forall i | 0 <= i < |Kept(tree)| :: FileSettled(s, Kept(tree)[i], faults, clock, t))
    && (forall p | !AmongPaths(tree, p) ::
          Lookup(t.index, p) == GoneRow(s, tree, faults, p) && (p in t.racy <==> p in s.racy))
  }

  ghost predicate FileSettled(s: State, f: DiskFile, faults: Faults, clock: int, t: State) {
    var put := Decide(s, f, faults).Put();
    && Lookup(t.index, f.logical) == (if put then Some(FileRow(f)) else Lookup(s.index, f.logical))
    && (f.logical in t.racy <==> if put then TooRecent(f.mtime, clock) else f.logical in s.racy)
  }

  function GoneRow(s: State, tree: seq<DiskFile>, faults: Faults, p: string): Option<Row> {
    if Vanished(s, tree, p) && p !in faults.deletes then Some(Dead(s.index[p])) else Lookup(s.index, p)
  }

  lemma {:induction false} ChangedAre(s: State, kept: seq<DiskFile>, faults: Faults)
    requires DistinctPaths(kept)
    ensures forall f :: f in Changed(s, kept, faults) <==> f in kept && Decide(s, f, faults).Queued()
    ensures DistinctPaths(Changed(s, kept, faults))
  {
    if kept != [] {
      var n := |kept| - 1;
      ChangedAre(s, kept[..n], faults);
      assert kept == kept[..n] + [kept[n]];
      var rest := Changed(s, kept[..n], faults);
      forall j | 0 <= j < |rest| ensures rest[j].logical != kept[n].logical {
        assert rest[j] in kept[..n];
      }
    }
  }

  lemma ChangedPaths(s: State, kept: seq<DiskFile>, faults: Faults, p: string)
    requires DistinctPaths(kept)
    ensures AmongPaths(Changed(s, kept, faults), p)
            <==> exists i | 0 <= i < |kept| :: kept[i].logical == p && Decide(s, kept[i], faults).Queued()
  {
    ChangedAre(s, kept, faults);
    var queue := Changed(s, kept, faults);
    hide Changed;
    if AmongPaths(queue, p) {
      var j :| 0 <= j < |queue| && queue[j].logical == p;
      assert queue[j] in kept;
    }
    if i :| 0 <= i < |kept| && kept[i].logical == p && Decide(s, kept[i], faults).Queued() {
      assert kept[i] in queue;
    }
  }

  /** The figures of the storing pass are the verdicts counted beforehand: with one
      entry a path, storing one file never changes what another finds. */
  lemma {:induction false} PutsAreTallied(s: State, kept: seq<DiskFile>, faults: Faults, clock: int)
    requires DistinctPaths(kept)
    ensures var r := PutAllStats(s, Changed(s, kept, faults), clock, faults.puts);
            && r.stored == Tally(s, kept, faults, Stored) && r.same == Tally(s, kept, faults, Reread)
            && |r.failures| == Tally(s, kept, faults, Unread) && r.deleted == 0
  {
    if kept != [] {
      var n := |kept| - 1;
      var rest := Changed(s, kept[..n], faults);
      PutsAreTallied(s, kept[..n], faults, clock);
      ChangedPaths(s, kept[..n], faults, kept[n].logical);
      PutAllElsewhere(s, rest, clock, faults.puts, kept[n].logical);
      var more := Changed(s, kept, faults);
      if Decide(s, kept[n], faults).Queued() {
        assert more[..|more| - 1] == rest;
        PutStatsAlike(PutAll(s, rest, clock, faults.puts), s, kept[n], faults);
      } else {
        assert more == rest;
      }
    }
  }

  lemma PutStatsAlike(t: State, s: State, f: DiskFile, faults: Faults)
    requires Lookup(t.index, f.logical) == Lookup(s.index, f.logical) && Decide(s, f, faults).Queued()
    ensures PutStats(t, f, faults.puts) ==
      match Decide(s, f, faults)
      case Unread => NOTHING.(failures := [f.spelling])
      case Reread => NOTHING.(same := 1)
      case _ => NOTHING.(stored := 1)
  {}

  /** Every file kept got exactly one verdict. */
  lemma {:induction false} TalliesAddUp(s: State, kept: seq<DiskFile>, faults: Faults)
    ensures Tally(s, kept, faults, Refused) + Tally(s, kept, faults, Trusted) + Tally(s, kept, faults, Unread)
            + Tally(s, kept, faults, Reread) + Tally(s, kept, faults, Stored) == |kept|
  {
    if kept != [] { TalliesAddUp(s, kept[..|kept| - 1], faults); }
  }

  /** After the files are stored, before anything is deleted. */
  lemma StoredSettles(s: State, tree: seq<DiskFile>, faults: Faults, clock: int, i: nat)
    requires i < |Kept(tree)|
    ensures FileSettled(s, Kept(tree)[i], faults, clock, PutAll(s, Changed(s, Kept(tree), faults), clock, faults.puts))
  {
    var kept, f := Kept(tree), Kept(tree)[i];
    KeptPaths(tree);
    ChangedAre(s, kept, faults);
    ChangedPaths(s, kept, faults, f.logical);
    var queue := Changed(s, kept, faults);
    hide Kept, Changed, PutAll;
    if Decide(s, f, faults).Queued() {
      assert f in queue;
      var j :| 0 <= j < |queue| && queue[j] == f;
      PutAllAt(s, queue, clock, faults.puts, j);
    } else {
      PutAllElsewhere(s, queue, clock, faults.puts, f.logical);
    }
  }

  datatype DeleteError = NotFound | Broken

  class Folder {
    /** A replica has no folder behind it. */
    const replica: bool
    var tree: seq<DiskFile>
    var index: Index
    var racy: set<string>
    var clock: int
    var faults: Faults

    constructor (replica: bool, tree: seq<DiskFile>)
      requires IsScan(tree)
      ensures Valid() && this.replica == replica && this.tree == tree && index == map[] && racy == {} && faults == NONE
    {
      this.replica, this.tree, index, racy, faults := replica, tree, map[], {}, NONE;
    }

    ghost predicate Valid() reads this { IsScan(tree) }

    ghost function Now(): State reads this { State(index, racy) }

    /** Read one file and make the index say what it holds. */
    method PutFile(f: DiskFile) returns (stats: SyncStats)
      modifies this`index, this`racy
      ensures Now() == PutOne(old(Now()), f, clock, faults.puts)
      ensures stats == PutStats(old(Now()), f, faults.puts)
    {
      stats := NOTHING;
      if f.spelling in faults.puts {
        stats := stats.(failures := [f.spelling]);
        return;
      }
      racy := if TooRecent(f.mtime, clock) then racy + {f.logical} else racy - {f.logical};
      if f.logical in index && index[f.logical].live && index[f.logical].content == f.content {
        index := index[f.logical := index[f.logical].(mtime := f.mtime, here := true)];
        stats := stats.(same := 1);
      } else {
        index := index[f.logical := Row(f.content, f.mtime, true, true)];
        stats := stats.(stored := 1);
      }
    }

    /** Leave a tombstone where there is a live row. */
    method DeleteFile(p: string) returns (r: Result<(), DeleteError>)
      modifies this`index
      ensures r == if p in faults.deletes then Err(Broken) else if !Live(old(index), p) then Err(NotFound) else Ok(())
      ensures index == if r.Ok? then old(index)[p := Dead(old(index)[p])] else old(index)
    {
      if p in faults.deletes { return Err(Broken); }
      if p !in index || !index[p].live { return Err(NotFound); }
      index := index[p := index[p].(live := false)];
      return Ok(());
    }

    /** Store the files one after the other, whatever becomes of each. */
    method StoreAll(queue: seq<DiskFile>) returns (stats: SyncStats)
      modifies this`index, this`racy
      ensures Now() == PutAll(old(Now()), queue, clock, faults.puts)
      ensures stats == PutAllStats(old(Now()), queue, clock, faults.puts)
    {
      stats := NOTHING;
      for i := 0 to |queue|
        invariant Now() == PutAll(old(Now()), queue[..i], clock, faults.puts)
        invariant stats == PutAllStats(old(Now()), queue[..i], clock, faults.puts)
      {
        assert queue[..i + 1][..i] == queue[..i];
        var put := PutFile(queue[i]);
        stats := Merge(stats, put);
      }
      assert queue[..|queue|] == queue;
    }

    /** Which of the kept files have to be read. */
    method LookThrough(kept: seq<DiskFile>) returns (changed: seq<DiskFile>, stats: SyncStats)
      ensures changed == Changed(Now(), kept, faults)
      ensures stats.stored == stats.deleted == stats.collided == 0
      ensures stats.same == Tally(Now(), kept, faults, Trusted)
      ensures |stats.failures| == Tally(Now(), kept, faults, Refused)
    {
      changed, stats := [], NOTHING;
      for i := 0 to |kept|
        invariant changed == Changed(Now(), kept[..i], faults)
        invariant stats.stored == stats.deleted == stats.collided == 0
        invariant stats.same == Tally(Now(), kept[..i], faults, Trusted)
        invariant |stats.failures| == Tally(Now(), kept[..i], faults, Refused)
      {
        assert kept[..i + 1][..i] == kept[..i];
        var f := kept[i];
        if f.logical in faults.looks {
          stats := stats.(failures := stats.failures + [f.spelling]);
        } else if f.logical !in racy && f.logical in index && index[f.logical].live
               && |index[f.logical].content| == |f.content| && index[f.logical].mtime == f.mtime {
          stats := stats.(same := stats.same + 1);
        } else {
          changed := changed + [f];
        }
      }
      assert kept[..|kept|] == kept;
    }

    /** Tombstone what the index expects in the folder and the walk did not find. */
    method SweepVanished() returns (deleted: nat, failures: seq<string>)
      modifies this`index
      ensures forall p :: Lookup(index, p) == GoneRow(old(Now()), tree, faults, p)
      ensures deleted == |set p | p in old(index) && Vanished(old(Now()), tree, p) && p !in faults.deletes|
      ensures |failures| == |set p | p in old(index) && Vanished(old(Now()), tree, p) && p in faults.deletes|
    {
      deleted, failures := 0, [];
      ghost var start := Now();
      var left := set p | p in index && index[p].live;
      hide AmongPaths;
      ghost var seen, gone, kept: set<string> := {}, {}, {};
      while left != {}
        invariant forall p :: p in left ==> Live(start.index, p) && p !in seen
        invariant forall p :: Live(start.index, p) ==> p in left || p in seen
        invariant forall p ::
          Lookup(index, p) == if p in seen then GoneRow(start, tree, faults, p) else Lookup(start.index, p)
        invariant deleted == |gone| && |failures| == |kept|
        invariant forall p :: p in gone <==> p in seen && Vanished(start, tree, p) && p !in faults.deletes
        invariant forall p :: p in kept <==> p in seen && Vanished(start, tree, p) && p in faults.deletes
      {
        var p :| p in left;
        left := left - {p};
        seen := seen + {p};
        assert Lookup(index, p) == Lookup(start.index, p);
        if AmongPaths(tree, p) || !index[p].here {
          assert !Vanished(start, tree, p) && GoneRow(start, tree, faults, p) == Lookup(index, p);
          continue;
        }
        assert Vanished(start, tree, p);
        var r := DeleteFile(p);
        match r {
          case Ok(_) =>
            deleted := deleted + 1;
            gone := gone + {p};
          case Err(_) =>
            failures := failures + [p];
            kept := kept + {p};
        }
      }
      assert gone == set p | p in start.index && Vanished(start, tree, p) && p !in faults.deletes;
      assert kept == set p | p in start.index && Vanished(start, tree, p) && p in faults.deletes;
    }

    /** Compare the whole tree with the index and make them agree. */
    method Reconcile() returns (stats: SyncStats)
      requires Valid()
      modifies this`index, this`racy
      ensures replica ==> Now() == old(Now()) && stats == NOTHING
      ensures !replica ==> Settled(old(Now()), tree, faults, clock, Now())
      ensures !replica ==> Accounts(old(Now()), tree, faults, stats)
    {
      stats := NOTHING;
      if replica {
        return;
      }
      var kept, skipped := KeepFirst(tree);
      var changed, looked := LookThrough(kept);
      var stored := StoreAll(changed);
      stats := Merge(looked.(collided := skipped), stored);
      ghost var mid := Now();
      forall i | 0 <= i < |Kept(tree)| ensures FileSettled(old(Now()), Kept(tree)[i], faults, clock, mid) {
        StoredSettles(old(Now()), tree, faults, clock, i);
      }
      ghost var start := old(Now());
      UntouchedByStoring(start, tree, faults, clock);
      var deleted, failures := SweepVanished();
      stats := stats.(deleted := deleted, failures := stats.failures + failures);
      KeptPaths(tree);
      PutsAreTallied(start, kept, faults, clock);
      SweepSettles(start, mid, tree, faults, clock, Now());
    }

    /** Tombstone a removed path and all the index has beneath it, in order, stopping at
        the first deletion that breaks. */
    method ApplyRemoval(q: string) returns (r: Result<SyncStats, string>)
      modifies this`index
      ensures index == Fell(old(index), q, faults.deletes)
      ensures match r
              case Ok(stats) =>
                Felled(old(index), q) !! faults.deletes && stats == NOTHING.(deleted := |Felled(old(index), q)|)
              case Err(p) => IsLeast(p, Felled(old(index), q) * faults.deletes)
    {
      hide NotAfter;
      ghost var start, all := index, Felled(index, q);
      var deleted := 0;
      var left := set p | p in index && index[p].live && Matches(q, p);
      ghost var gone: set<string> := {};
      while left != {}
        invariant forall p :: p in left ==> Live(start, p) && Matches(q, p) && p !in gone
        invariant forall p :: p in all ==> p in left || p in gone
        invariant gone <= all && gone !! faults.deletes && deleted == |gone|
        invariant forall p, x | p in gone && x in left :: NotAfter(p, x)
        invariant forall p :: Lookup(index, p) == if p in gone then Some(Dead(start[p])) else Lookup(start, p)
      {
        HasLeast(left);
        var p :| p in left && IsLeast(p, left);
        left := left - {p};
        assert Lookup(index, p) == Lookup(start, p);
        if !index[p].here {
          continue;
        }
        var d := DeleteFile(p);
        match d {
          case Ok(_) =>
            deleted := deleted + 1;
            gone := gone + {p};
          case Err(NotFound) => {}
          case Err(Broken) =>
            StoppedAt(start, q, faults.deletes, left, gone, p, index);
            return Err(p);
        }
      }
      assert gone == all;
      AllFelled(start, q, faults.deletes, index);
      return Ok(NOTHING.(deleted := deleted));
    }

    /** One file of a batch: read, unless its row already describes it. */
    method StoreIfChanged(f: DiskFile) returns (stats: SyncStats)
      modifies this`index, this`racy
      ensures Now() == Step(old(Now()), Upsert(f), clock, faults)
      ensures stats == StepStats(old(Now()), f.spelling, Upsert(f), faults)
    {
      if f.logical in index && index[f.logical].live && |index[f.logical].content| == |f.content|
         && index[f.logical].mtime == f.mtime && f.logical !in racy {
        return NOTHING.(same := 1);
      }
      stats := PutFile(f);
    }

    /** Act on a batch from the watcher, one change after the other. */
    method Apply(changes: seq<Change>) returns (stats: SyncStats)
      modifies this`index, this`racy
      ensures Now() == Applied(old(Now()), tree, changes, clock, faults)
      ensures stats == AppliedStats(old(Now()), tree, changes, clock, faults)
    {
      stats := NOTHING;
      for i := 0 to |changes|
        invariant Now() == Applied(old(Now()), tree, changes[..i], clock, faults)
        invariant stats == AppliedStats(old(Now()), tree, changes[..i], clock, faults)
      {
        assert changes[..i + 1][..i] == changes[..i];
        var c := changes[i];
        if c.logical.None? {
          continue;
        }
        var file := if c.kind.Upserted? then FileNamed(tree, c.path) else None;
        if file.Some? {
          var stored := StoreIfChanged(file.value);
          stats := Merge(stats, stored);
        } else {
          var removed := ApplyRemoval(c.logical.value);
          match removed {
            case Ok(done) => stats := Merge(stats, done);
            case Err(_) => stats := stats.(failures := stats.failures + [c.path]);
          }
        }
      }
      assert changes[..|changes|] == changes;
    }
  }

  /** Each file kept is stored, unchanged or a failure; each path that vanished is
      deleted or a failure; each name not kept is a collision. */
  ghost predicate Accounts(s: State, tree: seq<DiskFile>, faults: Faults, stats: SyncStats) {
    && stats.stored == Tally(s, Kept(tree), faults, Stored)
    && stats.same == Tally(s, Kept(tree), faults, Trusted) + Tally(s, Kept(tree), faults, Reread)
    && stats.deleted == |set p | p in s.index && Vanished(s, tree, p) && p !in faults.deletes|
    && |stats.failures| == Tally(s, Kept(tree), faults, Refused) + Tally(s, Kept(tree), faults, Unread)
                           + |set p | p in s.index && Vanished(s, tree, p) && p in faults.deletes|
    && stats.collided == |tree| - |Kept(tree)|
  }

  lemma UntouchedByStoring(s: State, tree: seq<DiskFile>, faults: Faults, clock: int)
    ensures var t := PutAll(s, Changed(s, Kept(tree), faults), clock, faults.puts);
            forall p | !AmongPaths(tree, p) ::
                Lookup(t.index, p) == Lookup(s.index, p) && (p in t.racy <==> p in s.racy)
  {
    KeptPaths(tree);
    forall p | !AmongPaths(tree, p)
      ensures var t := PutAll(s, Changed(s, Kept(tree), faults), clock, faults.puts);
              Lookup(t.index, p) == Lookup(s.index, p) && (p in t.racy <==> p in s.racy)
    {
      ChangedPaths(s, Kept(tree), faults, p);
      PutAllElsewhere(s, Changed(s, Kept(tree), faults), clock, faults.puts, p);
    }
  }

  /** Deleting what vanished, after storing what changed, settles every path. */
  lemma SweepSettles(s: State, mid: State, tree: seq<DiskFile>, faults: Faults, clock: int, t: State)
    requires forall i | 0 <= i < |Kept(tree)| :: FileSettled(s, Kept(tree)[i], faults, clock, mid)
    requires forall p | !AmongPaths(tree, p) ::
      Lookup(mid.index, p) == Lookup(s.index, p) && (p in mid.racy <==> p in s.racy)
    requires forall p :: Lookup(t.index, p) == GoneRow(mid, tree, faults, p)
    requires t.racy == mid.racy
    ensures Settled(s, tree, faults, clock, t)
    ensures (set p | p in mid.index && Vanished(mid, tree, p) && p !in faults.deletes)
         == (set p | p in s.index && Vanished(s, tree, p) && p !in faults.deletes)
    ensures (set p | p in mid.index && Vanished(mid, tree, p) && p in faults.deletes)
         == (set p | p in s.index && Vanished(s, tree, p) && p in faults.deletes)
  {
    KeptPaths(tree);
    forall i | 0 <= i < |Kept(tree)| ensures FileSettled(s, Kept(tree)[i], faults, clock, t) {
      var p := Kept(tree)[i].logical;
      assert AmongPaths(tree, p);
      assert Lookup(t.index, p) == Lookup(mid.index, p);
    }
    forall p ensures Vanished(mid, tree, p) <==> Vanished(s, tree, p) {
      if !AmongPaths(tree, p) { assert Lookup(mid.index, p) == Lookup(s.index, p); }
    }
    forall p | !AmongPaths(tree, p) ensures Lookup(t.index, p) == GoneRow(s, tree, faults, p) {
      assert Lookup(mid.index, p) == Lookup(s.index, p);
    }
  }

  // ----- what a pass keeps

  /** Only a path that was live, was expected in the folder and has no name on disk
      loses its file: not one whose decision or storing failed, nor one whose other
      spelling was skipped, nor one dropped for the cap. */
  lemma OnlyTheVanishedDie(s: State, tree: seq<DiskFile>, faults: Faults, clock: int, t: State, p: string)
    requires Settled(s, tree, faults, clock, t)
    ensures Live(s.index, p) && !Live(t.index, p) <==> Vanished(s, tree, p) && p !in faults.deletes
    ensures !Live(s.index, p) && Live(t.index, p) ==> AmongPaths(tree, p)
    ensures Live(t.index, p) && !t.index[p].here ==> Live(s.index, p) && t.index[p] == s.index[p]
  {
    KeptPaths(tree);
    if AmongPaths(tree, p) {
      var i :| 0 <= i < |Kept(tree)| && Kept(tree)[i].logical == p;
      assert FileSettled(s, Kept(tree)[i], faults, clock, t);
      assert Lookup(t.index, p) == Some(FileRow(Kept(tree)[i])) || Lookup(t.index, p) == Lookup(s.index, p);
    } else {
      assert Lookup(t.index, p) == GoneRow(s, tree, faults, p);
    }
  }

  /** Nothing in this run failed on a file or a vanished path. */
  ghost predicate NoFailures(s: State, tree: seq<DiskFile>, faults: Faults) {
    && (forall i | 0 <= i < |Kept(tree)| ::
          !Decide(s, Kept(tree)[i], faults).Refused? && !Decide(s, Kept(tree)[i], faults).Unread?)
    && (forall p | Vanished(s, tree, p) :: p !in faults.deletes)
  }

  /** Run again on the same disk after a run without failures, whenever that is and
      whatever fails then, a pass stores nothing, deletes nothing and moves no row. */
  lemma SecondRunIsIdle(s: State, tree: seq<DiskFile>, f1: Faults, c1: int, t: State, f2: Faults, c2: int, u: State)
    requires Settled(s, tree, f1, c1, t) && NoFailures(s, tree, f1)
    requires Settled(t, tree, f2, c2, u)
    ensures u.index == t.index
    ensures forall p :: !Vanished(t, tree, p)
    ensures Tally(t, Kept(tree), f2, Stored) == 0
  {
    KeptPaths(tree);
    forall i | 0 <= i < |Kept(tree)| ensures !Decide(t, Kept(tree)[i], f2).Stored? {}
    forall p ensures !Vanished(t, tree, p) {
      if !AmongPaths(tree, p) { assert Lookup(t.index, p) == GoneRow(s, tree, f1, p); }
    }
    forall p ensures Lookup(u.index, p) == Lookup(t.index, p) {
      if AmongPaths(tree, p) {
        var i :| 0 <= i < |Kept(tree)| && Kept(tree)[i].logical == p;
        assert FileSettled(t, Kept(tree)[i], f2, c2, u);
      } else {
        assert Lookup(u.index, p) == GoneRow(t, tree, f2, p);
      }
    }
    SameMaps(u.index, t.index);
    NoneStored(t, Kept(tree), f2);
  }

  lemma {:induction false} NoneStored(s: State, kept: seq<DiskFile>, faults: Faults)
    requires forall i | 0 <= i < |kept| :: !Decide(s, kept[i], faults).Stored?
    ensures Tally(s, kept, faults, Stored) == 0
  {
    if kept != [] {
      assert forall i | 0 <= i < |kept| - 1 :: kept[..|kept| - 1][i] == kept[i];
      NoneStored(s, kept[..|kept| - 1], faults);
    }
  }

  // ----- the watcher's batches

  datatype Kind = Upserted | Removed

  /** One settled change: the name it is about, and the logical path that name has,
      if it has one inside the folder. */
  datatype Change = Change(path: string, logical: Option<string>, kind: Kind)

  /** What a change comes to, given what is at its name now. A name reported
      written that is no regular file -- gone, or a directory -- is a removal. */
  datatype Effect = Nothing | Upsert(file: DiskFile) | Remove(prefix: string)

  function FileNamed(tree: seq<DiskFile>, path: string): (r: Option<DiskFile>)
    ensures r.Some? ==> r.value in tree && r.value.spelling == path
    ensures r.None? ==> forall f | f in tree :: f.spelling != path
  {
    if tree == [] then None
    else if tree[0].spelling == path then Some(tree[0])
    else FileNamed(tree[1..], path)
  }

  function Meaning(tree: seq<DiskFile>, c: Change): Effect {
    if c.logical.None? then Nothing
    else if c.kind.Upserted? && FileNamed(tree, c.path).Some? then Upsert(FileNamed(tree, c.path).value)
    else Remove(c.logical.value)
  }

  function Fold(c: char): char {
    if 'A' <= c <= 'Z' then (c as int + 32) as char else c
  }

  /** The index finds what lies beneath a path with SQL's LIKE, to which ASCII
      letters are the same in either case. */
  predicate Matches(q: string, p: string) {
    p == q || (|q| < |p| && p[|q|] == '/' && forall i | 0 <= i < |q| :: Fold(p[i]) == Fold(q[i]))
  }

  /** What a removal of `q` tombstones, if nothing breaks. */
  function Felled(index: Index, q: string): set<string> {
    set p | p in index && InFolder(index, p) && Matches(q, p)
  }

  /** Deletions come in the order of their paths, and the first that breaks ends them. */
  predicate Reached(index: Index, q: string, bad: set<string>, p: string) {
    InFolder(index, p) && Matches(q, p) && p !in bad && forall b | b in Felled(index, q) && b in bad :: NotAfter(p, b)
  }

  function Fell(index: Index, q: string, bad: set<string>): Index {
    map p | p in index :: if Reached(index, q, bad, p) then Dead(index[p]) else index[p]
  }

  function Step(s: State, e: Effect, clock: int, faults: Faults): State {
    match e
    case Nothing => s
    case Upsert(f) => if LooksSame(s, f) then s else PutOne(s, f, clock, faults.puts)
    case Remove(q) => s.(index := Fell(s.index, q, faults.deletes))
  }

  /** A removal that breaks is one failure, whatever it had deleted. */
  function StepStats(s: State, path: string, e: Effect, faults: Faults): SyncStats {
    match e
    case Nothing => NOTHING
    case Upsert(f) => if LooksSame(s, f) then NOTHING.(same := 1) else PutStats(s, f, faults.puts)
    case Remove(q) =>
      if Felled(s.index, q) !! faults.deletes then NOTHING.(deleted := |Felled(s.index, q)|)
      else NOTHING.(failures := [path])
  }

  /** The changes of a batch, one after the other. */
  function Applied(s: State, tree: seq<DiskFile>, changes: seq<Change>, clock: int, faults: Faults): State {
    if changes == [] then s
    else
      var n := |changes| - 1;
      Step(Applied(s, tree, changes[..n], clock, faults), Meaning(tree, changes[n]), clock, faults)
  }

  function AppliedStats(s: State, tree: seq<DiskFile>, changes: seq<Change>, clock: int, faults: Faults): SyncStats {
    if changes == [] then NOTHING
    else
      var n := |changes| - 1;
      Merge(AppliedStats(s, tree, changes[..n], clock, faults),
            StepStats(Applied(s, tree, changes[..n], clock, faults), changes[n].path, Meaning(tree, changes[n]),
                faults))
  }

  lemma AllFelled(index: Index, q: string, bad: set<string>, after: Index)
    requires Felled(index, q) !! bad
    requires forall p :: Lookup(after, p) == if p in Felled(index, q) then Some(Dead(index[p])) else Lookup(index, p)
    ensures after == Fell(index, q, bad)
  {
    hide NotAfter, Matches;
    forall p ensures Lookup(after, p) == Lookup(Fell(index, q, bad), p) {
      assert p in Felled(index, q) <==> InFolder(index, p) && Matches(q, p);
    }
    SameMaps(after, Fell(index, q, bad));
  }

  lemma StoppedAt(index: Index, q: string, bad: set<string>, left: set<string>, gone: set<string>, p: string,
      after: Index)
    requires p in Felled(index, q) && p in bad && gone <= Felled(index, q) && gone !! bad && p !in gone
    requires forall x | x in Felled(index, q) :: x in left || x in gone || x == p
    requires forall x | x in left :: NotAfter(p, x)
    requires forall x | x in gone :: NotAfter(x, p) && forall y | y in left :: NotAfter(x, y)
    requires forall x :: Lookup(after, x) == if x in gone then Some(Dead(index[x])) else Lookup(index, x)
    ensures after == Fell(index, q, bad) && IsLeast(p, Felled(index, q) * bad)
  {
    hide Matches;
    OrderIsTotal(p, p);
    forall x | x in Felled(index, q) ensures Reached(index, q, bad, x) <==> x in gone {
      OrderIsTotal(x, p);
    }
    hide NotAfter;
    forall x ensures Lookup(after, x) == Lookup(Fell(index, q, bad), x) {
      assert x in Felled(index, q) <==> InFolder(index, x) && Matches(q, x);
    }
    SameMaps(after, Fell(index, q, bad));
  }

  /** A name on disk has the logical path the walk gave it. */
  ghost predicate Named(tree: seq<DiskFile>, changes: seq<Change>) {
    forall i, j | 0 <= i < |changes| && 0 <= j < |tree| && changes[i].path == tree[j].spelling ::
      changes[i].logical == Some(tree[j].logical)
  }

  /** Size and time tell the truth: a file that matches its row is the file the row
      describes. What the size-and-time test takes for granted. */
  predicate Honest(s: State, f: DiskFile) {
    LooksSame(s, f) ==> s.index[f.logical] == FileRow(f)
  }

  /** The last thing a batch did at a file's path. */
  datatype LastWord = Silent | Put | Cut

  function Last(tree: seq<DiskFile>, changes: seq<Change>, f: DiskFile): LastWord {
    if changes == [] then Silent
    else
      var n := |changes| - 1;
      match Meaning(tree, changes[n])
      case Upsert(g) => if g == f then Put else Last(tree, changes[..n], f)
      case Remove(q) => if Matches(q, f.logical) then Cut else Last(tree, changes[..n], f)
      case Nothing => Last(tree, changes[..n], f)
  }

  predicate Removes(tree: seq<DiskFile>, c: Change, p: string) {
    Meaning(tree, c).Remove? && Matches(Meaning(tree, c).prefix, p)
  }

  /** What a batch has to say for the index to end as a whole pass would leave it:
      about every file on disk, to have put it last, or nothing at all and the index
      right already; about every path that vanished, a removal at or above it. */
  ghost predicate Tells(s: State, tree: seq<DiskFile>, changes: seq<Change>) {
    && (forall i | 0 <= i < |tree| ::
          var word := Last(tree, changes, tree[i]);
          word.Put? || (word.Silent? && Lookup(s.index, tree[i].logical) == Some(FileRow(tree[i]))))
    && (forall p | Vanished(s, tree, p) :: exists j | 0 <= j < |changes| :: Removes(tree, changes[j], p))
  }

  /** A batch applied to an honest index. Whatever the order and the repeats, a
      file's path is as the batch's last word on it left it. */
  lemma {:induction false} AppliedToFile(s: State, tree: seq<DiskFile>, changes: seq<Change>, clock: int, f: DiskFile)
    requires DistinctPaths(tree) && f in tree && Honest(s, f)
    ensures var t := Applied(s, tree, changes, clock, NONE);
            && Honest(t, f)
            && match Last(tree, changes, f)
               case Put => Lookup(t.index, f.logical) == Some(FileRow(f))
               case Cut => !InFolder(t.index, f.logical)
               case Silent => Lookup(t.index, f.logical) == Lookup(s.index, f.logical)
  {
    if changes != [] {
      var n := |changes| - 1;
      AppliedToFile(s, tree, changes[..n], clock, f);
      var t := Applied(s, tree, changes[..n], clock, NONE);
    }
  }

  lemma {:induction false} AppliedToPath(s: State, tree: seq<DiskFile>, changes: seq<Change>, clock: int, p: string)
    requires !AmongPaths(tree, p)
    ensures Lookup(Applied(s, tree, changes, clock, NONE).index, p) ==
      if InFolder(s.index, p) && exists j | 0 <= j < |changes| :: Removes(tree, changes[j], p)
      then Some(Dead(s.index[p])) else Lookup(s.index, p)
  {
    if changes != [] {
      var n := |changes| - 1;
      AppliedToPath(s, tree, changes[..n], clock, p);
      assert (exists j | 0 <= j < |changes| :: Removes(tree, changes[j], p))
        <==> (exists j | 0 <= j < n :: Removes(tree, changes[..n][j], p)) || Removes(tree, changes[n], p);
      var e := Meaning(tree, changes[n]);
      if e.Upsert? {
        assert e.file in tree;
        assert e.file.logical != p;
      }
    }
  }

  lemma {:induction false} NothingSkipped(tree: seq<DiskFile>)
    requires DistinctPaths(tree)
    ensures Kept(tree) == tree
  {
    if tree != [] {
      var n := |tree| - 1;
      NothingSkipped(tree[..n]);
      assert tree[..n] + [tree[n]] == tree;
    }
  }

  /** With names that do not collide, an honest index and nothing failing, the
      watcher's batch leaves the index exactly as a whole-tree pass would -- the same
      live paths and contents, the same tombstones, files dropped for the cap still
      live in both -- if and only if the batch tells all it has to. */
  lemma ApplyRefinesReconcile(s: State, tree: seq<DiskFile>, changes: seq<Change>, clock: int, later: int, t: State)
    requires DistinctPaths(tree) && Settled(s, tree, NONE, later, t)
    requires forall i | 0 <= i < |tree| :: Honest(s, tree[i])
    ensures Applied(s, tree, changes, clock, NONE).index == t.index <==> Tells(s, tree, changes)
  {
    var u := Applied(s, tree, changes, clock, NONE);
    NothingSkipped(tree);
    forall i | 0 <= i < |tree|
      ensures Lookup(t.index, tree[i].logical) == Some(FileRow(tree[i]))
      ensures Lookup(u.index, tree[i].logical) == Lookup(t.index, tree[i].logical)
        <==> Last(tree, changes, tree[i]).Put?
             || (Last(tree, changes, tree[i]).Silent? && Lookup(s.index, tree[i].logical) == Some(FileRow(tree[i])))
    {
      assert FileSettled(s, Kept(tree)[i], NONE, later, t);
      AppliedToFile(s, tree, changes, clock, tree[i]);
    }
    forall p | !AmongPaths(tree, p)
      ensures Lookup(u.index, p) == Lookup(t.index, p)
        <==> (Vanished(s, tree, p) ==> exists j | 0 <= j < |changes| :: Removes(tree, changes[j], p))
    {
      assert Lookup(t.index, p) == GoneRow(s, tree, NONE, p);
      AppliedToPath(s, tree, changes, clock, p);
    }
    hide Applied, Settled, Last, Removes;
    if Tells(s, tree, changes) {
      forall p ensures Lookup(u.index, p) == Lookup(t.index, p) {
        if i :| 0 <= i < |tree| && tree[i].logical == p {
          assert Lookup(u.index, tree[i].logical) == Lookup(t.index, tree[i].logical);
        }
      }
      SameMaps(u.index, t.index);
    }
  }

  /** The index describes this folder. */
  ghost predicate Describes(index: Index, tree: seq<DiskFile>) {
    && (forall i | 0 <= i < |tree| :: Lookup(index, tree[i].logical) == Some(FileRow(tree[i])))
    && (forall p | InFolder(index, p) :: AmongPaths(tree, p))
  }

  /** From an index that described the folder before it changed, it is enough that
      the batch reports every file that is new or different by its name, reports
      every path that went by a name at or above it, and removes nothing that still
      has a file at or beneath it. */
  lemma CoveringBatchTells(s: State, before: seq<DiskFile>, tree: seq<DiskFile>, changes: seq<Change>)
    requires Describes(s.index, before) && DistinctPaths(before) && Named(tree, changes)
    requires IsScan(tree)
    requires forall f | f in tree && f !in before ::
      exists j | 0 <= j < |changes| :: changes[j].path == f.spelling && changes[j].kind.Upserted?
    requires forall p | AmongPaths(before, p) && !AmongPaths(tree, p) ::
      exists j | 0 <= j < |changes| :: Removes(tree, changes[j], p)
    requires forall j, i | 0 <= j < |changes| && 0 <= i < |tree| :: !Removes(tree, changes[j], tree[i].logical)
    ensures Tells(s, tree, changes)
  {
    forall i | 0 <= i < |tree|
      ensures Last(tree, changes, tree[i]).Put?
              || (Last(tree, changes, tree[i]).Silent? && Lookup(s.index, tree[i].logical) == Some(FileRow(tree[i])))
    {
      NeverCut(tree, changes, tree[i]);
      if tree[i] in before {
        var k :| 0 <= k < |before| && before[k] == tree[i];
        assert Lookup(s.index, before[k].logical) == Some(FileRow(before[k]));
      } else {
        var j :| 0 <= j < |changes| && changes[j].path == tree[i].spelling && changes[j].kind.Upserted?;
        assert FileNamed(tree, changes[j].path).value.spelling == tree[i].spelling;
        assert Meaning(tree, changes[j]) == Upsert(tree[i]);
      }
    }
  }

  lemma {:induction false} NeverCut(tree: seq<DiskFile>, changes: seq<Change>, f: DiskFile)
    requires forall j | 0 <= j < |changes| :: !Removes(tree, changes[j], f.logical)
    ensures !Last(tree, changes, f).Cut?
    ensures (exists j | 0 <= j < |changes| :: Meaning(tree, changes[j]) == Upsert(f)) ==> Last(tree, changes, f).Put?
  {
    if changes != [] {
      var n := |changes| - 1;
      forall j | 0 <= j < n ensures !Removes(tree, changes[..n][j], f.logical) {
        assert changes[..n][j] == changes[j];
      }
      assert !Removes(tree, changes[n], f.logical);
      NeverCut(tree, changes[..n], f);
      if j :| 0 <= j < n && Meaning(tree, changes[j]) == Upsert(f) {
        assert changes[..n][j] == changes[j];
      }
    }
  }

  // ----- where a removal reaches too far

  /** `path` lies beneath a directory spelled as `q` is but for the case of its letters. */
  predicate InOtherCase(q: string, path: string) {
    |q| < |path| && path[|q|] == '/' && path[..|q|] != q && Lower(path[..|q|]) == Lower(q)
  }

  /** A removal tombstones what lies at or beneath its path, and nothing else, exactly
      when no live file of the folder lies beneath the path in another case. */
  lemma RemovalReach(index: Index, q: string)
    ensures (forall p :: p in Felled(index, q) <==> InFolder(index, p) && Paths.Under(q, p))
            <==> !(exists p | p in index :: InFolder(index, p) && InOtherCase(q, p))
  {
    forall p ensures Matches(q, p) <==> Paths.Under(q, p) || InOtherCase(q, p) {
      MatchIsSpelling(q, p);
    }
    hide Matches;
    forall p | InOtherCase(q, p) ensures !Paths.Under(q, p) {}
    hide InOtherCase, Paths.Under;
    if forall p :: p in Felled(index, q) <==> InFolder(index, p) && Paths.Under(q, p) {
      forall p | p in index && InFolder(index, p) ensures !InOtherCase(q, p) {
        assert p in Felled(index, q) <==> Matches(q, p);
      }
    }
  }

  lemma MatchIsSpelling(q: string, p: string)
    ensures Matches(q, p) <==> Paths.Under(q, p) || InOtherCase(q, p)
  {
    if |q| < |p| {
      LowerAt(p[..|q|]);
      LowerAt(q);
      assert forall i | 0 <= i < |q| :: p[..|q|][i] == p[i];
      assert (forall i | 0 <= i < |q| :: Fold(p[i]) == Fold(q[i])) <==> Lower(p[..|q|]) == Lower(q) by {
        assert forall i | 0 <= i < |q| :: Lower(p[..|q|])[i] == Fold(p[i]) && Lower(q)[i] == Fold(q[i]);
      }
    }
  }

  /** `photos` removed takes `Photos` with it: on a filesystem that keeps the two
      apart, a file nobody touched is tombstoned, and the whole-tree pass would have
      kept it. */
  lemma OtherCaseIsFelled()
    ensures var f := DiskFile("Photos/a", "Photos/a", [], 0);
            var s := State(map["Photos/a" := FileRow(f)], {});
            var t := Applied(s, [f], [Change("photos", Some("photos"), Removed)], 0, NONE);
            Live(s.index, "Photos/a") && !Live(t.index, "Photos/a") && !Vanished(s, [f], "Photos/a")
  {
    var f := DiskFile("Photos/a", "Photos/a", [], 0);
    var c := Change("photos", Some("photos"), Removed);
    var s := State(map["Photos/a" := FileRow(f)], {});
    assert [c][..0] == [];
    assert Matches("photos", "Photos/a");
    assert Meaning([f], c) == Remove("photos");
    assert Applied(s, [f], [c], 0, NONE) == Step(Applied(s, [f], [], 0, NONE), Remove("photos"), 0, NONE);
    assert [f][0].logical == "Photos/a";
  }

  // ----- batches as the watcher sends them

  /** Paths in the order of their components. */
  predicate Precedes(a: seq<string>, b: seq<string>) {
    b != [] && (a == [] || (a[0] != b[0] && NotAfter(a[0], b[0])) || (a[0] == b[0] && Precedes(a[1..], b[1..])))
  }

  /** A batch is sorted, and names no path twice. */
  predicate Emitted(changes: seq<Change>) {
    forall i, j | 0 <= i < j < |changes| :: Precedes(Paths.Split(changes[i].path), Paths.Split(changes[j].path))
  }

  lemma {:induction false} NothingPrecedesItsPrefix(a: seq<string>, b: seq<string>)
    requires a <= b
    ensures !Precedes(b, a)
  {
    if a != [] && Precedes(b[1..], a[1..]) {
      assert a[1..] <= b[1..];
      NothingPrecedesItsPrefix(a[1..], b[1..]);
    }
  }

  /** A directory comes before what is in it. */
  lemma DirectoryFirst(changes: seq<Change>, i: nat, j: nat)
    requires Emitted(changes) && i < j < |changes|
    ensures !Paths.Under(changes[j].path, changes[i].path)
  {
    hide Precedes;
    if Paths.Under(changes[j].path, changes[i].path) {
      Paths.UnderIsComponentPrefix(changes[j].path, changes[i].path);
      NothingPrecedesItsPrefix(Paths.Split(changes[j].path), Paths.Split(changes[i].path));
    }
  }

  /** What a batch as the watcher sends it stores stays stored, whatever it removes of the
      directories the file is in -- a file that became one among them -- exactly when
      it removes after it no path that the file's matches and is not beneath: one spelled
      otherwise. */
  lemma BatchKeepsWhatItStores(tree: seq<DiskFile>, changes: seq<Change>, i: nat, f: DiskFile)
    requires Emitted(changes) && i < |changes| && Meaning(tree, changes[i]) == Upsert(f)
    ensures Last(tree, changes, f).Put? <==>
      !(exists j | i < j < |changes| ::
          Removes(tree, changes[j], f.logical) && !Paths.Under(changes[j].path, f.spelling))
  {
    assert changes[i].path == f.spelling;
    forall j | 0 <= j < |changes| && j != i ensures Meaning(tree, changes[j]) != Upsert(f) {
      if Meaning(tree, changes[j]) == Upsert(f) {
        assert Paths.Under(changes[j].path, changes[i].path) && Paths.Under(changes[i].path, changes[j].path);
        DirectoryFirst(changes, if i < j then i else j, if i < j then j else i);
      }
    }
    forall j | i < j < |changes| ensures !Paths.Under(changes[j].path, f.spelling) {
      DirectoryFirst(changes, i, j);
    }
    LastAfter(tree, changes, i, f);
  }

  lemma {:induction false} LastAfter(tree: seq<DiskFile>, changes: seq<Change>, i: nat, f: DiskFile)
    requires i < |changes| && Meaning(tree, changes[i]) == Upsert(f)
    requires forall j | i < j < |changes| :: Meaning(tree, changes[j]) != Upsert(f)
    ensures Last(tree, changes, f).Put? <==> !(exists j | i < j < |changes| :: Removes(tree, changes[j], f.logical))
    decreases |changes|
  {
    var n := |changes| - 1;
    if i < n {
      assert changes[..n][i] == changes[i];
      forall j | i < j < n ensures Meaning(tree, changes[..n][j]) != Upsert(f) { assert changes[..n][j] == changes[j]; }
      LastAfter(tree, changes[..n], i, f);
      if j :| i < j < n && Removes(tree, changes[j], f.logical) {
        assert Removes(tree, changes[..n][j], f.logical);
      }
      if j :| i < j < n && Removes(tree, changes[..n][j], f.logical) {
        assert Removes(tree, changes[j], f.logical);
      }
      assert Meaning(tree, changes[n]) != Upsert(f);
    }
  }

  lemma PathsOfCopy()
    ensures Paths.Split("P/a") == ["P", "a"] && Paths.Split("p") == ["p"]
  {
    var p, a, slash := ['p'] + "", ['a'] + "", ['/'] + (['a'] + "");
    assert Paths.Split("") == [""];
    hide Paths.Split;
    Paths.SplitStep('p', "");
    Paths.SplitStep('a', "");
    Paths.SplitStep('/', a);
    Paths.SplitStep('P', slash);
    assert p == "p" && ['P'] + slash == "P/a";
    assert Paths.Split(p) == [['p']] == ["p"];
    assert Paths.Split(a) == [['a']] == ["a"];
    assert Paths.Split(slash) == ["", "a"];
    assert ['P'] + "" == "P";
    assert Paths.Split(['P'] + slash) == [['P'] + ""] + ["a"] == ["P", "a"];
  }

  /** Such a batch there is: a directory copied under its name in another case and then
      removed, on a filesystem that keeps the two apart. The copy, stored, is felled. */
  lemma CopyInOtherCaseIsFelled()
    ensures var f := DiskFile("P/a", "P/a", [1], 0);
            var batch := [Change("P/a", Some("P/a"), Upserted), Change("p", Some("p"), Removed)];
            Emitted(batch) && !Live(Applied(State(map[], {}), [f], batch, 0, NONE).index, "P/a")
  {
    var f := DiskFile("P/a", "P/a", [1], 0);
    var c1, c2 := Change("P/a", Some("P/a"), Upserted), Change("p", Some("p"), Removed);
    var batch, s := [c1, c2], State(map[], {});
    PathsOfCopy();
    assert NotAfter("P", "p");
    assert Precedes(["P", "a"], ["p"]);
    hide Paths.Split, Precedes, NotAfter;
    assert batch[..1] == [c1] && [c1][..0] == [];
    assert Matches("p", "P/a");
    assert Meaning([f], c1) == Upsert(f) && Meaning([f], c2) == Remove("p");
    hide Matches, Meaning;
    assert Applied(s, [f], [c1][..0], 0, NONE) == s;
    var t := Applied(s, [f], [c1], 0, NONE);
    assert t == Step(s, Upsert(f), 0, NONE);
    assert InFolder(t.index, "P/a");
    assert Applied(s, [f], batch, 0, NONE) == Step(t, Remove("p"), 0, NONE);
    assert Reached(t.index, "p", {}, "P/a");
  }
}
