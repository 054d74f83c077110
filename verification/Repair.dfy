/** Putting back what the disk lost: damaged payloads are thrown away, and the files
    that need them fetched again from whoever has them. */
module Repair {
  import opened Wrappers
  import opened Versions

  type Chunk = nat

  /** A file's bytes, as the chunks they are cut into. */
  type Bytes = seq<Chunk>

  /** A row of the shared area: its content, nothing for a tombstone; the version it is;
      and what was last seen of its file. */
  datatype Row = Row(content: Option<Bytes>, vector: Vector, author: DeviceId, at: int, mtime: int, here: bool)

  /** What a source makes of being asked for content: some bytes, or none. */
  datatype Answer = Supplied(bytes: Bytes) | Refused

  type Source = map<Bytes, Answer>

  datatype RepairStats = RepairStats(chunksRepaired: nat, filesRestored: nat, unrepairable: set<string>)

  /** The index -- the shared area's rows, the live rows of this device's own vault, and the
      chunks that tombstones still hold -- the chunk store, where a payload is whole or
      not, and the folder. */
  datatype State = State(
    shared: map<string, Row>,
    private_: map<string, Bytes>,
    retained: set<Chunk>,
    payloads: map<Chunk, bool>,
    disk: map<string, Bytes>)

  // ----- reading

  predicate LiveAt(s: State, p: string) { p in s.shared && s.shared[p].content.Some? }

  /** The file at `p` has this chunk where a row says it does. */
  predicate Supplies(s: State, p: string, row: Bytes, c: Chunk) {
    p in s.disk && exists i | 0 <= i < |row| :: row[i] == c && i < |s.disk[p]| && s.disk[p][i] == c
  }

  predicate SharedSupplies(s: State, p: string, c: Chunk) {
    LiveAt(s, p) && Supplies(s, p, s.shared[p].content.value, c)
  }

  predicate PrivateSupplies(s: State, p: string, c: Chunk) { p in s.private_ && Supplies(s, p, s.private_[p], c) }

  predicate FromDisk(s: State, c: Chunk) {
    (exists p | p in s.shared :: SharedSupplies(s, p, c)) || (exists p | p in s.private_ :: PrivateSupplies(s, p, c))
  }

  /** A chunk the chunk store has is read from there, whole or not; any other from a file
      that has it. */
  predicate ChunkReads(s: State, c: Chunk) {
    if c in s.payloads then s.payloads[c] else FromDisk(s, c)
  }

  predicate Reads(s: State, bytes: Bytes) { forall i | 0 <= i < |bytes| :: ChunkReads(s, bytes[i]) }

  /** Chunks something refers to. */
  function Referenced(s: State): set<Chunk> {
    (set p, i | p in s.shared && s.shared[p].content.Some? && 0 <= i < |s.shared[p].content.value| ::
       s.shared[p].content.value[i])
    + (set p, i | p in s.private_ && 0 <= i < |s.private_[p]| :: s.private_[p][i])
    + s.retained
  }

  predicate Uses(s: State, p: string, c: Chunk) {
    (LiveAt(s, p) && c in s.shared[p].content.value) || (p in s.private_ && c in s.private_[p])
  }

  function Damaged(s: State): set<Chunk> { set c | c in Referenced(s) && !ChunkReads(s, c) }

  /** The live paths that stopped being readable. */
  function Affected(s: State): set<string> {
    set p | p in s.shared.Keys + s.private_.Keys && exists c | c in Damaged(s) :: Uses(s, p, c)
  }

  /** Whether a path will be rewritten: it is a live shared file, the source sends the very
      bytes asked for, and the disk takes them. */
  predicate Restores(s: State, source: Source, broken: set<string>, p: string) {
    LiveAt(s, p) && p !in broken && s.shared[p].content.value in source
    && source[s.shared[p].content.value] == Supplied(s.shared[p].content.value)
  }

  class Store {
    var shared: map<string, Row>
    var private_: map<string, Bytes>
    var retained: set<Chunk>
    var payloads: map<Chunk, bool>
    var disk: map<string, Bytes>
    const broken: set<string>       // paths the disk refuses to write
    const now: int                  // what the disk stamps files with

    constructor (s: State, broken: set<string>, now: int)
      ensures Now() == s && this.broken == broken && this.now == now
    {
      shared, private_, retained, payloads, disk := s.shared, s.private_, s.retained, s.payloads, s.disk;
      this.broken, this.now := broken, now;
    }

    function Now(): State reads this { State(shared, private_, retained, payloads, disk) }

    /** One path: refetched, checked, and written with its row, or left alone. */
    method RestoreOne(p: string, source: Source) returns (ok: bool)
      modifies this`disk, this`shared
      ensures ok <==> Restores(old(Now()), source, broken, p) || (p in old(shared) && old(shared)[p].content.None?)
      ensures Now() == if Restores(old(Now()), source, broken, p) then Rewrote(old(Now()), p, now) else old(Now())
    {
      if p !in shared {
        return false;
      }
      var version := shared[p];
      if version.content.None? {
        return true;
      }
      var content := version.content.value;
      if content !in source || source[content].Refused? {
        return false;
      }
      var bytes := source[content].bytes;
      if bytes != content {
        return false;
      }
      if p in broken {
        return false;
      }
      disk := disk[p := bytes];
      RewritePayloads(p, version, bytes, now);
      return true;
    }

    /** Write a file's row again, of bytes just read, stamped as the version given. */
    method RewritePayloads(p: string, version: Row, bytes: Bytes, mtime: int)
      modifies this`shared
      ensures shared == old(shared)[p := Row(Some(bytes), version.vector, version.author, version.at, mtime, true)]
    {
      shared := shared[p := Row(Some(bytes), version.vector, version.author, version.at, mtime, true)];
    }

    /** Throw damaged payloads away. */
    method Discard(damaged: set<Chunk>) returns (count: nat)
      modifies this`payloads
      ensures payloads == old(payloads) - damaged && count == |damaged|
    {
      count := 0;
      var left := damaged;
      while left != {}
        invariant left <= damaged && count == |damaged - left|
        invariant payloads == old(payloads) - (damaged - left)
      {
        var c :| c in left;
        assert damaged - (left - {c}) == (damaged - left) + {c};
        payloads := payloads - {c};
        left := left - {c};
        count := count + 1;
      }
      assert damaged - {} == damaged;
    }

    /** Refetch these paths, one after the other, whatever becomes of each. */
    method Refetch(affected: set<string>, source: Source) returns (restored: set<string>)
      modifies this`disk, this`shared
      ensures Now() == Rewritten(old(Now()), source, broken, now, affected)
      ensures restored == Succeeding(old(Now()), source, broken, affected)
    {
      restored := {};
      var todo := affected;
      ghost var was := Now();
      hide Restores, Rewritten, Rewrote;
      assert affected - affected == {};
      NoneRewritten(was, source, broken, now);
      while todo != {}
        invariant todo <= affected
        invariant Now() == Rewritten(was, source, broken, now, affected - todo)
        invariant restored == Succeeding(was, source, broken, affected - todo)
      {
        var p :| p in todo;
        RestoresAlike(was, source, broken, now, affected - todo, p);
        var ok := RestoreOne(p, source);
        if ok { restored := restored + {p}; }
        assert affected - (todo - {p}) == (affected - todo) + {p};
        RewriteOneMore(was, source, broken, now, affected - todo, p);
        todo := todo - {p};
      }
      assert affected - {} == affected;
    }

    /** Every damaged payload goes before anything is fetched: one left there would be taken
        for the chunk it no longer is. */
    method Repair(source: Source) returns (stats: RepairStats)
      modifies this`payloads, this`disk, this`shared
      ensures Now() == Repaired(old(Now()), source, broken, now)
      ensures stats.chunksRepaired == |Damaged(old(Now()))|
      ensures var restored := Succeeding(old(Now()), source, broken, Affected(old(Now())));
              stats.filesRestored == |restored| && stats.unrepairable == Affected(old(Now())) - restored
    {
      hide Damaged, Affected, Rewritten, Succeeding;
      var damaged, affected := Damaged(Now()), Affected(Now());
      var count := Discard(damaged);
      DiscardAlike(old(Now()), Now(), source, broken, now, affected);
      var restored := Refetch(affected, source);
      stats := RepairStats(count, |restored|, affected - restored);
    }
  }

  function Rewrote(s: State, p: string, now: int): State
    requires LiveAt(s, p)
  {
    s.(disk := s.disk[p := s.shared[p].content.value], shared :=
        s.shared[p := s.shared[p].(mtime := now, here := true)])
  }

  /** Those of the paths that will be written. */
  function Writes(s: State, source: Source, broken: set<string>, paths: set<string>): (w: set<string>)
    ensures forall p :: p in w <==> p in paths && Restores(s, source, broken, p)
    ensures forall p | p in w :: LiveAt(s, p)
  {
    set p | p in paths && Restores(s, source, broken, p)
  }

  /** The folder and the rows after these files were written. */
  function Written(s: State, w: set<string>, now: int): State
    requires forall p | p in w :: LiveAt(s, p)
  {
    s.(disk := map p | p in s.disk.Keys + w ::
        if p in w then (assert LiveAt(s, p); s.shared[p].content.value) else s.disk[p],
       shared := map p | p in s.shared :: if p in w then s.shared[p].(mtime := now, here := true) else s.shared[p])
  }

  /** And after these paths were refetched. */
  function Rewritten(s: State, source: Source, broken: set<string>, now: int, paths: set<string>): State {
    Written(s, Writes(s, source, broken, paths), now)
  }

  /** What counts as restored: the files written back -- and those whose shared row is a
      tombstone, of which there is nothing to write. */
  function Succeeding(s: State, source: Source, broken: set<string>, paths: set<string>): set<string> {
    set p | p in paths && (Restores(s, source, broken, p) || (p in s.shared && s.shared[p].content.None?))
  }

  function Repaired(s: State, source: Source, broken: set<string>, now: int): State {
    Rewritten(s.(payloads := s.payloads - Damaged(s)), source, broken, now, Affected(s))
  }

  lemma NoneRewritten(s: State, source: Source, broken: set<string>, now: int)
    ensures Rewritten(s, source, broken, now, {}) == s
  {
    assert Writes(s, source, broken, {}) == {};
    hide Writes, LiveAt;
    assert Written(s, {}, now).disk == s.disk;
    assert Written(s, {}, now).shared == s.shared;
  }

  lemma RestoresAlike(s: State, source: Source, broken: set<string>, now: int, paths: set<string>, p: string)
    ensures var t := Rewritten(s, source, broken, now, paths);
      && Restores(t, source, broken, p) == Restores(s, source, broken, p)
      && (p in t.shared <==> p in s.shared) && (p in s.shared ==> t.shared[p].content == s.shared[p].content)
  {}

  lemma DiscardAlike(s: State, t: State, source: Source, broken: set<string>, now: int, paths: set<string>)
    requires t == s.(payloads := t.payloads)
    ensures Rewritten(t, source, broken, now, paths)
      == Rewritten(s, source, broken, now, paths).(payloads := t.payloads)
    ensures Succeeding(t, source, broken, paths) == Succeeding(s, source, broken, paths)
  {
    forall p ensures Restores(t, source, broken, p) == Restores(s, source, broken, p) {}
    hide Restores;
    var w := Writes(s, source, broken, paths);
    assert Writes(t, source, broken, paths) == w;
    hide Writes;
    assert Written(t, w, now).disk == Written(s, w, now).disk;
    assert Written(t, w, now).shared == Written(s, w, now).shared;
  }

  lemma RewriteOneMore(s: State, source: Source, broken: set<string>, now: int, paths: set<string>, p: string)
    ensures Restores(Rewritten(s, source, broken, now, paths), source, broken, p) == Restores(s, source, broken, p)
    ensures Rewritten(s, source, broken, now, paths + {p})
      == if Restores(s, source, broken, p) then Rewrote(Rewritten(s, source, broken, now, paths), p, now)
         else Rewritten(s, source, broken, now, paths)
    ensures Succeeding(s, source, broken, paths + {p})
      == if Restores(s, source, broken, p) || (p in s.shared && s.shared[p].content.None?)
         then Succeeding(s, source, broken, paths) + {p} else Succeeding(s, source, broken, paths)
  {
    RestoresAlike(s, source, broken, now, paths, p);
    assert Restores(s, source, broken, p) ==> LiveAt(s, p);
    hide Restores;
    var w := Writes(s, source, broken, paths);
    if Restores(s, source, broken, p) {
      assert Writes(s, source, broken, paths + {p}) == w + {p};
      WrittenOneMore(s, w, p, now);
    } else {
      assert Writes(s, source, broken, paths + {p}) == w;
    }
  }

  lemma WrittenOneMore(s: State, w: set<string>, p: string, now: int)
    requires LiveAt(s, p) && forall q | q in w :: LiveAt(s, q)
    ensures LiveAt(Written(s, w, now), p) && Written(s, w + {p}, now) == Rewrote(Written(s, w, now), p, now)
  {
    var t, u := Written(s, w, now), Written(s, w + {p}, now);
    assert u.disk == t.disk[p := s.shared[p].content.value];
    assert u.shared == t.shared[p := t.shared[p].(mtime := now, here := true)];
  }

  // ----- what it keeps, and what it is worth

  /** A pass writes a file exactly when it is affected and can be had, and then it is the
      version the index had: an edit not yet scanned, there instead, is written over. */
  lemma WrittenExactly(s: State, source: Source, broken: set<string>, now: int, p: string)
    ensures var t := Repaired(s, source, broken, now);
      if p in Affected(s) && Restores(s, source, broken, p) then p in t.disk && t.disk[p] == s.shared[p].content.value
      else Lookup(t.disk, p) == Lookup(s.disk, p)
  {
    DiscardAlike(s, s.(payloads := s.payloads - Damaged(s)), source, broken, now, Affected(s));
    hide Damaged, Affected, Restores;
  }

  /** Every row is the version it was, private rows and tombstones' chunks are as they
      were, and a row whose file was not written is untouched. */
  lemma RepairKeepsVersions(s: State, source: Source, broken: set<string>, now: int)
    ensures var t := Repaired(s, source, broken, now);
      && t.private_ == s.private_ && t.retained == s.retained && t.shared.Keys == s.shared.Keys
      && forall p | p in s.shared ::
           && t.shared[p] == s.shared[p].(mtime := t.shared[p].mtime, here := t.shared[p].here)
           && (t.shared[p] == s.shared[p] || (p in Affected(s) && Restores(s, source, broken, p)))
  {
    DiscardAlike(s, s.(payloads := s.payloads - Damaged(s)), source, broken, now, Affected(s));
    hide Damaged, Affected, Restores;
  }

  /** Before the pass: every file that has the chunk is a private one whose name is about to
      be written with a shared file, and no file about to be written has it. */
  ghost predicate AboutToBeLost(s: State, source: Source, broken: set<string>, c: Chunk) {
    && c !in s.payloads
    && (forall p | p in s.shared :: !SharedSupplies(s, p, c))
    && (forall p | PrivateSupplies(s, p, c) :: p in Affected(s) && Restores(s, source, broken, p))
    && (forall p | p in Affected(s) && Restores(s, source, broken, p) :: c !in s.shared[p].content.value)
  }

  /** A chunk that could be read can no longer exactly when that is so. */
  lemma LostExactly(s: State, source: Source, broken: set<string>, now: int, c: Chunk)
    requires c in Referenced(s) && ChunkReads(s, c)
    ensures !ChunkReads(Repaired(s, source, broken, now), c) <==> AboutToBeLost(s, source, broken, c)
  {
    var t := Repaired(s, source, broken, now);
    assert c !in Damaged(s);
    RepairKeepsVersions(s, source, broken, now);
    assert c in t.payloads <==> c in s.payloads;
    assert c in s.payloads ==> t.payloads[c] == s.payloads[c];
    hide Affected, Restores, Referenced, Damaged, Repaired, Supplies;
    if c !in s.payloads {
      forall p
        ensures SharedSupplies(t, p, c) ==
          if p in Affected(s)
            && Restores(s, source, broken, p) then c in s.shared[p].content.value else SharedSupplies(s, p, c)
        ensures p in Affected(s) && Restores(s, source, broken, p) && PrivateSupplies(t, p, c) ==>
          c in s.shared[p].content.value
        ensures !(p in Affected(s) && Restores(s, source, broken, p)) ==>
          PrivateSupplies(t, p, c) == PrivateSupplies(s, p, c)
        ensures SharedSupplies(s, p, c) && p in Affected(s) && Restores(s, source, broken, p) ==>
          c in s.shared[p].content.value
      {
        WrittenExactly(s, source, broken, now, p);
        SuppliesAre(s, t, source, broken, p, c);
      }
      hide SharedSupplies, PrivateSupplies;
      if !FromDisk(t, c) {
        NotSupplied(s, source, broken, t, c);
      }
      if AboutToBeLost(s, source, broken, c) {
        forall p | p in t.shared ensures !SharedSupplies(t, p, c) {}
        forall p | p in t.private_ ensures !PrivateSupplies(t, p, c) {
          if !(p in Affected(s) && Restores(s, source, broken, p)) { assert !PrivateSupplies(s, p, c); }
        }
      }
    }
  }

  lemma NotSupplied(s: State, source: Source, broken: set<string>, t: State, c: Chunk)
    requires c !in s.payloads && !FromDisk(t, c) && t.shared.Keys == s.shared.Keys && t.private_ == s.private_
    requires forall p ::
               SharedSupplies(t, p, c) ==
               if p in Affected(s) && Restores(s, source, broken, p) then c in s.shared[p].content.value
               else SharedSupplies(s, p, c)
    requires forall p ::
      !(p in Affected(s) && Restores(s, source, broken, p)) ==> PrivateSupplies(t, p, c) == PrivateSupplies(s, p, c)
    requires forall p ::
      SharedSupplies(s, p, c) && p in Affected(s) && Restores(s, source, broken, p) ==> c in s.shared[p].content.value
    ensures AboutToBeLost(s, source, broken, c)
  {
    forall p | p in s.shared ensures !SharedSupplies(s, p, c) { assert !SharedSupplies(t, p, c); }
    forall p | PrivateSupplies(s, p, c) ensures p in Affected(s) && Restores(s, source, broken, p) {
      assert p in t.private_ && !PrivateSupplies(t, p, c);
    }
    forall p | p in Affected(s) && Restores(s, source, broken, p) ensures c !in s.shared[p].content.value {
      assert p in t.shared && !SharedSupplies(t, p, c);
    }
  }

  lemma SuppliesAre(s: State, t: State, source: Source, broken: set<string>, p: string, c: Chunk)
    requires t.private_ == s.private_ && t.shared.Keys == s.shared.Keys
    requires forall q | q in s.shared :: t.shared[q].content == s.shared[q].content
    requires if p in Affected(s) && Restores(s, source, broken, p)
             then p in t.disk && t.disk[p] == s.shared[p].content.value
             else Lookup(t.disk, p) == Lookup(s.disk, p)
    ensures SharedSupplies(t, p, c) ==
      if p in Affected(s) && Restores(s, source, broken, p) then c in s.shared[p].content.value
      else SharedSupplies(s, p, c)
    ensures p in Affected(s) && Restores(s, source, broken, p) && PrivateSupplies(t, p, c) ==>
      c in s.shared[p].content.value
    ensures !(p in Affected(s) && Restores(s, source, broken, p)) ==>
      PrivateSupplies(t, p, c) == PrivateSupplies(s, p, c)
    ensures SharedSupplies(s, p, c) && p in Affected(s) && Restores(s, source, broken, p) ==>
      c in s.shared[p].content.value
  {
    assert Restores(s, source, broken, p) ==> LiveAt(s, p);
    hide Affected, Restores;
    if p in Affected(s) && Restores(s, source, broken, p) && c in s.shared[p].content.value {
      var row := s.shared[p].content.value;
      var i :| 0 <= i < |row| && row[i] == c;
      assert t.disk[p][i] == c;
    }
  }

  /** No name has both a live shared file and a private one. */
  predicate NoNamesakes(s: State) { forall p | p in s.private_ :: !LiveAt(s, p) }

  /** So where no shared file and private one go by one name, no chunk that could be read
      becomes unreadable, and no file does. */
  lemma NothingIsLost(s: State, source: Source, broken: set<string>, now: int, c: Chunk)
    requires NoNamesakes(s) && c in Referenced(s) && ChunkReads(s, c)
    ensures ChunkReads(Repaired(s, source, broken, now), c)
  {
    LostExactly(s, source, broken, now, c);
    hide Affected, Repaired, Supplies, Referenced;
  }

  /** Every file written back reads, whole, once the pass is over. */
  lemma RestoredReads(s: State, source: Source, broken: set<string>, now: int, p: string)
    requires p in Affected(s) && Restores(s, source, broken, p)
    ensures Reads(Repaired(s, source, broken, now), s.shared[p].content.value)
  {
    var t := Repaired(s, source, broken, now);
    var content := s.shared[p].content.value;
    WrittenExactly(s, source, broken, now, p);
    RepairKeepsVersions(s, source, broken, now);
    forall i | 0 <= i < |content| ensures ChunkReads(t, content[i]) {
      var c := content[i];
      assert c in Referenced(s) by { assert s.shared[p].content.value[i] == c; }
      assert t.payloads == s.payloads - Damaged(s);
      hide Affected, Referenced, Restores;
      assert SharedSupplies(t, p, c) by { assert Supplies(t, p, content, c); }
      assert FromDisk(t, c);
    }
  }

  /** A file counted as restored has been exactly when its shared row has content: a
      private file of the same name as a deleted shared one is counted, nothing having
      been done for it. */
  lemma CountedIsRestored(s: State, source: Source, broken: set<string>, p: string)
    requires p in Succeeding(s, source, broken, Affected(s))
    ensures Restores(s, source, broken, p) <==> s.shared[p].content.Some?
    ensures !Restores(s, source, broken, p) ==> p in s.private_
  {}

  /** A file changed since it was last indexed is such damage: whoever has the old content
      has it written over the change. */
  lemma UnscannedEditIsWrittenOver(row: Row, new_: Bytes, c: Chunk, now: int)
    requires row.content.Some? && c in row.content.value && c !in new_
    ensures var s := State(map["f" := row], map[], {}, map[], map["f" := new_]);
      Repaired(s, map[row.content.value := Supplied(row.content.value)], {}, now).disk == map["f" := row.content.value]
  {
    var old_ := row.content.value;
    var s := State(map["f" := row], map[], {}, map[], map["f" := new_]);
    var source := map[old_ := Supplied(old_)];
    assert !ChunkReads(s, c);
    var i :| 0 <= i < |old_| && old_[i] == c;
    assert c in Referenced(s) by { assert s.shared["f"].content.value[i] == c; }
    assert Uses(s, "f", c) && c in Damaged(s);
    assert "f" in Affected(s);
    hide Affected, Damaged, Repaired;
    forall p ensures Lookup(Repaired(s, source, {}, now).disk, p) == Lookup(map["f" := old_], p) {
      WrittenExactly(s, source, {}, now, p);
    }
    SameMaps(Repaired(s, source, {}, now).disk, map["f" := old_]);
  }

  /** And a private file of a damaged shared one's name is lost: what only it has can be
      read before the pass and not after. */
  lemma NamesakeIsWrittenOver(row: Row, b: Bytes, c: Chunk, d: Chunk, now: int)
    requires row.content.Some? && c in row.content.value && c !in b && d in b && d !in row.content.value
    ensures var s := State(map["f" := row], map["f" := b], {}, map[], map["f" := b]);
      ChunkReads(s, d) && !ChunkReads(Repaired(s, map[row.content.value := Supplied(row.content.value)], {}, now), d)
  {
    var a := row.content.value;
    var s, source := State(map["f" := row], map["f" := b], {}, map[], map["f" := b]), map[a := Supplied(a)];
    var i :| 0 <= i < |a| && a[i] == c;
    var j :| 0 <= j < |b| && b[j] == d;
    assert c in Referenced(s) by { assert s.shared["f"].content.value[i] == c; }
    assert d in Referenced(s) by { assert s.private_["f"][j] == d; }
    assert !ChunkReads(s, c);
    assert Uses(s, "f", c) && c in Damaged(s);
    assert "f" in Affected(s) && Restores(s, source, {}, "f");
    assert PrivateSupplies(s, "f", d);
    LostExactly(s, source, {}, now, d);
    hide Affected, Damaged, Repaired, Referenced;
  }
}
