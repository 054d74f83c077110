/** Taking one version: what it leaves of the folder, of the rows, and of what is known
    of other devices. */
module Engine {
  import opened Wrappers
  import opened Versions
  import opened Names
  import opened Planning
  import opened Roles
  import opened Text
  import opened Ignore
  import Sharing
  import Paths
  import D = Downloads

  /** An index row: the content it has, or a tombstone, and whether the bytes are here. */
  datatype Row = Row(content: Content, vector: Vector, author: DeviceId, at: int, here: bool)

  datatype Config = Config(
    me: DeviceId,
    role: Role,
    fold: string -> string,     // what the disk takes a name for: two it folds alike are one
    foldCase: bool,             // whether it was found to fold case, by trying `Aa` and `aA`
    downloads: bool,            // deliveries go to Downloads, not into the folder
    rules: Rules,               // names never taken
    remotely: set<string>,      // folders kept only remotely
    blocked: set<string>,       // names in Downloads nothing can be read at
    broken: set<string>)        // paths the disk refuses to write or remove

  /** What a source makes of being asked for content. */
  datatype Answer = Supplied | Unavailable | Failed

  type Source = map<Hash, Answer>

  datatype State = State(
    disk: map<string, Hash>,            // the folder, by what its filesystem calls a name
    shared: map<string, Row>,
    own: map<string, Row>,              // this device's own vault
    kept: Kept,                         // other devices' vaults
    chunks: set<Hash>,                  // content in the chunk store
    holders: set<(Hash, DeviceId)>,     // devices that have content for themselves
    senders: set<(Hash, DeviceId)>,     // devices that hold it for this one
    wanted: set<string>,
    trash: set<(string, Hash)>,
    buried: map<(string, Hash), Vector>, // tombstones of this device's own vault
    taken: set<Send>,
    desk: D.Desk,
    asked: seq<Hash>,                   // put to the source
    told: seq<Hash>,                    // said to have arrived
    denied: seq<Hash>)                  // recorded as not on the source

  /** Why a version was not taken. The last is no error the program goes on from: it stops. */
  datatype TakeError =
    | UnsafePath
    | TakenPrivately
    | CaseCollision
    | ContentUnavailable
    | SourceFailed
    | Io
    | Halted

  datatype Took = Took(s: State, error: Option<TakeError>)

  // ----- what is asked of the index

  predicate Live(rows: map<string, Row>, p: string) { p in rows && rows[p].content.File? }

  /** What the disk calls a path. */
  function OnDisk(c: Config, p: string): string { c.fold(p) }

  predicate LiveAnywhere(s: State, p: string) {
    Live(s.shared, p) || Live(s.own, p) || exists k | k in s.kept :: k.1 == p
  }

  /** Whether the live row at `p` has its bytes here; nothing where there is none. */
  function Materialised(s: State, p: string): Option<bool> {
    if Live(s.shared, p) then Some(s.shared[p].here)
    else if Live(s.own, p) then Some(s.own[p].here)
    else None
  }

  /** The file of this name in the folder is one sent here, not the shared one. */
  predicate PrivateHere(s: State, v: FileVersion) {
    v.area == Shared && !Live(s.shared, v.path) && Live(s.own, v.path)
  }

  predicate Clashes(s: State, p: string, q: string) { q != p && Live(s.shared, q) && Lower(q) == Lower(p) }

  predicate KeptRemotely(c: Config, p: string) { exists f | f in c.remotely :: Paths.Under(f, p) }

  predicate FileSupplies(c: Config, s: State, rows: map<string, Row>, p: string, h: Hash) {
    Live(rows, p) && rows[p].here && rows[p].content.hash == h
    && OnDisk(c, p) in s.disk && s.disk[OnDisk(c, p)] == h
  }

  /** Content this device can produce by itself. */
  predicate Readable(c: Config, s: State, h: Hash) {
    h in s.chunks
    || (exists p | p in s.shared :: FileSupplies(c, s, s.shared, p, h))
    || (exists p | p in s.own :: FileSupplies(c, s, s.own, p, h))
  }

  // ----- steps

  function RowOf(v: FileVersion, here: bool): Row { Row(v.content, v.vector, v.author, v.at, here) }

  /** The bytes, from this device if it can, or else from the source. */
  function BringIn(c: Config, src: Source, s: State, h: Hash): Took {
    if Readable(c, s, h) then Took(s, None)
    else
      var asked := s.(asked := s.asked + [h]);
      if h !in src || src[h].Unavailable? then Took(asked, Some(ContentUnavailable))
      else if src[h].Failed? then Took(asked, Some(SourceFailed))
      else Took(asked, None)
  }

  /** Known, listed, and not here. */
  function KnowElsewhere(s: State, v: FileVersion): State
    requires v.content.File?
  {
    s.(shared := s.shared[v.path := RowOf(v, false)], holders := s.holders + {(v.content.hash, v.author)})
  }

  /** Remember who has the bytes: the sender of a delivery holds them only for this
      device, and stops once told; any other author has them for itself. */
  function Evidence(c: Config, s: State, v: FileVersion): State
    requires v.content.File?
  {
    if v.author == c.me then s
    else if v.area == Sent then s.(senders := s.senders + {(v.content.hash, v.author)})
    else s.(holders := s.holders + {(v.content.hash, v.author)})
  }

  function Tombstone(s: State, v: FileVersion): State { s.(shared := s.shared[v.path := RowOf(v, false)]) }

  /** A tombstone taken: the file of that name goes into Recently deleted -- a rule
      file simply goes -- unless there is no folder, or the file is a private one. */
  function TakenTombstone(c: Config, s: State, v: FileVersion): Took {
    var key := OnDisk(c, v.path);
    if c.role.Replica? || PrivateHere(s, v) || key !in s.disk then Took(Tombstone(s, v), None)
    else if v.path in c.broken then Took(s, Some(Io))
    else
      var removed := s.(disk := s.disk - {key});
      Took(Tombstone(if Sharing.IsRulePath(v.path) then removed
                     else removed.(trash := removed.trash + {(v.path, s.disk[key])}), v), None)
  }

  /** A shared file the source has not got is recorded as elsewhere, if it is not here
      and nobody asked for it. */
  predicate LetGo(s: State, v: FileVersion) {
    v.area == Shared && Materialised(s, v.path) != Some(true) && v.path !in s.wanted
  }

  /** A private file that is here already keeps its own history. */
  function PrivateRow(own: map<string, Row>, f: FileVersion): Row {
    if Live(own, f.path) && own[f.path].content == f.content then own[f.path].(here := true) else RowOf(f, true)
  }

  /** The bytes moved into place and the index told: into this device's own vault what
      was sent here or fetched back, into the shared area the rest. */
  function Placed(c: Config, s: State, f: FileVersion, sent: FileVersion): State
    requires f.content.File?
  {
    var p, h := f.path, f.content.hash;
    var disk, wanted, told := s.disk[OnDisk(c, p) := h], s.wanted - {p}, s.told + [h];
    if f.area == Sent || f.area == Held then
      s.(disk := disk, wanted := wanted, told := told, own := s.own[p := PrivateRow(s.own, f)],
         taken := s.taken + {D.SendOf(f), D.SendOf(sent)})
    else s.(disk := disk, wanted := wanted, told := told, shared := s.shared[p := RowOf(f, true)])
  }

  /** A version's content, taken without a folder. */
  function TakenByReplica(c: Config, src: Source, s: State, f: FileVersion): Took
    requires f.content.File?
  {
    var h, got := f.content.hash, BringIn(c, src, s, f.content.hash);
    if got.error.Some? then got
    else
      Took(got.s.(shared := got.s.shared[f.path := RowOf(f, true)], chunks := got.s.chunks + {h},
                  told := got.s.told + [h]), None)
  }

  /** And into the folder. */
  function TakenIntoFolder(c: Config, src: Source, s: State, f: FileVersion, sent: FileVersion): Took
    requires f.content.File?
  {
    var h, got := f.content.hash, BringIn(c, src, s, f.content.hash);
    match got.error
    case Some(ContentUnavailable) =>
      if LetGo(s, f) then Took(KnowElsewhere(got.s, f).(denied := got.s.denied + [h]), None) else got
    case Some(_) => got
    case None => if f.path in c.broken then Took(got.s, Some(Io)) else Took(Placed(c, got.s, f, sent), None)
  }

  function TakenFile(c: Config, src: Source, start: State, f: FileVersion, sent: FileVersion): Took
    requires f.content.File?
  {
    var s := Evidence(c, start, f);
    if PrivateHere(s, f) then Took(s, Some(TakenPrivately))
    else if c.foldCase && exists q | q in s.shared :: Clashes(s, f.path, q) then Took(s, Some(CaseCollision))
    else if c.role.Replica? then TakenByReplica(c, src, s, f)
    else if f.area == Shared && Materialised(s, f.path) != Some(true) && KeptRemotely(c, f.path)
            && f.path !in s.wanted then Took(KnowElsewhere(s, f), None)
    else TakenIntoFolder(c, src, s, f, sent)
  }

  /** A file sent here, where such files go to Downloads. */
  function TakenDelivery(c: Config, src: Source, s: State, v: FileVersion): Took
    requires v.content.File?
  {
    match D.Choose(s.desk.files, c.blocked, v)
    case Neither => Took(s, Some(Io))
    case Stopped => Took(s, Some(Halted))
    case Already(_) => Delivered(c, s, v)
    case Free(_) =>
      var got := BringIn(c, src, s, v.content.hash);
      if got.error.Some? then got else Delivered(c, got.s, v)
  }

  function Delivered(c: Config, s: State, v: FileVersion): (t: Took)
    requires v.content.File?
    ensures t.error.None?
  {
    Took(s.(desk := D.Attempt(s.desk, c.blocked, v, D.Told), taken := s.taken + {D.SendOf(v)},
            told := s.told + [v.content.hash]), None)
  }

  /** What a delivery is filed as: its own name, or one that is free. */
  function FiledAs(s: State, v: FileVersion): FileVersion {
    if v.area == Sent && v.content.File? && LiveAnywhere(s, v.path) then v.(path := ReceivedPath(v)) else v
  }

  /** A delivery to the folder whose name is taken there, and of which no other can be
      made. */
  predicate HasNoName(s: State, v: FileVersion) {
    v.area == Sent && v.content.File? && LiveAnywhere(s, v.path) && !CanDecorate(v.path)
  }

  /** Everything taking one version does. */
  function Taken(c: Config, src: Source, s: State, v: FileVersion): Took {
    if Refused(c.rules, v.path) then Took(s, Some(UnsafePath))
    else if v.area == Sent && v.content.File? && c.downloads then TakenDelivery(c, src, s, v)
    else if HasNoName(s, v) then Took(s, Some(Halted))
    else if v.content.Deleted? then TakenTombstone(c, s, v)
    else TakenFile(c, src, s, FiledAs(s, v), v)
  }

  // ----- the frame of each step

  /** Rows and files of other names are the same, and nothing kept for others moved. */
  ghost predicate Confined(c: Config, s: State, t: State, path: string) {
    && (forall p | p != path :: SameRow(s.shared, t.shared, p) && SameRow(s.own, t.own, p))
    && (forall key | key != OnDisk(c, path) :: SameFile(s.disk, t.disk, key))
    && t.kept == s.kept && s.chunks <= t.chunks
  }

  predicate SameRow(a: map<string, Row>, b: map<string, Row>, p: string) {
    (p in b <==> p in a) && (p in a ==> b[p] == a[p])
  }

  predicate SameFile(a: map<string, Hash>, b: map<string, Hash>, key: string) {
    (key in b <==> key in a) && (key in a ==> b[key] == a[key])
  }

  /** The source was asked for this content only if this device could not produce it. */
  ghost predicate Asks(c: Config, s: State, t: State, h: Hash) {
    t.asked == s.asked || (t.asked == s.asked + [h] && !Readable(c, s, h))
  }

  /** The source was told only of what is here now. */
  ghost predicate Tells(c: Config, s: State, t: Took, v: FileVersion)
    requires v.content.File?
  {
    t.s.told == s.told || (t.s.told == s.told + [v.content.hash] && t.error.None? && IsHere(c, t.s, v))
  }

  /** In the chunk store, in the folder under a live row, or in Downloads and recorded. */
  ghost predicate IsHere(c: Config, s: State, v: FileVersion)
    requires v.content.File?
  {
    Readable(c, s, v.content.hash) || (D.SendOf(v) in s.taken && exists p :: D.IsAt(s.desk.files, v, p))
  }

  /** The author is remembered as having the bytes -- the sender of a delivery only as
      holding them for this device, never as a copy to fall back on -- and of what this
      device made itself, nobody is remembered as holding it for it. */
  ghost predicate Remembers(c: Config, s: State, t: State, v: FileVersion)
    requires v.content.File?
  {
    && t.senders <= s.senders + {(v.content.hash, v.author)}
    && t.holders <= s.holders + {(v.content.hash, v.author)}
    && s.senders <= t.senders && s.holders <= t.holders
    && (v.area == Sent ==> t.holders == s.holders)
    && (v.area != Sent || v.author == c.me ==> t.senders == s.senders)
  }

  /** All of it. */
  ghost predicate Proper(c: Config, s: State, t: Took, f: FileVersion)
    requires f.content.File?
  {
    && Confined(c, s, t.s, f.path) && Asks(c, s, t.s, f.content.hash) && Remembers(c, s, t.s, f)
    && (c.role.Replica? ==> t.s.disk == s.disk)
    && (f.area == Shared || f.area == Hold ==> t.s.own == s.own && t.s.taken == s.taken)
  }

  lemma EvidenceIs(c: Config, s: State, v: FileVersion)
    requires v.content.File?
    ensures var e := Evidence(c, s, v);
            e == s.(senders := e.senders, holders := e.holders) && Remembers(c, s, e, v)
    ensures v.author != c.me && v.area == Sent ==> (v.content.hash, v.author) in Evidence(c, s, v).senders
    ensures v.author != c.me && v.area != Sent ==> (v.content.hash, v.author) in Evidence(c, s, v).holders
  {}

  lemma BringInIs(c: Config, src: Source, s: State, h: Hash)
    ensures var got := BringIn(c, src, s, h);
            && got.s == s.(asked := got.s.asked) && Asks(c, s, got.s, h)
            && (got.error.None? ==> Readable(c, s, h) || (h in src && src[h].Supplied?))
  {
    hide Readable;
  }

  lemma KnowElsewhereIs(c: Config, s: State, t: State, v: FileVersion)
    requires v.content.File? && v.area == Shared
    requires t == KnowElsewhere(s, v).(denied := t.denied)
    ensures Confined(c, s, t, v.path) && t.told == s.told && Remembers(c, s, t, v)
    ensures t.asked == s.asked && t.disk == s.disk && t.own == s.own && t.taken == s.taken
  {
    hide OnDisk;
  }

  lemma PlacedIs(c: Config, s: State, f: FileVersion, sent: FileVersion)
    requires f.content.File?
    ensures var t := Placed(c, s, f, sent);
            && Confined(c, s, t, f.path) && t.told == s.told + [f.content.hash] && t.asked == s.asked
            && t.senders == s.senders && t.holders == s.holders && Readable(c, t, f.content.hash)
            && (f.area == Shared || f.area == Hold ==> t.own == s.own && t.taken == s.taken)
  {
    hide OnDisk;
    var t := Placed(c, s, f, sent);
    if f.area == Sent || f.area == Held {
      assert FileSupplies(c, t, t.own, f.path, f.content.hash);
    } else {
      assert FileSupplies(c, t, t.shared, f.path, f.content.hash);
    }
  }

  /** And what is proper after remembering the author. */
  lemma AfterEvidence(c: Config, s: State, t: Took, f: FileVersion)
    requires f.content.File? && Proper(c, Evidence(c, s, f), t, f)
    ensures Proper(c, s, t, f)
  {
    var m := Evidence(c, s, f);
    EvidenceIs(c, s, f);
    hide Readable, SameRow, SameFile, OnDisk, Evidence;
  }

  lemma IntoFolderIs(c: Config, src: Source, s: State, f: FileVersion, sent: FileVersion)
    requires f.content.File? && !c.role.Replica?
    ensures var t := TakenIntoFolder(c, src, s, f, sent);
            Proper(c, s, t, f) && Tells(c, s, t, f)
  {
    var h, got := f.content.hash, BringIn(c, src, s, f.content.hash);
    var t := TakenIntoFolder(c, src, s, f, sent);
    BringInIs(c, src, s, h);
    hide BringIn, Proper, Asks, Readable, Materialised;
    if t == Took(got.s, t.error) {
      AskedOnly(c, got.s, t, f);
    } else if got.error.None? {
      PlacedIs(c, got.s, f, sent);
    } else {
      KnowElsewhereIs(c, got.s, t.s, f);
    }
    hide Confined, TakenIntoFolder;
  }

  lemma AskedOnly(c: Config, s: State, t: Took, f: FileVersion)
    requires f.content.File? && t.s == s
    ensures Confined(c, s, t.s, f.path) && Remembers(c, s, t.s, f)
  {
    hide OnDisk;
  }

  lemma ByReplicaIs(c: Config, src: Source, s: State, f: FileVersion)
    requires f.content.File?
    ensures var t := TakenByReplica(c, src, s, f);
            Proper(c, s, t, f) && Tells(c, s, t, f)
  {
    var h, got := f.content.hash, BringIn(c, src, s, f.content.hash);
    BringInIs(c, src, s, h);
    hide BringIn, OnDisk;
    assert got.error.None? ==> h in TakenByReplica(c, src, s, f).s.chunks;
    hide Readable;
  }

  lemma FileIs(c: Config, src: Source, start: State, f: FileVersion, sent: FileVersion)
    requires f.content.File?
    ensures var t := TakenFile(c, src, start, f, sent);
            Proper(c, start, t, f) && Tells(c, start, t, f)
  {
    var s, t := Evidence(c, start, f), TakenFile(c, src, start, f, sent);
    EvidenceIs(c, start, f);
    hide Proper, OnDisk, Clashes, Materialised, KeptRemotely, PrivateHere, Evidence, TakenByReplica, TakenIntoFolder,
      KnowElsewhere, Readable, IsHere;
    if t == Took(s, t.error) {
    } else if c.role.Replica? {
      ByReplicaIs(c, src, s, f);
    } else if t == Took(KnowElsewhere(s, f), None) && f.area == Shared {
      KnowElsewhereIs(c, s, KnowElsewhere(s, f), f);
      AskedNothing(c, s, f.content.hash);
    } else {
      IntoFolderIs(c, src, s, f, sent);
    }
    hide TakenFile;
    AfterEvidence(c, start, t, f);
  }

  lemma AskedNothing(c: Config, s: State, h: Hash)
    ensures Asks(c, s, s, h)
  {}

  lemma DeliveryIs(c: Config, src: Source, s: State, v: FileVersion, path: string)
    requires v.content.File?
    ensures var t := TakenDelivery(c, src, s, v);
            && Confined(c, s, t.s, path) && Asks(c, s, t.s, v.content.hash) && Tells(c, s, t, v)
            && t.s.disk == s.disk && t.s.own == s.own && t.s.senders == s.senders && t.s.holders == s.holders
  {
    hide Confined, Asks, IsHere, D.Choose;
    var t, got := TakenDelivery(c, src, s, v), BringIn(c, src, s, v.content.hash);
    BringInIs(c, src, s, v.content.hash);
    AskedNothing(c, s, v.content.hash);
    hide BringIn;
    if t == Took(got.s, t.error) || t == Took(s, t.error) {
      DeskOnly(c, s, t.s, path);
    } else {
      var from := if D.Choose(s.desk.files, c.blocked, v).Free? then got.s else s;
      assert t == Delivered(c, from, v);
      DeliveredIsThere(c, src, from, v);
      Confirmed(c, t, v);
      hide TakenDelivery;
      DeskOnly(c, s, t.s, path);
      SameAsked(c, s, from, t.s, v.content.hash);
    }
  }

  lemma SameAsked(c: Config, s: State, a: State, b: State, h: Hash)
    requires Asks(c, s, a, h) && a.asked == b.asked
    ensures Asks(c, s, b, h)
  {
    hide Readable;
  }

  lemma DeskOnly(c: Config, s: State, t: State, path: string)
    requires t == s.(desk := t.desk, taken := t.taken, told := t.told, asked := t.asked)
    ensures Confined(c, s, t, path)
  {
    hide OnDisk;
  }

  lemma Confirmed(c: Config, t: Took, v: FileVersion)
    requires v.content.File? && D.SendOf(v) in t.s.taken && exists p :: D.IsAt(t.s.desk.files, v, p)
    ensures IsHere(c, t.s, v)
  {
    hide Readable;
  }

  lemma DeliveredIsThere(c: Config, src: Source, s: State, v: FileVersion)
    requires v.content.File? && D.Choose(s.desk.files, c.blocked, v).Open()
    ensures var t := Delivered(c, s, v).s;
            D.SendOf(v) in t.taken && exists p :: D.IsAt(t.desk.files, v, p)
  {
    D.ToldIsThere(s.desk, c.blocked, v);
    hide D.Choose, D.Attempt, D.IsAt;
  }

  lemma TombstoneIs(c: Config, s: State, v: FileVersion)
    requires v.content.Deleted?
    ensures var t := TakenTombstone(c, s, v).s;
            && Confined(c, s, t, v.path) && t == s.(disk := t.disk, shared := t.shared, trash := t.trash)
            && (c.role.Replica? ==> t.disk == s.disk)
  {
    hide OnDisk, PrivateHere, Confined, Sharing.IsRulePath;
    FolderOnly(c, s, TakenTombstone(c, s, v).s, v.path);
  }

  lemma FolderOnly(c: Config, s: State, t: State, path: string)
    requires t.own == s.own && t.kept == s.kept && t.chunks == s.chunks
    requires t.disk == s.disk || t.disk == s.disk - {OnDisk(c, path)}
    requires t.shared == s.shared || (path in t.shared && t.shared == s.shared[path := t.shared[path]])
    ensures Confined(c, s, t, path)
  {
    hide OnDisk;
  }

  /** What taking any version does and does not do: other names keep their rows and
      files; what is kept for others is not touched; the source is asked only for what
      is not here and told only of what is; and the author is remembered as it should
      be. */
  ghost predicate WellTaken(c: Config, s: State, t: Took, v: FileVersion) {
    && Confined(c, s, t.s, FiledAs(s, v).path)
    && (v.area == Shared || v.area == Hold ==> t.s.own == s.own)
    && (c.role.Replica? ==> t.s.disk == s.disk)
    && match v.content
       case Deleted =>
         t.s.asked == s.asked && t.s.told == s.told && t.s.senders == s.senders && t.s.holders == s.holders
       case File(h, _) => Asks(c, s, t.s, h) && Tells(c, s, t, v) && Remembers(c, s, t.s, v)
  }

  lemma TakingIsProper(c: Config, src: Source, s: State, v: FileVersion)
    ensures WellTaken(c, s, Taken(c, src, s, v), v)
  {
    var t := Taken(c, src, s, v);
    hide OnDisk, D.Attempt, D.Choose, Confined, Asks, Readable, TakenTombstone, TakenFile, TakenDelivery, LiveAnywhere,
      Refused, CanDecorate;
    if t == Took(s, t.error) {
      Untaken(c, s, v, t.error);
    } else if v.area == Sent && v.content.File? && c.downloads {
      DeliveryIs(c, src, s, v, FiledAs(s, v).path);
    } else if v.content.Deleted? {
      TombstoneIs(c, s, v);
    } else {
      var f := FiledAs(s, v);
      FileIs(c, src, s, f, v);
      FiledTells(c, src, s, v);
    }
  }

  lemma Untaken(c: Config, s: State, v: FileVersion, error: Option<TakeError>)
    ensures WellTaken(c, s, Took(s, error), v)
  {
    hide OnDisk, Readable, LiveAnywhere;
  }

  /** Filed under another name, a delivery is recorded under the one it was sent as. */
  lemma FiledTells(c: Config, src: Source, s: State, v: FileVersion)
    requires v.content.File?
    requires Tells(c, s, TakenFile(c, src, s, FiledAs(s, v), v), FiledAs(s, v))
    ensures Tells(c, s, TakenFile(c, src, s, FiledAs(s, v), v), v)
  {
    var f := FiledAs(s, v);
    var t := TakenFile(c, src, s, f, v);
    if t.s.told != s.told {
      FileReadable(c, src, s, f, v);
    }
    hide TakenFile, Readable;
  }

  lemma FileReadable(c: Config, src: Source, start: State, f: FileVersion, sent: FileVersion)
    requires f.content.File? && TakenFile(c, src, start, f, sent).s.told != start.told
    ensures Readable(c, TakenFile(c, src, start, f, sent).s, f.content.hash)
  {
    var s := Evidence(c, start, f);
    EvidenceIs(c, start, f);
    hide Evidence, TakenByReplica, TakenIntoFolder, Readable, KeptRemotely, Clashes, PrivateHere;
    if c.role.Syncing? { FolderReadable(c, src, s, f, sent); }
  }

  lemma FolderReadable(c: Config, src: Source, s: State, f: FileVersion, sent: FileVersion)
    requires f.content.File? && TakenIntoFolder(c, src, s, f, sent).s.told != s.told
    ensures Readable(c, TakenIntoFolder(c, src, s, f, sent).s, f.content.hash)
  {
    BringInIs(c, src, s, f.content.hash);
    PlacedIs(c, BringIn(c, src, s, f.content.hash).s, f, sent);
    hide BringIn, Readable, Placed;
  }

  lemma ChunkReads(c: Config, s: State, h: Hash)
    ensures h in s.chunks ==> Readable(c, s, h)
  {}

  // ----- files nobody may lose

  predicate FileStays(c: Config, s: State, t: State, p: string) {
    SameFile(s.disk, t.disk, OnDisk(c, p))
  }

  /** A file sent here keeps its place, its bytes and its row whatever versions of the
      shared file of the same name arrive: content is refused, a deletion recorded and
      not carried out. */
  lemma PrivateFileIsSafe(c: Config, src: Source, s: State, v: FileVersion, p: string)
    requires v.area == Shared && Live(s.own, p) && !Live(s.shared, p)
    requires OnDisk(c, v.path) == OnDisk(c, p) ==> v.path == p
    ensures var t := Taken(c, src, s, v);
            && FileStays(c, s, t.s, p) && t.s.own == s.own
            && (v.path == p && v.content.File? ==> t.error.Some?)
  {
    TakingIsProper(c, src, s, v);
    if v.path == p {
      if v.content.File? { EvidenceIs(c, s, v); }
      hide OnDisk, Readable, Evidence, TakenIntoFolder, TakenByReplica, KeptRemotely, Clashes;
    } else {
      hide OnDisk, Readable, Taken;
    }
  }

  // ----- and exactly when a file is written over, removed, or made everybody's

  /** Content this device has, or the source gives. */
  predicate Obtained(c: Config, src: Source, s: State, h: Hash) {
    Readable(c, s, h) || (h in src && src[h].Supplied?)
  }

  /** No live shared file has this name in another case, where that matters. */
  predicate NameIsFree(c: Config, s: State, p: string) {
    c.foldCase ==> !(exists q | q in s.shared :: Clashes(s, p, q))
  }

  /** What it takes for a version's bytes to be put in the folder. */
  predicate Arrives(c: Config, src: Source, s: State, v: FileVersion)
    requires v.content.File?
  {
    var f := FiledAs(s, v);
    && !Refused(c.rules, v.path) && !(v.area == Sent && c.downloads) && !HasNoName(s, v)
    && c.role.Syncing? && f.path !in c.broken && !PrivateHere(s, f) && NameIsFree(c, s, f.path)
    && (v.area == Shared ==>
          Materialised(s, f.path) == Some(true) || !KeptRemotely(c, f.path) || f.path in s.wanted)
    && Obtained(c, src, s, v.content.hash)
  }

  predicate HasOnDisk(s: State, key: string, h: Hash) { key in s.disk && s.disk[key] == h }

  /** Content changes the file the disk has for `p` exactly when it arrives and the disk takes
      the name it is filed under for `p`'s. Names are compared with live shared files only,
      and as to their ASCII letters only: for `p` a file sent here, of another name the
      disk folds alike or of the very name made up for a delivery, nothing stands in its
      way. */
  lemma ContentIsWrittenExactly(c: Config, src: Source, s: State, v: FileVersion, p: string)
    requires v.content.File?
    ensures FileStays(c, s, Taken(c, src, s, v).s, p) <==>
      !(Arrives(c, src, s, v) && c.fold(FiledAs(s, v).path) == c.fold(p)) || HasOnDisk(s, c.fold(p), v.content.hash)
  {
    DiskAfterContent(c, src, s, v);
    hide Taken, Arrives, FiledAs;
  }

  lemma DiskAfterContent(c: Config, src: Source, s: State, v: FileVersion)
    requires v.content.File?
    ensures var (t, h) := (Taken(c, src, s, v).s, v.content.hash);
      t.disk == if Arrives(c, src, s, v) then s.disk[OnDisk(c, FiledAs(s, v).path) := h] else s.disk
  {
    var f := FiledAs(s, v);
    FiledIs(s, v);
    TakenIs(c, src, s, v);
    DiskKept(c, src, s, v);
    hide Taken, TakenFile, TakenDelivery, TakenByReplica, KnowElsewhere, Obtained, OnDisk, KeptRemotely, Refused,
      Materialised, PrivateHere, NameIsFree, FiledAs, HasNoName;
    FileDisk(c, src, s, f, v);
  }

  lemma FileDisk(c: Config, src: Source, s: State, f: FileVersion, sent: FileVersion)
    requires f.content.File?
    ensures var (t, h) := (TakenFile(c, src, s, f, sent).s, f.content.hash);
      t.disk ==
        if c.role.Syncing? && f.path !in c.broken && !PrivateHere(s, f) && NameIsFree(c, s, f.path)
           && (f.area == Shared ==>
                 Materialised(s, f.path) == Some(true) || !KeptRemotely(c, f.path) || f.path in s.wanted)
           && Obtained(c, src, s, h)
        then s.disk[OnDisk(c, f.path) := h] else s.disk
  {
    var e := Evidence(c, s, f);
    EvidenceIs(c, s, f);
    SameNames(c, s, e, f);
    DiskKept(c, src, e, f);
    assert Obtained(c, src, e, f.content.hash) == Obtained(c, src, s, f.content.hash);
    hide Evidence, TakenFile, TakenIntoFolder, TakenByReplica, KnowElsewhere, Obtained, OnDisk, KeptRemotely,
      Materialised, PrivateHere, NameIsFree, Remembers;
    FileBranches(c, src, s, f, sent);
    FolderWrites(c, src, e, f, sent);
  }

  lemma DiskKept(c: Config, src: Source, s: State, v: FileVersion)
    requires v.content.File?
    ensures TakenDelivery(c, src, s, v).s.disk == s.disk && TakenByReplica(c, src, s, v).s.disk == s.disk
    ensures KnowElsewhere(s, v).disk == s.disk
  {
    ObtainedIs(c, src, s, v.content.hash);
    hide BringIn, Obtained, D.Choose, D.Attempt;
  }

  /** Two sends of one name, whose name is taken, by one device in one second are filed under
      one name: where the first is there, the second is written over it. */
  lemma SecondSendIsWrittenOver(c: Config, src: Source, s: State, v: FileVersion, w: FileVersion)
    requires v.area == w.area == Sent && v.content.File? && w.content.File? && v.content.hash != w.content.hash
    requires v.path == w.path && v.author == w.author && v.at == w.at && LiveAnywhere(s, v.path)
    requires Live(s.own, ReceivedPath(v)) && HasOnDisk(s, c.fold(ReceivedPath(v)), v.content.hash)
    ensures FiledAs(s, w).path == ReceivedPath(v)
    ensures !FileStays(c, s, Taken(c, src, s, w).s, ReceivedPath(v)) <==> Arrives(c, src, s, w)
  {
    assert Decoration(v, "from") == Decoration(w, "from");
    ContentIsWrittenExactly(c, src, s, w, ReceivedPath(v));
    hide Taken, Arrives, FileStays, Decoration;
  }

  /** The process stopping once a version's bytes are in the folder and before the index is
      told. */
  function StoppedInPlace(c: Config, src: Source, s: State, v: FileVersion): State
    requires v.content.File?
  {
    var f := FiledAs(s, v);
    var got := BringIn(c, src, Evidence(c, s, f), v.content.hash).s;
    got.(disk := got.disk[OnDisk(c, f.path) := v.content.hash])
  }

  /** The index once a scan has read the file at `p` into `row`: where the name's live row is,
      or else where this device puts its new files. */
  function Scanned(s: State, p: string, row: Row, keepsPrivate: bool): State {
    if Live(s.shared, p) || !(Live(s.own, p) || keepsPrivate) then s.(shared := s.shared[p := row])
    else s.(own := s.own[p := row])
  }

  /** A delivery stopped there is on disk as if it had been taken, is not recorded as taken,
      and the next scan makes it everybody's: exactly unless the name it was filed under is
      a private file's, or the device keeps its new files to itself. */
  lemma StoppedDeliveryIsShared(c: Config, src: Source, s: State, v: FileVersion, row: Row, keepsPrivate: bool)
    requires v.area == Sent && v.content.File? && row.content.File? && Arrives(c, src, s, v)
    ensures var t, p := StoppedInPlace(c, src, s, v), FiledAs(s, v).path;
      && t.disk == Taken(c, src, s, v).s.disk && t.taken == s.taken
      && var u := Scanned(t, p, row, keepsPrivate).shared;
         (p in u && u[p] == row <==>
            Live(s.shared, p) || !(Live(s.own, p) || keepsPrivate))
  {
    var f := FiledAs(s, v);
    DiskAfterContent(c, src, s, v);
    EvidenceIs(c, s, f);
    BringInIs(c, src, Evidence(c, s, f), v.content.hash);
    hide Taken, Arrives, FiledAs, BringIn, Evidence, OnDisk, Remembers, Asks, Readable;
  }

  /** What the collision test sees of the disk's folding: every two names it takes for one,
      the second of them a name that can be written, differ in the case of ASCII letters
      only -- and not even so, where no folding was found. */
  ghost predicate FoldIsSeen(c: Config) {
    forall p: string, q: string | Alike(c, p, q) && !Refused(c.rules, q) && q !in c.broken ::
      c.foldCase && Lower(p) == Lower(q)
  }

  predicate Alike(c: Config, p: string, q: string) { p != q && c.fold(p) == c.fold(q) }

  /** On a device with a folder, no shared content of another name ever changes the file of
      a live shared one -- in any state, from any source -- exactly when the test sees all
      of the disk's folding. */
  lemma SharedFileIsSafe(c: Config)
    requires c.role.Syncing?
    ensures
      (forall s: State, src: Source, v: FileVersion, p: string
         | v.area == Shared && v.content.File? && Live(s.shared, p) && v.path != p ::
           FileStays(c, s, Taken(c, src, s, v).s, p))
      <==> FoldIsSeen(c)
  {
    hide Taken, Refused, FileStays;
    if FoldIsSeen(c) {
      forall s: State, src: Source, v: FileVersion, p: string
        | v.area == Shared && v.content.File? && Live(s.shared, p) && v.path != p
        ensures FileStays(c, s, Taken(c, src, s, v).s, p)
      {
        SeenFoldSpares(c, src, s, v, p);
      }
    } else {
      var p: string, q: string :|
        Alike(c, p, q) && !Refused(c.rules, q) && q !in c.broken && !(c.foldCase && Lower(p) == Lower(q));
      var s, src, v := UnseenNameIsWrittenOver(c, p, q);
    }
  }

  lemma SeenFoldSpares(c: Config, src: Source, s: State, v: FileVersion, p: string)
    requires FoldIsSeen(c) && v.area == Shared && v.content.File? && Live(s.shared, p) && v.path != p
    ensures FileStays(c, s, Taken(c, src, s, v).s, p)
  {
    ContentIsWrittenExactly(c, src, s, v, p);
    assert FiledAs(s, v) == v;
    if c.fold(v.path) == c.fold(p) && !Refused(c.rules, v.path) && v.path !in c.broken {
      assert Alike(c, p, v.path);
      assert Clashes(s, v.path, p);
    }
    hide Taken, Refused, FileStays, Lower, LiveAnywhere, Materialised, KeptRemotely, Readable;
  }

  /** Two names the disk takes for one, and the test for two: the file of the first is
      written over with the second's. */
  lemma UnseenNameIsWrittenOver(c: Config, p: string, q: string) returns (s: State, src: Source, v: FileVersion)
    requires c.role.Syncing? && Alike(c, p, q) && !Refused(c.rules, q) && q !in c.broken
    requires !(c.foldCase && Lower(p) == Lower(q))
    ensures v.path == q && v.area == Shared && v.content.File? && Live(s.shared, p)
    ensures s.disk == map[c.fold(p) := 1] && Taken(c, src, s, v).s.disk == map[c.fold(p) := 2]
    ensures !FileStays(c, s, Taken(c, src, s, v).s, p)
  {
    var row := Row(File(1, 0), map[], c.me, 0, true);
    s := State(map[c.fold(p) := 1], map[p := row], map[], map[], {}, {}, {}, {q}, {}, map[], {},
               D.Desk(map[], map[], {}, map[]), [], [], []);
    src, v := map[2 := Supplied], FileVersion(q, File(2, 0), map[], c.me, 0, Shared);
    assert FiledAs(s, v) == v && NameIsFree(c, s, q) && !PrivateHere(s, v);
    hide Taken, Refused, Lower, Readable;
    DiskAfterContent(c, src, s, v);
  }

  /** Accented letters, say: a disk that folds them, too, writes a file over another whose
      name has one in the other case. */
  lemma AccentIsNotSeen(c: Config) returns (s: State, src: Source, v: FileVersion)
    requires c.role.Syncing? && c.rules == Rules(None, {}) && UMLAUT !in c.broken
    requires c.fold(CAPITAL_UMLAUT) == c.fold(UMLAUT)
    ensures v.path == UMLAUT && v.area == Shared && v.content.File? && Live(s.shared, CAPITAL_UMLAUT)
    ensures !FileStays(c, s, Taken(c, src, s, v).s, CAPITAL_UMLAUT)
  {
    UmlautIsTaken();
    LowerAt(UMLAUT);
    LowerAt(CAPITAL_UMLAUT);
    assert UMLAUT[0] == '\U{00FC}' && CAPITAL_UMLAUT[0] == '\U{00DC}';
    assert Lower(UMLAUT)[0] != Lower(CAPITAL_UMLAUT)[0];
    hide Refused, Taken, FileStays, Lower;
    s, src, v := UnseenNameIsWrittenOver(c, CAPITAL_UMLAUT, UMLAUT);
  }

  lemma TakenIs(c: Config, src: Source, s: State, v: FileVersion)
    requires v.content.File?
    ensures Taken(c, src, s, v) ==
      if Refused(c.rules, v.path) then Took(s, Some(UnsafePath))
      else if v.area == Sent && c.downloads then TakenDelivery(c, src, s, v)
      else if HasNoName(s, v) then Took(s, Some(Halted))
      else TakenFile(c, src, s, FiledAs(s, v), v)
  {
    hide Refused, TakenDelivery, TakenFile, FiledAs, HasNoName;
  }

  lemma FileBranches(c: Config, src: Source, start: State, f: FileVersion, sent: FileVersion)
    requires f.content.File?
    ensures var s := Evidence(c, start, f);
      TakenFile(c, src, start, f, sent) ==
        if PrivateHere(s, f) then Took(s, Some(TakenPrivately))
        else if !NameIsFree(c, s, f.path) then Took(s, Some(CaseCollision))
        else if c.role.Replica? then TakenByReplica(c, src, s, f)
        else if f.area == Shared && Materialised(s, f.path) != Some(true) && KeptRemotely(c, f.path)
                && f.path !in s.wanted then Took(KnowElsewhere(s, f), None)
        else TakenIntoFolder(c, src, s, f, sent)
  {
    hide Evidence, TakenByReplica, TakenIntoFolder, KnowElsewhere, KeptRemotely, Materialised, PrivateHere, Clashes;
  }

  lemma FolderWrites(c: Config, src: Source, s: State, f: FileVersion, sent: FileVersion)
    requires f.content.File?
    ensures TakenIntoFolder(c, src, s, f, sent).s.disk ==
      if Obtained(c, src, s, f.content.hash) && f.path !in c.broken then s.disk[OnDisk(c, f.path) := f.content.hash]
      else s.disk
  {
    ObtainedIs(c, src, s, f.content.hash);
    hide BringIn, Obtained, OnDisk, PrivateRow, Materialised;
  }

  lemma ObtainedIs(c: Config, src: Source, s: State, h: Hash)
    ensures BringIn(c, src, s, h).error.None? <==> Obtained(c, src, s, h)
    ensures BringIn(c, src, s, h).s.disk == s.disk
  {
    hide Readable;
  }

  /** Remembering an author changes nothing a name is judged by. */
  lemma SameNames(c: Config, s: State, e: State, v: FileVersion)
    requires e == s.(senders := e.senders, holders := e.holders)
    ensures PrivateHere(e, v) == PrivateHere(s, v) && Materialised(e, v.path) == Materialised(s, v.path)
    ensures forall p :: NameIsFree(c, e, p) == NameIsFree(c, s, p)
  {
    forall p, q ensures Clashes(e, p, q) == Clashes(s, p, q) {}
  }

  /** A deletion removes the file the disk has for `p` exactly when there is one, the disk
      takes the deleted name for `p`'s, and nothing refuses. It compares no names: `p`
      may be another live file, and its row stays live. */
  lemma DeletionRemovesExactly(c: Config, src: Source, s: State, v: FileVersion, p: string)
    requires v.content.Deleted?
    ensures var t := Taken(c, src, s, v).s;
      && (FileStays(c, s, t, p) <==>
            c.fold(v.path) != c.fold(p) || c.fold(p) !in s.disk || c.role.Replica? || PrivateHere(s, v)
            || v.path in c.broken || Refused(c.rules, v.path))
      && (p != v.path ==> SameRow(s.shared, t.shared, p) && SameRow(s.own, t.own, p))
  {
    TakingIsProper(c, src, s, v);
    hide Refused, PrivateHere;
  }

  /** A device that takes what is sent to it alone into the shared area: a replica has no
      folder and no Downloads. */
  predicate Publishes(c: Config) { c.role.Replica? && !c.downloads }

  /** A delivery leaves the shared area as it was on every device that is not one of those;
      and on those, exactly when it does not come, or is there already. */
  lemma DeliveryStaysPrivate(c: Config, src: Source, s: State, v: FileVersion)
    requires v.area == Sent && v.content.File?
    ensures var f := FiledAs(s, v);
      Taken(c, src, s, v).s.shared == s.shared <==>
        !Publishes(c) || Refused(c.rules, v.path) || HasNoName(s, v) || !NameIsFree(c, s, f.path)
        || !Obtained(c, src, s, v.content.hash)
        || (f.path in s.shared && s.shared[f.path] == RowOf(f, true))
  {
    var f := FiledAs(s, v);
    var e := Evidence(c, s, f);
    FiledIs(s, v);
    EvidenceIs(c, s, f);
    SameNames(c, s, e, f);
    TakenIs(c, src, s, v);
    assert !PrivateHere(e, f);
    assert Obtained(c, src, e, f.content.hash) == Obtained(c, src, s, v.content.hash);
    hide FiledAs, Evidence, Taken, TakenFile, TakenDelivery, TakenIntoFolder, TakenByReplica, KnowElsewhere, Obtained,
      Refused, HasNoName, NameIsFree, Materialised, KeptRemotely, PrivateHere, RowOf, Remembers;
    FileBranches(c, src, s, f, v);
    DeskKeepsShared(c, src, s, v);
    ReplicaRow(c, src, e, f);
    OwnKeepsShared(c, src, e, f, v);
  }

  lemma DeskKeepsShared(c: Config, src: Source, s: State, v: FileVersion)
    requires v.content.File?
    ensures TakenDelivery(c, src, s, v).s.shared == s.shared
  {
    hide D.Choose, D.Attempt, Readable;
  }

  lemma ReplicaRow(c: Config, src: Source, s: State, f: FileVersion)
    requires f.content.File?
    ensures TakenByReplica(c, src, s, f).s.shared ==
      if Obtained(c, src, s, f.content.hash) then s.shared[f.path := RowOf(f, true)] else s.shared
    ensures !Obtained(c, src, s, f.content.hash) || (f.path in s.shared && s.shared[f.path] == RowOf(f, true)) <==>
      TakenByReplica(c, src, s, f).s.shared == s.shared
  {
    hide Readable, RowOf;
    var t := TakenByReplica(c, src, s, f).s;
    if Obtained(c, src, s, f.content.hash) { assert t.shared[f.path] == RowOf(f, true); }
  }

  lemma OwnKeepsShared(c: Config, src: Source, s: State, f: FileVersion, sent: FileVersion)
    requires f.content.File?
    ensures f.area == Sent || f.area == Held ==> TakenIntoFolder(c, src, s, f, sent).s.shared == s.shared
  {
    hide Readable, OnDisk, PrivateRow, Materialised;
  }

  /** On a device with a folder, what was sent to it and its own files fetched back are
      filed in its own vault. */
  lemma PrivateAreasAreOwn(c: Config, src: Source, s: State, v: FileVersion)
    requires (v.area == Sent || v.area == Held) && v.content.File? && c.role.Syncing?
    ensures Taken(c, src, s, v).s.shared == s.shared
  {
    var f := FiledAs(s, v);
    FiledIs(s, v);
    EvidenceIs(c, s, f);
    TakenIs(c, src, s, v);
    hide FiledAs, Evidence, Taken, TakenFile, TakenDelivery, TakenIntoFolder, TakenByReplica, KnowElsewhere, Refused,
      NameIsFree, Materialised, KeptRemotely, PrivateHere;
    FileBranches(c, src, s, f, v);
    DeskKeepsShared(c, src, s, v);
    OwnKeepsShared(c, src, Evidence(c, s, f), f, v);
  }

  /** What taking a shared version leaves of the shared rows: the others as they were, and
      its own as it was or as the version says. */
  lemma SharedRowsAfter(c: Config, src: Source, s: State, v: FileVersion, p: string)
    requires v.area == Shared
    ensures var t := Taken(c, src, s, v).s;
      SameRow(s.shared, t.shared, p)
          || (p == v.path && p in t.shared && exists here: bool :: t.shared[p] == RowOf(v, here))
  {
    TakingIsProper(c, src, s, v);
    if p == v.path && v.content.File? {
      ContentRow(c, src, s, v);
    }
    hide OnDisk, Readable, Refused, PrivateHere, RowOf, TakenFile, TakenDelivery;
    if p == v.path && v.content.Deleted? {
      assert Tombstone(s, v).shared[p] == RowOf(v, false);
    } else if p != v.path {
      hide Taken;
    }
  }

  lemma ContentRow(c: Config, src: Source, s: State, v: FileVersion)
    requires v.area == Shared && v.content.File?
    ensures var t := Taken(c, src, s, v).s;
      SameRow(s.shared, t.shared, v.path)
      || (v.path in t.shared && (t.shared[v.path] == RowOf(v, true) || t.shared[v.path] == RowOf(v, false)))
  {
    var e := Evidence(c, s, v);
    EvidenceIs(c, s, v);
    TakenIs(c, src, s, v);
    assert FiledAs(s, v) == v;
    hide Evidence, Taken, TakenFile, TakenIntoFolder, TakenByReplica, Refused, NameIsFree, Materialised, KeptRemotely,
      PrivateHere, RowOf;
    FileBranches(c, src, s, v, v);
    ReplicaRow(c, src, e, v);
    FolderRow(c, src, e, v);
  }

  lemma FolderRow(c: Config, src: Source, s: State, v: FileVersion)
    requires v.area == Shared && v.content.File?
    ensures var t := TakenIntoFolder(c, src, s, v, v).s;
      t.shared == s.shared
      || (v.path in t.shared && (t.shared[v.path] == RowOf(v, true) || t.shared[v.path] == RowOf(v, false)))
  {
    hide Readable, OnDisk, RowOf, Materialised;
  }

  lemma FiledIs(s: State, v: FileVersion)
    ensures FiledAs(s, v) == v.(path := FiledAs(s, v).path)
  {}
}
