/** A file sent to single devices, as a protocol between its sender and each recipient.
    The sender keeps no copy. A send lasts as long as its file, and is then over: the
    recipient has it or never will. Either end may run short of
    space, and lets go of a copy when its records say another device has one. */
module VaultDelivery {
  import opened Wrappers
  import opened Versions

  /** Who has been recorded as holding the bytes; `true` is in a vault of its own, where
      nobody can ask for them back. */
  type Records = map<DeviceId, bool>

  /** What does not change: which devices are phones, which belong to another person, which
      keep a delivery in their folder rather than in Downloads, which are shown the
      sender's shared files; who the sender is; and whether the file is a copy made only
      to be sent. */
  datatype World = World(
    me: DeviceId, phones: set<DeviceId>, others: set<DeviceId>, filed: set<DeviceId>, seers: set<DeviceId>,
    copied: bool)

  /** Whether the file is a shared one of the sender's, and then whether it is here. */
  datatype Place = NotShared | Here | Freed

  /** The recipient has yet to collect it; has it; has let go of it for space; or has it no
      more because its person did away with it. */
  datatype Copy = Waiting | InPlace | LetGo | Deleted

  /** A send: still offered; read from the file; and what has become of it. */
  datatype Send = Send(live: bool, read: bool, copy: Copy)

  datatype State = State(
    intact: bool,                       // the file is there, with the bytes it had
    place: Place,
    sends: map<DeviceId, Send>,
    records: Records,                   // the sender's
    theirs: map<DeviceId, Records>)     // the recipients'

  /** A record made: once somebody can be asked for the bytes, a vault delivery does not
      take that back. */
  function Note(records: Records, d: DeviceId, private_: bool): Records {
    records[d := private_ && (d !in records || records[d])]
  }

  function Deny(records: Records, d: DeviceId): Records { if d in records then records[d := true] else records }

  /** Some device that is not a phone can be asked for the bytes. */
  predicate MayFree(w: World, records: Records) { exists d | d in records :: !records[d] && d !in w.phones }

  predicate MayAsk(records: Records) { exists d | d in records :: !records[d] }

  function RecordsOf(s: State, r: DeviceId): Records { if r in s.theirs then s.theirs[r] else map[] }

  datatype Event =
    | MakeSend(r: DeviceId)
    | Spoil                                     // the file's person changes, moves or deletes it
    | Mend                                      // or puts the same bytes back
    | Share                                     // or shares it
    | Scan                                      // the sender finds its shared file changed or gone
    | Free                                      // the sender short of space
    | FetchBack
    | Check(r: DeviceId)                        // a waiting send's file is looked at
    | Tidy(r: DeviceId)                         // a send over with is read no more
    | Cancel(r: DeviceId)
    | CutOff(r: DeviceId)                       // a fetch that came to nothing
    | Commit(r: DeviceId)                       // fetched, in place, recorded
    | Confirm(r: DeviceId)                      // the sender told, and what it is told written down
    | Learn(d: DeviceId, private_: bool)        // the sender records a device, or that it was wrong
    | Unlearn(d: DeviceId)
    | LearnAt(r: DeviceId, d: DeviceId, private_: bool)
    | UnlearnAt(r: DeviceId, d: DeviceId)
    | Evict(r: DeviceId)                        // the recipient short of space
    | FetchBackAt(r: DeviceId)
    | Delete(r: DeviceId)                       // the recipient's person does away with it

  /** A send is over with when it is offered no more or its recipient is recorded as having
      the bytes, in whatever way. */
  predicate IsDone(s: State, r: DeviceId) { r in s.sends && (!s.sends[r].live || r in s.records) }

  /** The sender can give `r` the bytes: from the send's file, or from the shared file of
      the same bytes if `r` is shown that. */
  predicate Serves(w: World, s: State, r: DeviceId) {
    s.intact && r in s.sends && s.sends[r].live && (s.sends[r].read || (s.place.Here? && r in w.seers))
  }

  /** Told that `r` has it, the sender takes `r` for a device it can ask, unless that is
      another person's, or has it only from a send still offered. */
  predicate IsPrivate(w: World, s: State, r: DeviceId) {
    r in w.others || (s.place.NotShared? && r in s.sends && s.sends[r].live)
  }

  predicate Enabled(w: World, s: State, e: Event) {
    match e
    case MakeSend(_) => s.intact
    case Spoil => true
    case Mend => true
    case Share => s.place.NotShared? && s.intact && !w.copied
    case Scan => s.place.Here? && !s.intact
    case Free => s.place.Here? && MayFree(w, s.records)
    case FetchBack => s.place.Freed? && MayAsk(s.records)
    case Check(r) => r in s.sends && s.sends[r].read && !IsDone(s, r) && !s.intact
    case Tidy(r) => r in s.sends && s.sends[r].read && IsDone(s, r)
    case Cancel(r) => r in s.sends && s.sends[r].live && r !in s.records
    case CutOff(r) => r in s.sends && s.sends[r].live && s.sends[r].copy.Waiting?
    case Commit(r) => Serves(w, s, r) && s.sends[r].copy.Waiting?
    case Confirm(r) => r in s.sends && !s.sends[r].copy.Waiting?
    case Learn(_, _) => true
    case Unlearn(_) => true
    case LearnAt(_, _, _) => true
    case UnlearnAt(_, _) => true
    case Evict(r) => r in s.sends && r in w.filed && s.sends[r].copy.InPlace? && MayFree(w, RecordsOf(s, r))
    case FetchBackAt(r) => r in s.sends && s.sends[r].copy.LetGo? && MayAsk(RecordsOf(s, r))
    case Delete(r) => r in s.sends && (s.sends[r].copy.InPlace? || s.sends[r].copy.LetGo?)
  }

  /** On a device that files deliveries in its folder, the sender is noted as holding the
      bytes for it, before they are fetched. */
  function Noted(w: World, s: State, r: DeviceId): map<DeviceId, Records> {
    if r in w.filed then s.theirs[r := Note(RecordsOf(s, r), w.me, true)] else s.theirs
  }

  function Next(w: World, s: State, e: Event): State
    requires Enabled(w, s, e)
  {
    match e
    case MakeSend(r) =>
      // what was delivered before in the same way says nothing of this send
      s.(sends := s.sends[r := Send(true, true, Waiting)],
         records := if r in s.records && s.records[r] then s.records - {r} else s.records)
    case Spoil => s.(intact := false)
    case Mend => s.(intact := true)
    case Share => s.(place := Here)
    case Scan => s.(place := NotShared)
    case Free => s.(place := Freed, intact := false)
    case FetchBack => s.(place := Here, intact := true)
    case Check(r) => s.(sends := s.sends[r := s.sends[r].(live := false, read := false)])
    case Tidy(r) => s.(sends := s.sends[r := s.sends[r].(read := false)], intact := s.intact && !w.copied)
    case Cancel(r) => s.(sends := s.sends[r := s.sends[r].(live := false)])
    case CutOff(r) => s.(theirs := Noted(w, s, r))
    case Commit(r) => s.(sends := s.sends[r := s.sends[r].(copy := InPlace)], theirs := Noted(w, s, r))
    case Confirm(r) => s.(records := Note(s.records, r, IsPrivate(w, s, r)))
    case Learn(d, private_) => s.(records := Note(s.records, d, private_))
    case Unlearn(d) => s.(records := Deny(s.records, d))
    case LearnAt(r, d, private_) => s.(theirs := s.theirs[r := Note(RecordsOf(s, r), d, private_)])
    case UnlearnAt(r, d) => s.(theirs := s.theirs[r := Deny(RecordsOf(s, r), d)])
    case Evict(r) => s.(sends := s.sends[r := s.sends[r].(copy := LetGo)])
    case FetchBackAt(r) => s.(sends := s.sends[r := s.sends[r].(copy := InPlace)])
    case Delete(r) => s.(sends := s.sends[r := s.sends[r].(copy := Copy.Deleted)])
  }

  /** Where `events` lead, if each can happen when it is its turn. */
  function Played(w: World, s: State, events: seq<Event>): Option<State>
    decreases |events|
  {
    if events == [] then Some(s)
    else if Enabled(w, s, events[0]) then Played(w, Next(w, s, events[0]), events[1..])
    else None
  }

  // ----- what keeps the bytes at one end

  /** The bytes are in the sender's file, or the recipient has them, or its person has done
      away with them. */
  predicate Readable(s: State, r: DeviceId) {
    s.intact || (r in s.sends && (s.sends[r].copy.InPlace? || s.sends[r].copy.Deleted?))
  }

  ghost predicate ReadableAlong(w: World, s: State, events: seq<Event>, r: DeviceId)
    requires Played(w, s, events).Some?
    decreases |events|
  {
    Readable(s, r) && (events == [] || ReadableAlong(w, Next(w, s, events[0]), events[1..], r))
  }

  /** While the recipient does not have them: the file changed, moved or deleted, or freed, or,
      a copy made only to be sent, given up. While it is not there: the recipient's copy let
      go for space. */
  predicate Loses(w: World, s: State, e: Event, r: DeviceId) {
    var apart := r !in s.sends || s.sends[r].copy.Waiting? || s.sends[r].copy.LetGo?;
    (apart && (e.Spoil? || e.Free? || (e.Tidy? && w.copied))) || (e == Evict(r) && !s.intact)
  }

  ghost predicate NothingLoses(w: World, s: State, events: seq<Event>, r: DeviceId)
    requires Played(w, s, events).Some?
    decreases |events|
  {
    events == [] || (!Loses(w, s, events[0], r) && NothingLoses(w, Next(w, s, events[0]), events[1..], r))
  }

  lemma StepLosesExactly(w: World, s: State, e: Event, r: DeviceId)
    requires Readable(s, r) && Enabled(w, s, e)
    ensures Readable(Next(w, s, e), r) <==> !Loses(w, s, e, r)
  {
    hide MayFree, MayAsk;
  }

  /** In every interleaving, whatever is recorded, sent and sent again: sender or recipient can
      read the bytes in every state, until the recipient's person does away with them,
      exactly when nothing of that kind happens. */
  lemma {:induction false} ReadableExactly(w: World, s: State, events: seq<Event>, r: DeviceId)
    requires Readable(s, r) && Played(w, s, events).Some?
    ensures ReadableAlong(w, s, events, r) <==> NothingLoses(w, s, events, r)
    decreases |events|
  {
    if events != [] {
      StepLosesExactly(w, s, events[0], r);
      hide Enabled, Next, Readable, Loses;
      if Readable(Next(w, s, events[0]), r) {
        ReadableExactly(w, Next(w, s, events[0]), events[1..], r);
      }
    }
  }

  /** Letting go of a copy on another device's record is all the program itself can lose them
      by: as long as neither end has another device to ask, only the file's person does, or
      the giving up of a passing copy. */
  lemma OnlyPeopleLose(w: World, s: State, e: Event, r: DeviceId)
    requires Readable(s, r) && Enabled(w, s, e) && !MayFree(w, s.records) && !MayFree(w, RecordsOf(s, r))
    ensures Loses(w, s, e, r) ==> e.Spoil? || (e.Tidy? && w.copied)
  {
    hide MayFree, MayAsk;
  }

  // ----- what keeps a send within its recipient's reach

  /** `r` can have the bytes, or has them, or its person has done away with them. */
  predicate Kept(w: World, s: State, r: DeviceId) {
    r in s.sends
    && match s.sends[r].copy
       case Waiting => Serves(w, s, r)
       case LetGo => false
       case _ => true
  }

  /** In every state of the run. */
  ghost predicate Stays(w: World, s: State, events: seq<Event>, r: DeviceId)
    requires Played(w, s, events).Some?
    decreases |events|
  {
    Kept(w, s, r) && (events == [] || Stays(w, Next(w, s, events[0]), events[1..], r))
  }

  /** Until it is collected: the file changed, moved or deleted, or freed; the send taken
      back; or its file given up, for this send or for another of the same passing copy.
      After: the recipient's copy let go for space. */
  predicate Disturbs(w: World, s: State, e: Event, r: DeviceId)
    requires r in s.sends
  {
    match s.sends[r].copy
    case Waiting =>
      e.Spoil? || e.Free? || e == Cancel(r) || (e.Tidy? && w.copied)
          || (e == Tidy(r) && !(s.place.Here? && r in w.seers))
    case InPlace => e == Evict(r)
    case _ => false
  }

  ghost predicate Undisturbed(w: World, s: State, events: seq<Event>, r: DeviceId)
    requires Played(w, s, events).Some? && r in s.sends
    decreases |events|
  {
    events == [] || (!Disturbs(w, s, events[0], r) && Undisturbed(w, Next(w, s, events[0]), events[1..], r))
  }

  lemma StepKeepsExactly(w: World, s: State, e: Event, r: DeviceId)
    requires Kept(w, s, r) && Enabled(w, s, e) && e != MakeSend(r)
    ensures r in Next(w, s, e).sends
    ensures Kept(w, Next(w, s, e), r) <==> !Disturbs(w, s, e, r)
  {
    hide MayFree, MayAsk;
  }

  predicate NotSentAgain(events: seq<Event>, r: DeviceId) { MakeSend(r) !in events }

  /** From a send on, in every interleaving: it is within its recipient's reach in every state,
      until the recipient's person does away with it, exactly when nothing of that kind
      happens. What is called off was out of reach before. */
  lemma {:induction false} KeptExactly(w: World, s: State, events: seq<Event>, r: DeviceId)
    requires Kept(w, s, r) && Played(w, s, events).Some? && NotSentAgain(events, r)
    ensures Stays(w, s, events, r) <==> Undisturbed(w, s, events, r)
    decreases |events|
  {
    if events != [] {
      var e, rest := events[0], events[1..];
      assert e in events && forall x | x in rest :: x in events;
      StepKeepsExactly(w, s, e, r);
      hide Enabled, Next, Kept, Disturbs;
      if Kept(w, Next(w, s, e), r) { KeptExactly(w, Next(w, s, e), rest, r); }
    }
  }

  // ----- and what it takes for the program to disturb one

  /** Neither end has anything to let its copy go for, and the sender nothing that says `r`
      has collected. */
  predicate NoWord(w: World, s: State, r: DeviceId) {
    && !MayFree(w, s.records) && !MayFree(w, RecordsOf(s, r))
    && (r in s.sends && s.sends[r].copy.Waiting? ==> r !in s.records)
  }

  /** A word either end may let go on: some device that is not a phone is taken for one to
      ask -- a recipient, confirming, among them -- or the sender is told of `r` from
      elsewhere. */
  predicate GivesWord(w: World, s: State, e: Event, r: DeviceId) {
    match e
    case Learn(d, private_) => d == r || (!private_ && d !in w.phones)
    case LearnAt(q, d, private_) => q == r && !private_ && d !in w.phones
    case Confirm(q) => q !in w.phones && !IsPrivate(w, s, q)
    case _ => false
  }

  ghost predicate NobodySays(w: World, s: State, events: seq<Event>, r: DeviceId)
    requires Played(w, s, events).Some?
    decreases |events|
  {
    events == [] || (!GivesWord(w, s, events[0], r) && NobodySays(w, Next(w, s, events[0]), events[1..], r))
  }

  /** What people do: to the file, or to the send; or, of a copy made for several sends, that
      another of them is over with. */
  predicate ByHand(w: World, s: State, e: Event, r: DeviceId)
    requires r in s.sends
  {
    s.sends[r].copy.Waiting? && (e.Spoil? || e == Cancel(r) || (e.Tidy? && e.r != r && w.copied))
  }

  ghost predicate LeftAlone(w: World, s: State, events: seq<Event>, r: DeviceId)
    requires Played(w, s, events).Some? && r in s.sends
    decreases |events|
  {
    events == [] || (!ByHand(w, s, events[0], r) && LeftAlone(w, Next(w, s, events[0]), events[1..], r))
  }

  lemma NotingKeepsNone(w: World, records: Records, d: DeviceId, private_: bool)
    requires !MayFree(w, records) && (private_ || d in w.phones)
    ensures !MayFree(w, Note(records, d, private_)) && !MayFree(w, Deny(records, d))
  {}

  lemma DenyingKeepsNone(w: World, records: Records, d: DeviceId)
    requires !MayFree(w, records)
    ensures !MayFree(w, Deny(records, d)) && !MayFree(w, records - {d})
  {}

  lemma StaysWordless(w: World, s: State, e: Event, r: DeviceId)
    requires NoWord(w, s, r) && Enabled(w, s, e) && !GivesWord(w, s, e, r) && e != MakeSend(r)
    ensures NoWord(w, Next(w, s, e), r)
  {
    hide MayFree, MayAsk, IsPrivate;
    match e
    case MakeSend(q) => DenyingKeepsNone(w, s.records, q);
    case Confirm(q) => NotingKeepsNone(w, s.records, q, IsPrivate(w, s, q));
    case Learn(d, private_) => NotingKeepsNone(w, s.records, d, private_);
    case Unlearn(d) => DenyingKeepsNone(w, s.records, d);
    case LearnAt(q, d, private_) => if q == r { NotingKeepsNone(w, RecordsOf(s, r), d, private_); }
    case UnlearnAt(q, d) => if q == r { DenyingKeepsNone(w, RecordsOf(s, r), d); }
    case CutOff(q) => NotingKeepsNone(w, RecordsOf(s, r), w.me, true);
    case Commit(q) => NotingKeepsNone(w, RecordsOf(s, r), w.me, true);
    case _ =>
  }

  lemma OnlyByHand(w: World, s: State, e: Event, r: DeviceId)
    requires Kept(w, s, r) && NoWord(w, s, r) && Enabled(w, s, e)
    ensures Disturbs(w, s, e, r) <==> ByHand(w, s, e, r)
  {
    hide MayFree, MayAsk;
  }

  lemma {:induction false} WordlessRun(w: World, s: State, events: seq<Event>, r: DeviceId)
    requires Kept(w, s, r) && NoWord(w, s, r) && Played(w, s, events).Some? && NotSentAgain(events, r)
    requires NobodySays(w, s, events, r)
    ensures Stays(w, s, events, r) <==> LeftAlone(w, s, events, r)
    decreases |events|
  {
    if events != [] {
      var e, rest := events[0], events[1..];
      assert e in events && forall x | x in rest :: x in events;
      StepKeepsExactly(w, s, e, r);
      OnlyByHand(w, s, e, r);
      StaysWordless(w, s, e, r);
      hide Enabled, Next, Kept, Disturbs, ByHand, NoWord, GivesWord;
      if Kept(w, Next(w, s, e), r) { WordlessRun(w, Next(w, s, e), rest, r); }
    }
  }

  /** A send made where neither end has another device to ask for the bytes, the sender none
      of `r` having them either, and no such word reaching either end afterwards: whatever
      the order of fetches, cut-offs, commits, confirmations, checks and both ends' want of
      space, it stays within its recipient's reach until that device's person does away
      with it, exactly if people leave the file and the send alone until it is collected. */
  lemma DeliveryIsNeverLost(w: World, m: State, events: seq<Event>, r: DeviceId)
    requires m.intact && !MayFree(w, m.records) && !MayFree(w, RecordsOf(m, r)) && (r in m.records ==> m.records[r])
    requires var s := Next(w, m, MakeSend(r));
             Played(w, s, events).Some? && NotSentAgain(events, r) && NobodySays(w, s, events, r)
    ensures var s := Next(w, m, MakeSend(r)); Stays(w, s, events, r) <==> LeftAlone(w, s, events, r)
  {
    DenyingKeepsNone(w, m.records, r);
    hide MayFree, Stays, LeftAlone, NobodySays, Played;
    WordlessRun(w, Next(w, m, MakeSend(r)), events, r);
  }

  /** Taking a delivery gives the recipient nothing to let it go for: the sender is noted as
      holding it in a vault, and what was known of it besides stands. */
  lemma SenderIsNoCopy(w: World, s: State, r: DeviceId)
    requires Enabled(w, s, Commit(r))
    ensures MayFree(w, RecordsOf(Next(w, s, Commit(r)), r)) <==> MayFree(w, RecordsOf(s, r))
  {
    var a, b := RecordsOf(s, r), RecordsOf(Next(w, s, Commit(r)), r);
    if d :| d in a && !a[d] && d !in w.phones { assert !b[d]; }
    if d :| d in b && !b[d] && d !in w.phones { assert d in a && !a[d]; }
  }

  // ----- each kind of word can lose one

  lemma {:induction false} PlayOneMore(w: World, s: State, events: seq<Event>, e: Event)
    requires Played(w, s, events).Some? && Enabled(w, Played(w, s, events).value, e)
    ensures Played(w, s, events + [e]) == Some(Next(w, Played(w, s, events).value, e))
    decreases |events|
  {
    hide Enabled, Next;
    if events == [] {
      assert events + [e] == [e] && [e][1..] == [];
    } else {
      assert (events + [e])[1..] == events[1..] + [e];
      PlayOneMore(w, Next(w, s, events[0]), events[1..], e);
    }
  }

  /** Two devices of one person, neither a phone, with folders of their own. */
  function TwoOf(me: DeviceId): World { World(me, {}, {}, {}, {}, false) }

  /** A shared file, sent for the first time to a device of the same person and collected:
      the sender takes the device for one it can ask. */
  lemma SharedSendIsCollected(w: World, s: State, r: DeviceId) returns (events: seq<Event>, t: State)
    requires s.intact && s.place.Here? && r !in w.others
    ensures events == [MakeSend(r), Commit(r), Confirm(r)] && Played(w, s, events) == Some(t)
    ensures t == s.(sends := s.sends[r := Send(true, true, InPlace)], records := t.records, theirs := t.theirs)
    ensures r in t.records && !t.records[r]
  {
    var s1 := Next(w, s, MakeSend(r));
    var s2 := Next(w, s1, Commit(r));
    t := Next(w, s2, Confirm(r));
    assert t.sends == s.sends[r := Send(true, true, InPlace)];
    assert Enabled(w, s, MakeSend(r)) && Enabled(w, s1, Commit(r)) && Enabled(w, s2, Confirm(r));
    hide Enabled, Next;
    assert Played(w, s, []) == Some(s);
    PlayOneMore(w, s, [], MakeSend(r));
    PlayOneMore(w, s, [MakeSend(r)], Commit(r));
    PlayOneMore(w, s, [MakeSend(r), Commit(r)], Confirm(r));
    assert [MakeSend(r), Commit(r)] + [Confirm(r)] == [MakeSend(r), Commit(r), Confirm(r)];
    assert [MakeSend(r)] + [Commit(r)] == [MakeSend(r), Commit(r)] && [] + [MakeSend(r)] == [MakeSend(r)];
    events := [MakeSend(r), Commit(r), Confirm(r)];
  }

  function SharedFile(): State { State(true, Here, map[], map[], map[]) }

  /** A shared file sent to two devices that are not shown it: the first to collect it
      counts, though it has it only for itself, as a device the sender can ask; the sender
      frees the file for that; and the second has nothing to collect. No device was heard
      of from elsewhere. */
  lemma SecondRecipientIsLeft(me: DeviceId, r: DeviceId, q: DeviceId) returns (events: seq<Event>, t: State)
    requires r != q
    ensures Played(TwoOf(me), SharedFile(), events) == Some(t)
    ensures forall e | e in events :: !e.Learn? && !e.LearnAt? && !e.Spoil? && !e.Cancel?
    ensures q in t.sends && t.sends[q].live && t.sends[q].copy.Waiting? && !Readable(t, q)
  {
    var w := TwoOf(me);
    var three, m := SharedSendIsCollected(w, SharedFile(), r);
    PlayOneMore(w, SharedFile(), three, MakeSend(q));
    var n := Next(w, m, MakeSend(q));
    assert r in n.records && !n.records[r];
    PlayOneMore(w, SharedFile(), three + [MakeSend(q)], Free);
    t := Next(w, n, Free);
    events := three + [MakeSend(q)] + [Free];
  }

  /** And sent to such a device again, after its person did away with it: recorded as having
      it, the send counts as collected, and its file is read no more, intact as it is. */
  lemma SentAgainIsForgotten(me: DeviceId, r: DeviceId) returns (events: seq<Event>, t: State)
    ensures Played(TwoOf(me), SharedFile(), events) == Some(t)
    ensures forall e | e in events :: !e.Learn? && !e.LearnAt? && !e.Spoil? && !e.Cancel?
    ensures t.intact && r in t.sends && t.sends[r].live && t.sends[r].copy.Waiting? && !Kept(TwoOf(me), t, r)
  {
    var w := TwoOf(me);
    var three, m := SharedSendIsCollected(w, SharedFile(), r);
    PlayOneMore(w, SharedFile(), three, Delete(r));
    var n := Next(w, m, Delete(r));
    PlayOneMore(w, SharedFile(), three + [Delete(r)], MakeSend(r));
    var o := Next(w, n, MakeSend(r));
    PlayOneMore(w, SharedFile(), three + [Delete(r)] + [MakeSend(r)], Tidy(r));
    t := Next(w, o, Tidy(r));
    events := three + [Delete(r)] + [MakeSend(r)] + [Tidy(r)];
  }

  /** Two that are shown each other's files can each let go for the other: the recipient, that
      has heard of the sender's shared file, and the sender, that has heard of the
      recipient. Neither can read it then. */
  lemma EachForTheOther(me: DeviceId, r: DeviceId) returns (events: seq<Event>, t: State)
    ensures var w := TwoOf(me).(filed := {r}, seers := {r});
      && Played(w, SharedFile(), events) == Some(t)
      && r in t.sends && t.sends[r].copy.LetGo? && !Readable(t, r)
    ensures forall e | e in events :: !e.Spoil? && !e.Cancel? && !e.Delete?
  {
    var w, heard := TwoOf(me).(filed := {r}, seers := {r}), LearnAt(r, me, false);
    hide Played, MayAsk, IsDone, IsPrivate;
    var three, m := SharedSendIsCollected(w, SharedFile(), r);
    PlayOneMore(w, SharedFile(), three, heard);
    var n := Next(w, m, heard);
    assert me in RecordsOf(n, r) && !RecordsOf(n, r)[me];
    PlayOneMore(w, SharedFile(), three + [heard], Free);
    var o := Next(w, n, Free);
    PlayOneMore(w, SharedFile(), three + [heard] + [Free], Evict(r));
    t := Next(w, o, Evict(r));
    events := three + [heard] + [Free] + [Evict(r)];
  }
}
