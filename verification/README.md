# qurb: a verified model of the sync engine and its companions

qurb keeps a folder the same on several devices, hands files from one person to
another, and holds files for people whose devices are away. This project models the
parts of it that decide what happens to somebody's files, and proves what those parts
are for: two devices planning against each other end with the same tree, a plan is
carried out with every action accounted for, a file sent to somebody can be read at one
end for as long as it is left alone until collected and nobody's word for another copy is
relied on, an incremental scan means what a full one means, and so on.

The code that works by changing things is modelled by classes and loops (`Folder`,
`Device`, `Directory`, `Store`, `Machine`, `Tree`, and the encoder, decoder, parsers and
worklists). Each method is proved against a function of the state before it; the
properties are lemmas about those functions, over every input, run or schedule.

| file | what it is about |
|---|---|
| `Paths`, `Text`, `Seqs`, `Wrappers` | what lies beneath what; shared vocabulary |
| `Versions`, `Names`, `TreePlan` | version vectors; conflict and delivery names; the per-path planner, and two devices using it |
| `Sharing`, `Planning`, `HeldFiles` | sharing rules; planning with any kind of peer; files kept for another person |
| `Roles`, `Ignore` | what a replica holds; names no device may send |
| `Engine`, `PlanOrder`, `PlanApply`, `PruneParents` | taking one version; the order of a plan and carrying it out; clearing empty directories |
| `PeerRuns` | what runs of syncs, planned and carried out as above, can do to the shared area |
| `Downloads`, `VaultDelivery` | a delivery put in Downloads, stopped anywhere; a send as a protocol of its sender and its recipients, with both ends' storage caps |
| `FolderSync`, `StoreMany` | full and incremental scanning; storing on several workers |
| `StorageCap`, `Repair` | keeping under a limit; putting damaged content right |
| `KeyVault` | one key kept in one of four ways |
| `Base32`, `RangeServing`, `Exif`, `OwnerFolders` | codes people type; byte ranges of a file; thumbnails; one folder for a device and its earlier selves |

The standards followed are RFC 4648 (sections 3.5 and 6) for base32, RFC 9110 (section
14.1.2) for ranges, section B.1.1.4 of ITU-T T.81 for marker segments and section 2 of
TIFF 6.0 for image file directories.

## Where the code and what it is said to do part

Each of these is a lemma below, with either the exact condition under which the code does
what it should, or an input on which it does not.

- A name that begins with a character of more than one byte, as `ü.txt` does, is one
  `crates/sync/src/path.rs:37` lets in; but no other name can be made up beside it, and the
  program stops where it tries. A delivery of that name never arrives in Downloads, though
  nothing is in its way; a conflict on one leaves the whole tree without a plan; and a
  plan being carried out goes no further than such a delivery (`Names`, `Downloads`,
  `TreePlan`, `PlanApply`).
- Two devices agree after one exchange exactly when every conflict's copy can be given a
  name and every two concurrent versions of a path settle; two versions with one vector
  that differ never do (`TreePlan`).
- The name of a conflict copy reads back to what it was a copy of, unless the file's
  extension is itself a conflict mark: a copy of an extensionless copy is misread (`Names`).
- Two sharing rules that nest do not both apply, as `crates/storage/src/store.rs:2077-2084`
  says: only the outermost is asked. A device left out of an inner folder can therefore put
  a rule on the folder around it and reach the inner one (`Sharing`, `PeerRuns`).
- A replica publishes what is sent to it alone: the delivery becomes a shared file. Another
  person's device can add rows to the shared area in that way, and one left out of a folder
  rows to the folder, and in no other (`Engine`, `PeerRuns`).
- A conflict's copy is written over whatever already has its name, and the last copy of a
  name over the others; two devices can part over it (`TreePlan`).
- A removed path takes with it live paths that differ from it in case, since the index is
  searched without regard to case: those in the folder, and those the same sorted batch
  stored just before (`FolderSync`).
- Where no worker could open the store, the entries not stored are not listed as failures
  (`StoreMany`).
- A list that names one kept file more than once can drop a version newer than the deletion
  (`HeldFiles`).
- The collision test compares ASCII letters only, as `crates/storage/src/db.rs:5008-5011`
  says: on a disk that folds `Ü` to `ü` as well, a shared file is written over by another
  (`Engine`).
- A private file is written over by a shared file of another name the disk takes for its
  own, and a deletion removes such a file (`Engine`).
- Of two files sent here under one name, already taken, by one device in one second, the
  second is written over the first, although `crates/engine/src/peer.rs:673-677` says that
  neither may be (`Engine`).
- A delivery to the folder stopped once its bytes are in place, and before the index is
  told, is made everybody's by the next scan (`Engine`).
- A file longer on disk than the index says makes the storage cap stop early (`StorageCap`).
- Repair writes the indexed version over an edit not yet scanned, and over a private file
  of the same name; a deleted file with such a namesake is counted as restored (`Repair`).
- A second recipient of a shared file can be left without it, because the first, once it has
  collected, is taken for a device that can be asked; a file sent again to a device that
  once had it can be forgotten before it is collected; and two devices shown each other's
  files can each let go of theirs for the other's (`VaultDelivery`).
- A range whose last position needs more than 64 bits is refused, and so is one whose unit
  is not in lower case or whose list begins with an empty item; a position with a plus sign
  is taken (`RangeServing`).
- Pins that are all blank hold everything (`Roles`).
- Two devices recorded as replacing each other are in no folder (`OwnerFolders`).

## Model

| member | source | states |
|---|---|---|
| Paths.UnderIsComponentPrefix | crates/engine/src/role.rs:44-52 | a path is under a prefix exactly when the prefix's components begin the path's, so `photos` does not cover `photos2` |
| Paths.UnderTransitive | crates/sync/src/sharing.rs:97-105 | what is under something under a folder is under the folder |
| Base32.LetterIsTheAlphabets | crates/peer/src/base32.rs:13-30 | the letter for each value is the one the RFC's table gives |
| Base32.ByteIn | crates/peer/src/base32.rs:13-30 | shifting a byte into the 16-bit buffer, overflow and all, keeps the bits not yet read and adds the byte's eight |
| Base32.LetterIn | crates/peer/src/base32.rs:32-61 | the same for the five bits of a letter, with up to seven waiting |
| Base32.LastLetter | crates/peer/src/base32.rs:13-30 | the last letter is the bits left over with zero bits after them |
| Base32.Encode | crates/peer/src/base32.rs:13-30 | the loop writes the input's bits in order, five to a letter, zero bits making up the last |
| Base32.Decode | crates/peer/src/base32.rs:32-61 | for all texts and bytes: those bytes are the answer exactly when the text, dashes and spaces removed and letters in upper case, is their encoding; anything else is refused |
| Base32.EncodingIsInjective | crates/peer/src/base32.rs:13-30 | no two byte strings share a code |
| Base32.RetypedCodeIsTheCode | crates/peer/src/base32.rs:8-9 | typing a code with separators put in and in any case, and nothing else, tidies to that code |
| Base32.ShortenedCodeIsNotTheSecret | crates/peer/src/base32.rs:56-59 | a code cut short, if it decodes at all, gives strictly fewer bytes, a prefix of the secret's |
| RangeServing.ServeStarts | crates/desktop/src/stream.rs:95-104 | the list has where each chunk begins in the whole file, then the file's size |
| RangeServing.FileSlices | crates/desktop/src/stream.rs:95-104 | the file between two neighbouring starts is that chunk, empty chunks included |
| RangeServing.FirstChunk | crates/desktop/src/stream.rs:252-255 | the search lands on a chunk that begins at or before the position, and ends after it where no chunk begins exactly there |
| RangeServing.WriteRange | crates/desktop/src/stream.rs:252-276 | what is written is exactly the slice of the file asked for, and a prefix of it if the folder locks, a chunk cannot be read or the reader hangs up part-way |
| RangeServing.Answer | crates/desktop/src/stream.rs:220-277 | which status, which length in the head and which body; the body of an undisturbed GET has the length the head promises |
| RangeServing.ParseRange | crates/desktop/src/stream.rs:281-293 | any range served is not empty and inside the file |
| RangeServing.RangeIsTheOneNamed | crates/desktop/src/stream.rs:281-293 | every form of range the RFC has, after the unit in lower case and first in the list, blanks and further ranges round it, is read as the range the RFC names, exactly when its positions fit in 64 bits or it names none |
| RangeServing.ServedExactly | crates/desktop/src/stream.rs:281-293 | of all headers: which are served and as what range -- the unit in lower case, the first item one of the forms but for blanks and plus signs, its positions within 64 bits -- and everything else is refused |
| RangeServing.HugeLastPositionIsRefused | crates/desktop/src/stream.rs:281-293 | any range from inside the file to a position past 64 bits is refused, where the RFC means the rest of the file |
| RangeServing.SignedFirstPositionIsTaken | crates/desktop/src/stream.rs:281-293 | `+5-` is served, a form no valid range has |
| Exif.ThumbnailIn | crates/desktop/src/commands.rs:1774-1805 | for any bytes: the answer is the thumbnail the second directory gives, where every entry can be read, the last entry of each tag counts and the slice begins FF D8; none exactly when there is none |
| Exif.ExifThumbnail | crates/desktop/src/commands.rs:1749-1770 | for any bytes: the answer is the file's thumbnail, and none only if it has none |
| Exif.FindsExif | crates/desktop/src/commands.rs:1753-1769 | after any run of segments that are not it, the EXIF block is found |
| Exif.FoundIsExif | crates/desktop/src/commands.rs:1753-1769 | and what is found is a block after such a run |
| Exif.OnlyExif | crates/desktop/src/commands.rs:1753-1769 | the file's thumbnail is its first EXIF block's and no other's |
| Exif.NoExif | crates/desktop/src/commands.rs:1753-1769 | a file where the walk finds no block has no thumbnail |
| Exif.OneThumbnail | crates/desktop/src/commands.rs:1749-1770 | a file has at most one thumbnail |
| Exif.OneThumbnailIn | crates/desktop/src/commands.rs:1774-1805 | a block has at most one |
| Exif.EntryReads | crates/desktop/src/commands.rs:1780-1787 | an entry written in either byte order reads back |
| Exif.DirectoryReads | crates/desktop/src/commands.rs:1788-1800 | a directory written in either byte order reads back, with the link to the next |
| Exif.TiffReads | crates/desktop/src/commands.rs:1774-1800 | in a block of two directories the parser finds the second, its entries and the bytes behind them |
| Exif.TiffHasThumbnail | crates/desktop/src/commands.rs:1774-1805 | a block whose second directory points at a JPEG has that JPEG for its thumbnail, wherever among the entries the two tags are |
| Exif.CameraJpegHasThumbnail | crates/desktop/src/commands.rs:1749-1805 | every JPEG of any run of other segments and then such a block has that thumbnail |
| OwnerFolders.EarlierSelves | crates/desktop/src/commands.rs:1908-1919 | the worklist ends, and has found every device whose replacements lead to the root, each once, and no other |
| OwnerFolders.FoundBehind | crates/desktop/src/commands.rs:1911-1917 | one turn of the worklist finds only such devices, and either shortens the list or finds one more |
| OwnerFolders.LatestFirstSorts | crates/desktop/src/commands.rs:1919 | the order is a permutation, the latest paired first |
| OwnerFolders.CandidatesDiffer | crates/desktop/src/commands.rs:1921-1926 | no two names tried are the same, so the renaming ends |
| OwnerFolders.FreeName | crates/desktop/src/commands.rs:1921-1926 | the name is no other folder's and is the first of the candidates of which that is so |
| OwnerFolders.FolderIds | crates/desktop/src/commands.rs:1909-1920 | a folder has the root's identity, then those of its earlier selves, the latest first |
| OwnerFolders.OwnerFolders | crates/desktop/src/commands.rs:1903-1930 | one folder for each root in the order listed, each named by the first candidate for that root no earlier folder has, no two of one name |
| OwnerFolders.InExactlyOneFolder | crates/desktop/src/commands.rs:1903-1930 | a device is in a folder exactly when its chain of replacements ends, and never in two |
| OwnerFolders.EveryChainEnds | crates/desktop/src/commands.rs:2948-2957 | where each device is replaced only by one paired later, every chain ends |
| OwnerFolders.TwoThatReplaceEachOther | crates/desktop/src/commands.rs:1903-1930 | two devices that replace each other have no end to their chain, and so no folder |
| KeyVault.Unhex | crates/keys/src/protection.rs:319-328 | the loop gives a key exactly when the text is 64 digits, of either case, that read as it |
| KeyVault.HexReadsBack | crates/keys/src/protection.rs:315-328 | a key written in hexadecimal reads back |
| KeyVault.UnwrapWrapped | crates/keys/src/protection.rs:239-297 | a wrapped key comes back whole under its passphrase; under any other, it comes back whole or the passphrase is called wrong |
| KeyVault.Machine.WriteWith | crates/keys/src/vault.rs:250-301 | the key file and both stores after a write are those of the specification; a refused write leaves them alone |
| KeyVault.Machine.Protect | crates/keys/src/vault.rs:167-186 | the same for changing how the key is kept |
| KeyVault.Machine.OpenOrCreate | crates/keys/src/vault.rs:102-115 | the same for opening, or making a key where there is none |
| KeyVault.Machine.RestoreWith | crates/keys/src/vault.rs:210-228 | the same for installing a recovered key |
| KeyVault.WrittenIsThere | crates/keys/src/vault.rs:250-301 | after a write the key is in the one place the file's format names, and nowhere else of the vault's |
| KeyVault.UnlockGivesTheKey | crates/keys/src/vault.rs:117-150 | unlocking can give only the key kept, and does so exactly when its way of keeping it is to be had and the passphrase opens it; the right passphrase does |
| KeyVault.CallKeepsTheKey | crates/keys/src/vault.rs:102-228 | every call, taken or refused, leaves the one key in one place |
| KeyVault.InstalledIsKept | crates/keys/src/vault.rs:102-228 | a call that installs a key on a new vault leaves it in one place |
| KeyVault.ProtectKeepsOnce | crates/keys/src/vault.rs:167-186 | moving the key to another way of keeping it leaves it there only, under the new passphrase |
| KeyVault.KeyIsKept | crates/keys/src/vault.rs:102-228 | once a key is kept, any further calls, each with whichever stores can be reached while it is made, leave that key, under the last passphrase a call that was taken gave |
| KeyVault.OneKeyForLife | crates/keys/src/vault.rs:102-228 | from nothing, after any run of such calls: nothing until one installs a key, and from then on that key for life, in one place, under the last passphrase given |
| KeyVault.FirstKeyIsTheKey | crates/keys/src/vault.rs:102-150 | the key given out when it was made is the one every later unlock gives, whatever was called between and whatever stores came and went; where both can be reached, the last passphrase given unlocks it |
| KeyVault.OtherVaultsUntouched | crates/keys/src/protection.rs:139-205 | no call on one vault changes what another unlocks to |
| KeyVault.UnlockAlike | crates/keys/src/vault.rs:117-150 | unlocking looks only at the vault's own file and entries |
| Versions.Compare | crates/sync/src/clock.rs:99-122 | the loop tells before, after, equal and concurrent by who knows of what |
| Versions.MergedIsJoin | crates/sync/src/clock.rs:79-92 | merging gives the least vector that has seen both, whichever is merged into which |
| Versions.MergedIsAfter | crates/sync/src/clock.rs:79-122 | it is after each of two concurrent vectors, so a conflict does not come back |
| Names.CivilFromDays | crates/sync/src/resolve.rs:260-271 | every day, before 1970 too, has a month from 1 to 12 and a day from 1 to 31 |
| Names.DaysFollowTheCalendar | crates/sync/src/resolve.rs:260-271 | day nought is the first of January 1970, and the date of each next day is the next in the calendar, for all days |
| Names.DecoratedStaysBeside | crates/sync/src/resolve.rs:206-236 | a name is made up exactly where the one it is made of begins with a character of one byte; it is in the same directory, and longer |
| Names.CopyHasMark | crates/sync/src/resolve.rs:139-142 | the last component of a conflict copy's name, where one is made, carries the mark |
| Names.CopyNameReadsBack | crates/sync/src/resolve.rs:139-192 | a copy has a name, and it reads back to the path, device and time it came from, exactly when the file's name begins with a character of one byte and its extension is not itself a mark (or is that very mark) |
| Names.UmlautCannot | crates/sync/src/resolve.rs:219-236 | `ü.txt` is no name to make another of |
| TreePlan.Reconcile | crates/sync/src/reconcile.rs:84-148 | the merge of two lists gives the plan: for each path either side has, in order, the decision on it; and none at all if a conflict is on a path of which no copy's name can be made |
| TreePlan.SyncedAt | crates/sync/src/reconcile.rs:84-148 | every row after a sync, of any two trees: as it was if there is no plan; otherwise the last copy of that name in path order, and on top of it what the path's own decision writes, if it comes later |
| TreePlan.SyncedFree | crates/sync/src/reconcile.rs:84-148 | where no copy takes a name in use or another copy's: at each path what was decided, each conflict's copy at its name, and nothing else |
| TreePlan.OutcomesAgree | crates/sync/src/resolve.rs:68-137 | both sides decide alike about a path exactly when the two versions settle |
| TreePlan.TwoDevicesConverge | crates/sync/src/resolve.rs:68-137 | where no copy takes a name in use or another copy's: each planning against the other's tree as it was, the two end equal exactly when every conflict can be given a copy's name and all their versions settle |
| TreePlan.TwoDevicesConvergeExactly | crates/sync/src/resolve.rs:68-137 | for any two trees whose hashes tell contents apart: they end equal exactly when every conflict can be given a copy's name and each path meets -- its versions settle or a copy comes last; and where a copy comes first, neither side adopts another version over it |
| TreePlan.StopsForBoth | crates/sync/src/resolve.rs:219-236 | one side stops exactly if the other does, and then neither moves and they differ |
| TreePlan.UmlautStops | crates/sync/src/resolve.rs:219-236 | two concurrent edits of `ü.txt` leave any two trees without a plan |
| TreePlan.NothingLeftToDo | crates/sync/src/reconcile.rs:84-148 | any two trees that end equal have nothing left to plan |
| TreePlan.InTurnTheyConverge | crates/sync/src/reconcile.rs:84-148 | where no copy is named after a file of the second device: one after the other, they end equal exactly when every conflict can be given a copy's name and versions with one vector are one version |
| TreePlan.TakenNameStaysExactly | crates/sync/src/resolve.rs:139-142 | for any two trees: a row only this side has is as it was after the sync exactly when there is no plan, no copy has its name, or the last in path order that has is that very version |
| Sharing.RuleFolder | crates/sync/src/sharing.rs:37-46 | a rule is read only from the rules' directory, and only of a valid folder |
| Sharing.EscapeReadsBack | crates/sync/src/sharing.rs:27-46 | escaping a folder's name leaves no slash and reads back |
| Sharing.RuleNamesItsFolder | crates/sync/src/sharing.rs:27-46 | a valid folder's rule file reads back to it exactly when its name is not taken for a conflict copy's |
| Sharing.ReplaceKeepsMark | crates/sync/src/sharing.rs:37-46 | unescaping does not hide that a file is a conflict copy |
| Sharing.Covering | crates/sync/src/sharing.rs:97-105 | the covering folder has a rule, holds the path, and is the shortest that does |
| Sharing.EveryRuleApplies | crates/sync/src/sharing.rs:97-113 | asking the covering rule is asking all the rules over a path, for all paths and devices, exactly when no rule lets in a device that a rule within it leaves out |
| Planning.SharedWithLeavesOut | crates/engine/src/peer.rs:352-380 | what is planned with is the list without the entries the rules leave out, where the rules are not consulted too |
| Planning.PlanIgnoresLeftOut | crates/engine/src/peer.rs:303-380 | planning with a list is planning with it once those entries are taken away, the private parts of the plan included |
| Planning.WhereFrom | crates/engine/src/peer.rs:266-337 | every action of a plan is a keeping, a restoring, a private adoption, a wanted row or a decision on a path |
| Planning.CopyStaysOut | crates/sync/src/resolve.rs:139-142 | a conflict copy lands in a closed folder, or as its rule, only beside what is there |
| Planning.RuleStands | crates/storage/src/store.rs:2059-2086 | a folder's rule depends on its own rule files and nothing else |
| Planning.PlanSpares | crates/engine/src/peer.rs:303-380 | no action of a plan made with a list from a device left out of a folder at the top writes a shared version there, or to its rule, other than the one already here |
| Planning.PrivateAdopts | crates/engine/src/peer.rs:303-337 | what a plan adopts from outside the shared area is a delivery or, from a device of the same person only, a file of this device's own vault fetched back |
| Planning.UntakenOnly | crates/engine/src/peer.rs:458-470 | deliveries are files of the list that were not taken before |
| Planning.OtherPersonsPlan | crates/engine/src/peer.rs:303-337 | whatever another person's device lists, the plan only offers, takes deliveries not taken before, and, for a guest, keeps entries under that guest's person |
| HeldFiles.HoldsForOwner | crates/engine/src/peer.rs:387-409 | all keeping is for the list's own owner, from that list, and needed |
| HeldFiles.SyncKeeps | crates/engine/src/peer.rs:974-1005 | a sync that does not speak of a kept file leaves its row whole; one that drops it had its owner's deletion, not before the row |
| HeldFiles.KeptUntilItsOwnerSays | crates/engine/src/peer.rs:387-409 | over any run of syncs with anyone, a kept file goes only on such a deletion, and without a word about it does not change |
| HeldFiles.DroppedAsWeighed | crates/engine/src/peer.rs:974-1005 | where a list says one thing of each file, the row a deletion falls on is the one it was weighed against |
| HeldFiles.RowsAreFromWords | crates/engine/src/peer.rs:974-1005 | actions carried out additions first, each done or not: until a deletion falls a kept row is still there, and it is the one before the sync, or that of a version whose bytes are not those kept or differ from those of one before it |
| HeldFiles.NewerFallsExactly | crates/engine/src/peer.rs:387-409 | a planned deletion can fall on a row newer than itself, the plan carried out in its order and each action done or failed, exactly when this device wants the path, may write it, and the plan has for it a version after the deletion whose bytes are not those kept, or not those of a version planned before it |
| HeldFiles.TwoWordsDropTheNewer | crates/engine/src/peer.rs:387-409 | where it says two, a row newer than the deletion can go: an instance |
| FolderSync.KeepFirst | crates/engine/src/lib.rs:292-309 | of names with one logical path the first listed is kept, the others counted |
| FolderSync.Folder.PutFile | crates/storage/src/store.rs:655-686 | the row after a file is read, and what is counted: stored, the same, or failed |
| FolderSync.Folder.DeleteFile | crates/storage/src/store.rs:1258-1273 | a live row becomes a tombstone; a missing one is not found; a fault changes nothing |
| FolderSync.Folder.StoreAll | crates/engine/src/lib.rs:571-583 | every file is put, whatever became of the ones before |
| FolderSync.Folder.LookThrough | crates/engine/src/lib.rs:323-332 | which files have to be read, which are trusted and which refused |
| FolderSync.Folder.SweepVanished | crates/engine/src/lib.rs:338-363 | exactly the paths expected in the folder and not found get tombstones, but for those that fail, and both are counted |
| FolderSync.Folder.Reconcile | crates/engine/src/lib.rs:266-367 | after a full scan every path stands as its verdict says, with every file and failure counted; on a replica nothing happens |
| FolderSync.PutsAreTallied | crates/engine/src/lib.rs:571-583 | what storing counts is how many files had each verdict before it began |
| FolderSync.TalliesAddUp | crates/engine/src/lib.rs:323-332 | every file has exactly one verdict |
| FolderSync.OnlyTheVanishedDie | crates/engine/src/lib.rs:266-367 | a live path dies exactly when it was expected, was not found and could be deleted: no failed, skipped or evicted one does |
| FolderSync.SecondRunIsIdle | crates/engine/src/lib.rs:266-367 | after a run without failures, a second on the same disk, whatever fails in it, changes no row, stores nothing and deletes nothing |
| FolderSync.Folder.ApplyRemoval | crates/engine/src/lib.rs:670-689 | for any faults: the rows the removal matches get tombstones in the order of their paths up to the first that cannot be deleted, and no other row changes; they are counted, or that first one is the error |
| FolderSync.Folder.StoreIfChanged | crates/engine/src/lib.rs:632-662 | the index after one changed file, and what is counted |
| FolderSync.Folder.Apply | crates/engine/src/lib.rs:482-515 | for any faults: the index, the marks and the counts after a batch, change by change |
| FolderSync.ApplyRefinesReconcile | crates/engine/src/lib.rs:482-515 | from an index that is honest about this disk, a batch gives the index of a full scan exactly when its last word on each file is to store it (or it says nothing of a file indexed as it is) and it removes all that vanished: in any order, with any repeats |
| FolderSync.CoveringBatchTells | crates/engine/src/lib.rs:482-515 | which is so of every batch that names each new or changed file and each vanished path, with nothing left at or under what it removes |
| FolderSync.RemovalReach | crates/storage/src/db.rs:3041-3070 | a removal takes exactly what lies at or under its path, if and only if no path in the folder begins with that path spelled in another case and then a slash |
| FolderSync.OtherCaseIsFelled | crates/storage/src/db.rs:3041-3070 | removing `photos` takes `Photos/a`, which is there |
| FolderSync.DirectoryFirst | crates/watcher/src/debounce.rs:104-125 | in a batch the watcher emits, sorted and naming no path twice, no change to a directory comes after one to what is in it |
| FolderSync.BatchKeepsWhatItStores | crates/engine/src/lib.rs:482-515 | what such a batch stores is there when it ends, exactly unless a later removal in it matches the file without the file being under it: in another case only |
| FolderSync.CopyInOtherCaseIsFelled | crates/engine/src/lib.rs:482-515 | a sorted batch that stores `P/a` and then removes `p` leaves no live `P/a` |
| StoreMany.StepKeeps | crates/engine/src/lib.rs:571-630 | each step of any worker conserves the entries: each is queued, in one hand, or put once; the index and the counts are those of what was put |
| StoreMany.RunKeeps | crates/engine/src/lib.rs:571-630 | so does every run |
| StoreMany.EveryScheduleIsOneWorker | crates/engine/src/lib.rs:571-630 | every finished schedule of any number of workers, one at least having opened the store, puts each entry once and leaves the rows, the marks and the counts of one worker, and a failure for each that could not open |
| StoreMany.SameMarks | crates/storage/src/store.rs:655-660 | the order entries are put in makes no difference to which files are marked too recent to trust |
| StoreMany.NobodyOpened | crates/engine/src/lib.rs:571-630 | where none could, no row and no mark changes, and the failures counted are one a worker, none an entry |
| StoreMany.RunsEnd | crates/engine/src/lib.rs:571-630 | a run has at most two steps for each entry and worker |
| StoreMany.NeverStuck | crates/engine/src/lib.rs:571-630 | until all have finished some step can be taken |
| Ignore.StagingIsRefused | crates/engine/src/peer.rs:665-669 | a path whose last component ends as staging files do is refused, whatever the rules |
| Ignore.LetThroughIsNotStaging | crates/watcher/src/ignore.rs:19-118 | a version let through has no staging file's name, and neither has the name made up for it when its own is taken |
| Ignore.UmlautIsTaken | crates/sync/src/path.rs:37-42 | `ü.txt` is refused by no rule |
| Downloads.Directory.FindPlace | crates/engine/src/peer.rs:1034-1052 | the first of the two names that is free or has these very bytes; nothing, the program stopping, if the second cannot be made up |
| Downloads.Directory.TakeIntoDownloads | crates/engine/src/peer.rs:1014-1076 | the directory and the records after an attempt stopped at any step |
| Downloads.Directory.TakenIntoDownloads | crates/engine/src/peer.rs:1078-1099 | the record is made before the sender is told, and the first record stands |
| Downloads.AttemptKeeps | crates/engine/src/peer.rs:1014-1099 | every attempt at a file under names that are no staging file's, stopped anywhere, keeps old files, the origin of new ones and the truth of the records |
| Downloads.OneFileASend | crates/engine/src/peer.rs:1034-1052 | no send makes two files |
| Downloads.DownloadsSurviveStops | crates/engine/src/peer.rs:1014-1099 | over any attempts at any sends from devices, refused names among them, stopped anywhere: no file that was there changes, each new file is a send's bytes under one of its names, no more of them than sends, what was recorded is in place, and no sender was told of what is not recorded |
| Downloads.DeliveryArrives | crates/engine/src/peer.rs:1014-1099 | a send not taken before, after any number of attempts cut short and one that is not, is in place, recorded and confirmed exactly when its name is not refused, begins with a character of one byte, and other things are not at both it and the name made of it; otherwise nothing happens; at most one file is new |
| Downloads.OpenIs | crates/engine/src/peer.rs:1034-1052 | there is a place for a delivery exactly when a second name can be made up and not both are other things' |
| Downloads.UmlautNeverArrives | crates/engine/src/peer.rs:1034-1052 | a delivery called `ü.txt`, let in and both names free, leaves an empty Downloads empty after any number of attempts |
| Downloads.TakenIsNotOffered | crates/engine/src/peer.rs:458-470 | a send recorded is offered by no list again |
| Roles.PrefixesKept | crates/engine/src/role.rs:31-38 | the prefixes kept are those given, without trailing slashes, blank ones left out |
| Roles.ReplicaHolds | crates/engine/src/role.rs:21-98 | a replica holds a path exactly when it is under one of its pins by whole components, or all its pins are blank |
| Engine.BringInIs | crates/engine/src/peer.rs:1153-1175 | the source is asked only for content this device cannot produce, and nothing else changes |
| Engine.EvidenceIs | crates/engine/src/peer.rs:773-784 | another device's version is noted as a copy it has, one it sent as a vault delivery it may let go of, and nothing of this device's own is noted |
| Engine.PlacedIs | crates/engine/src/peer.rs:911-962 | a file put in place is readable, is confirmed, and touches its own name only |
| Engine.KnowElsewhereIs | crates/engine/src/peer.rs:840-897 | a file known to be kept elsewhere is recorded without fetching or telling |
| Engine.IntoFolderIs | crates/engine/src/peer.rs:836-966 | taking a file into the folder touches its own name only, asks no more than it must and tells the source only of what is here |
| Engine.ByReplicaIs | crates/engine/src/peer.rs:817-834 | the same for a replica, which writes no file |
| Engine.FileIs | crates/engine/src/peer.rs:758-966 | the same for taking any file, whatever it runs into |
| Engine.DeliveryIs | crates/engine/src/peer.rs:1014-1075 | taking a delivery into Downloads leaves folder, rows and evidence alone |
| Engine.TombstoneIs | crates/engine/src/peer.rs:708-756 | taking a deletion touches its own name only, and no file on a replica |
| Engine.TakingIsProper | crates/engine/src/peer.rs:654-966 | whatever the version, the state and the source: only the version's own name or the one it is filed under changes, what is kept for others stays, the source is asked only if it must be and told only of content now here |
| Engine.PrivateFileIsSafe | crates/engine/src/peer.rs:699-794 | no shared version, file or deletion, touches a private file whose name is its own, or differs on disk |
| Engine.SharedFileIsSafe | crates/engine/src/peer.rs:796-810 | on a device with a folder, whatever the disk takes for one name: no shared content of another name ever changes the file of a live shared one, in any state and from any source, exactly when every two names the disk takes for one, and the second could be written, differ in ASCII case only, and the disk was found to fold case |
| Engine.UnseenNameIsWrittenOver | crates/engine/src/peer.rs:796-810 | and for any two names it takes for one and the test for two, the first's file is written over |
| Engine.AccentIsNotSeen | crates/storage/src/db.rs:5005-5011 | `Ü.txt` and `ü.txt` are two such, on a disk that folds them |
| Engine.ContentIsWrittenExactly | crates/engine/src/peer.rs:758-962 | any version's content changes the file the disk has for a name exactly when it is let through and arrives in the folder -- the name it is filed under not held privately nor clashing, wanted here, writable, its bytes had or given -- the disk takes the two names for one, and other bytes are there |
| Engine.SecondSendIsWrittenOver | crates/engine/src/peer.rs:673-692 | a second send of one name, device and second, that name taken, is written over the first exactly when it arrives |
| Engine.StoppedDeliveryIsShared | crates/engine/src/peer.rs:911-945 | a delivery stopped between the move and the record is on disk as if taken and not recorded; the next scan files it in the shared area exactly when a live shared file has its name, or no private file has and the device does not keep new files private |
| Engine.DeletionRemovesExactly | crates/engine/src/peer.rs:708-756 | a deletion leaves the file the disk has for a name alone exactly when it takes the two for different names, no file is there, this device is a replica, the name is a private file's, the disk or the ignore rules refuse; and it moves no other name's row |
| Engine.DeliveryStaysPrivate | crates/engine/src/peer.rs:817-834 | taking a delivery leaves the shared rows alone exactly when the device is no replica or has a Downloads, the name is refused or clashes, is taken and none can be made of it, the bytes cannot be had, or the row it would write is there already |
| Engine.PrivateAreasAreOwn | crates/engine/src/peer.rs:836-966 | a syncing device changes no shared row for anything from outside the shared area |
| Engine.SharedRowsAfter | crates/engine/src/peer.rs:654-966 | a shared version changes no shared row but its own path's, and that one only to its own content and history |
| PlanOrder.OrderedIsPermutation | crates/engine/src/peer.rs:524-535 | reordering loses, doubles and adds no action the role wants |
| PlanOrder.PickedAre | crates/engine/src/peer.rs:524-535 | the two parts are the actions that delete and those that do not |
| PlanOrder.AdditionsFirst | crates/engine/src/peer.rs:524-535 | what is carried out is the additions in the order planned and then the deletions in theirs |
| PlanApply.EveryActionIsAccountedFor | crates/engine/src/peer.rs:516-651 | whatever fails and whenever the source goes, unless the program stops: the counts add up to the number of actions, and those left are exactly those that ask a source already gone |
| PlanApply.EveryHeadingIsRight | crates/engine/src/peer.rs:516-651 | and each count is the number of actions of its kind that were not left |
| PlanApply.HaltsExactly | crates/engine/src/peer.rs:516-651 | the program stops in a plan exactly if it comes to a delivery let in, of whose name no other can be made, where one is wanted: always for Downloads, in the folder if the name is taken; what was done before stands, and nothing else is done |
| PlanApply.PlansOnlyAdoptSends | crates/engine/src/peer.rs:303-337 | of a plan's actions only adoptions are of deliveries |
| PlanApply.TakingSpares | crates/engine/src/peer.rs:654-966 | taking a version of another name keeps content readable where it was, and does not ask for it |
| PlanApply.DoingSpares | crates/engine/src/peer.rs:536-640 | so does every action that writes another name |
| PlanApply.DeletingAsksNothing | crates/engine/src/peer.rs:233-241 | no deletion asks the source |
| PlanApply.RenamesAreFree | crates/engine/src/peer.rs:524-535 | content readable at the start from a file no addition of the plan writes, or from the chunk store, is not asked for in the whole run, though the plan deletes that file |
| PlanApply.Device.BringInto | crates/engine/src/peer.rs:1153-1175 | the step's new state; the source is asked only for content this device cannot produce |
| PlanApply.Device.TakeDeletion | crates/engine/src/peer.rs:708-756 | the new disk, trash and rows after another device's deletion |
| PlanApply.Device.Know | crates/engine/src/peer.rs:840-897 | the row and the evidence of a file kept elsewhere |
| PlanApply.Device.Remember | crates/engine/src/peer.rs:773-784 | the evidence noted |
| PlanApply.Device.TakeIntoFolder | crates/engine/src/peer.rs:836-966 | the whole new state, and how it ended |
| PlanApply.Device.Place | crates/engine/src/peer.rs:911-962 | the disk, the rows and what the source was told, once the file is in place |
| PlanApply.Device.TakeAsReplica | crates/engine/src/peer.rs:817-834 | the whole new state, and how it ended |
| PlanApply.Device.Deliver | crates/engine/src/peer.rs:1014-1099 | the same, for a delivery into Downloads |
| PlanApply.Device.Take | crates/engine/src/peer.rs:654-966 | the same, for any version: only its own name or the one it is filed under changes, and the source is told only of content now here |
| PlanApply.Device.TakeHold | crates/engine/src/peer.rs:974-1005 | the same, for a file kept for another person |
| PlanApply.Device.TakeBackRestored | crates/storage/src/store.rs:2836-2875 | the same, for a file its owner put back from Recently deleted |
| PlanApply.Device.Do | crates/engine/src/peer.rs:536-640 | the same, for any action |
| PlanApply.Device.ApplyPlan | crates/engine/src/peer.rs:516-651 | the device and the counts after a whole plan are those of running the reordered actions one by one, and nothing is reported if the program stops; the counts add up to the actions the role wants, and those left are those that asked a source already gone |
| PeerRuns.TakingHarmless | crates/engine/src/peer.rs:654-966 | taking a shared version that writes nothing of a folder, or only what is there, leaves the folder and its rule alone, however it ends |
| PeerRuns.ReplicaNeverHasVault | crates/engine/src/peer.rs:817-834 | no run of actions files anything in a replica's own vault |
| PeerRuns.LeftOutChangesNothing | crates/engine/src/peer.rs:303-380 | on a device that makes no delivery everybody's: over any run of syncs with a device left out of a folder at the top, whatever its lists, the plans carried out by the program's own steps, in any order and as far as may be, no row of the folder changes, nor does its rule |
| PeerRuns.SafeWhereSendsArePrivate | crates/engine/src/peer.rs:817-834 | given one name in the folder this device would take: over all such runs the folder's rows are safe from that device exactly when this device is no replica without a Downloads |
| PeerRuns.SendIsPublished | crates/engine/src/peer.rs:817-834 | on such a replica one sync with any device at all, its list one delivery, adds a shared row |
| PeerRuns.PublishedRow | crates/engine/src/peer.rs:817-834 | and the row is the delivery's, live, under the name it is filed under; no row changes if none can be made |
| PeerRuns.OtherPersonAddsOnlyDeliveries | crates/engine/src/peer.rs:303-337 | whatever another person's device lists and however the plan is carried out, a shared row that changed is that of a delivery listed, under its own or its made-up name, on such a replica |
| PeerRuns.OtherPersonChangesNothingShared | crates/engine/src/peer.rs:303-337 | given one name this device would take: a sync with another person's device leaves the shared rows as they were, whatever is listed and however it is carried out, exactly when this device is no such replica |
| PeerRuns.InnerFolderIsReached | crates/sync/src/sharing.rs:97-113 | for any inner folder under no other rule, two syncs with a device left out of it, carried out by the program's own steps, put any file of that device's in it: a rule for the folder around it, then the file |
| StorageCap.Device.ReleaseHeld | crates/storage/src/store.rs:3084-3101 | what goes, what it came to, and an error exactly when an item reached will not go |
| StorageCap.Device.EmptyTrashBy | crates/storage/src/store.rs:2934-2950 | the loop that stops early is the whole pass: what goes, and what is reported, or an error |
| StorageCap.Device.EvictOne | crates/storage/src/store.rs:3571-3636 | one copy goes and its length on disk is reported, or it stays and there is an error |
| StorageCap.Device.EvictUntil | crates/engine/src/lib.rs:458-474 | the loop that stops early is the whole pass: which copies go, how many would not, what is freed |
| StorageCap.Device.EnforceLimit | crates/engine/src/lib.rs:410-479 | the whole new disk and every figure reported, for any limit |
| StorageCap.ReleasedAre | crates/storage/src/store.rs:3084-3101 | a held item goes exactly when it may and nothing before it refuses to |
| StorageCap.EmptyingStops | crates/storage/src/store.rs:2934-2950 | emptying breaks off exactly when something that will not go is reached before enough has gone |
| StorageCap.EmptiedAre | crates/storage/src/store.rs:2934-2950 | what goes from Recently deleted is what costs anything, oldest first, while those before it are not enough and none of them refuses |
| StorageCap.EvictedAre | crates/engine/src/lib.rs:458-474 | a copy goes exactly when it may and the colder ones that may do not make up what is owed |
| StorageCap.LiveCopiesGoLast | crates/engine/src/lib.rs:410-479 | which copies an enforcement drops: those that may, the coldest first, while the ones before are not enough; and only if held content and Recently deleted were not |
| StorageCap.TrashGoesSecond | crates/engine/src/lib.rs:410-479 | which items of Recently deleted it drops, and only if held content was not enough |
| StorageCap.CopiesAreLeftExactly | crates/engine/src/lib.rs:458-477 | a copy that may go is left exactly when the colder ones are credited with all that is owed, over the limit or not |
| StorageCap.FallIsWhatWasFreed | crates/engine/src/lib.rs:410-479 | use falls by what is reported freed and a difference told from the disk as it was, so by exactly that if and only if the difference is nought |
| StorageCap.StillOverMeansAllWent | crates/engine/src/lib.rs:458-477 | where no file is longer on disk than listed and emptying does not break off, being still over means every copy that may go went |
| StorageCap.LongFileStopsItShort | crates/engine/src/lib.rs:458-477 | a disk of two files, the first longer than listed, on which an enforcement drops the first, stays two over its limit and leaves the second |
| Repair.Store.RestoreOne | crates/engine/src/repair.rs:93-139 | a path is rewritten, file and row, exactly when the source has the right bytes and the disk takes them |
| Repair.Store.RewritePayloads | crates/storage/src/store.rs:3507-3521 | the row written again has the bytes just read and the version given |
| Repair.Store.Discard | crates/engine/src/repair.rs:54-92 | the damaged payloads go, and only they |
| Repair.Store.Refetch | crates/engine/src/repair.rs:54-92 | which paths are rewritten and which are counted, one failure stopping no other |
| Repair.Store.Repair | crates/engine/src/repair.rs:54-92 | the whole new state, and each figure |
| Repair.WrittenExactly | crates/engine/src/repair.rs:54-139 | after a repair a file on disk has its indexed content exactly where its path was affected and could be restored, and is otherwise as it was |
| Repair.LostExactly | crates/engine/src/repair.rs:54-139 | a chunk in use that could be read no longer can exactly when no payload has it and only private files supply it, each under a name that is affected and restored with bytes that lack it |
| Repair.NothingIsLost | crates/engine/src/repair.rs:54-139 | so where no private file has a live shared file's name, every chunk in use that could be read still can |
| Repair.RestoredReads | crates/engine/src/repair.rs:54-139 | each file rewritten reads, whole, once the pass is over, whatever was rewritten after it |
| Repair.RepairKeepsVersions | crates/engine/src/repair.rs:54-92 | writing rows again keeps each row's content, vector, author and date; only rows of paths restored are touched, and private rows not at all |
| Repair.CountedIsRestored | crates/engine/src/repair.rs:93-139 | a path counted was rewritten exactly when it has live shared content; otherwise it is the name of a private file |
| Repair.UnscannedEditIsWrittenOver | crates/engine/src/repair.rs:93-139 | for any two contents, an edit not yet scanned is replaced by the version before it |
| Repair.NamesakeIsWrittenOver | crates/engine/src/repair.rs:93-139 | a private file whose name a shared file has is written over, for any two contents, and no longer reads |
| VaultDelivery.StepLosesExactly | crates/engine/src/peer.rs:773-784 | the bytes are in the sender's file, with the recipient, or done away with by its person; one event takes that away exactly when, the recipient being without them, the file is changed, moved, deleted or freed, or, a copy made only to be sent, given up; or when, the file not being there, the recipient's copy is let go for space |
| VaultDelivery.ReadableExactly | crates/engine/src/lib.rs:425-441 | so in every interleaving of sends, sends again, fetches cut off, commits, confirmations, call-offs, tidying, evictions, fetching back, records made and denied, and what people do: sender or recipient can read the bytes in every state, until the recipient's person deletes them, exactly when none of those happens |
| VaultDelivery.OnlyPeopleLose | crates/storage/src/db.rs:1554-1605 | while neither end has another device to ask, only a person losing the file, or the giving up of a passing copy, can be what does |
| VaultDelivery.StepKeepsExactly | crates/storage/src/store.rs:1574-1684 | one event of any kind leaves a send within its recipient's reach exactly when it is not the file changed, moved, deleted or freed before it is collected, the send taken back, its file given up, or the recipient's copy let go for space |
| VaultDelivery.KeptExactly | crates/storage/src/store.rs:1574-1684 | so in every interleaving: it is within its recipient's reach in every state, until that device's person deletes it, exactly when none of those happens |
| VaultDelivery.OnlyByHand | crates/storage/src/db.rs:1554-1605 | while neither end has another device to ask, only people disturb a send, or a copy made for several sends being given up for another of them |
| VaultDelivery.StaysWordless | crates/storage/src/db.rs:3557-3578 | and neither end comes to have one by anything the program itself records for the send, but only by word of another device or of a recipient taken for one to ask |
| VaultDelivery.DeliveryIsNeverLost | docs/decisions/0060-a-computer-keeps-private-folders-for-several-people.md:97-115 | a send begun and gone on with without such word, in every interleaving: within its recipient's reach until that device's person deletes it, exactly when people leave the file and the send alone until it is collected |
| VaultDelivery.SenderIsNoCopy | crates/engine/src/peer.rs:773-784 | collecting gives the recipient nothing to let its copy go for: it may let go after exactly if it might before |
| VaultDelivery.SharedSendIsCollected | crates/storage/src/db.rs:3557-3578 | a shared file sent to a device of the same person and confirmed: that device is recorded as one that can be asked |
| VaultDelivery.SecondRecipientIsLeft | crates/storage/src/db.rs:1554-1605 | so a second recipient, shown no shared files, can be left with nothing, and the sender too, having freed the file on the first one's confirmation alone |
| VaultDelivery.SentAgainIsForgotten | crates/storage/src/db.rs:3186-3192 | and a send again to such a device, which no longer has it, can be tidied away uncollected, the file intact |
| VaultDelivery.EachForTheOther | crates/engine/src/lib.rs:425-441 | two devices shown each other's files, each having heard of the other's, can both let go, with nobody's hand in it |
| PruneParents.Tree.RemoveDir | crates/engine/src/peer.rs:1120-1137 | a directory goes exactly when it is there, is empty and may |
| PruneParents.Tree.PruneEmptyParents | crates/engine/src/peer.rs:1120-1137 | the directories that go are the nearest above the file, up to the first that is not empty or may not, and never the root |
| PruneParents.NothingElseLosesItsPlace | crates/engine/src/peer.rs:1120-1137 | every file and directory left still has all its parents |

## Left out

- Content hashes stand for the bytes: no two contents share one. Key derivation, the
  cipher, random bytes and recovery words are uninterpreted. Two laws of the cipher are
  assumed: a sealed text opens under its own key as what was sealed, and under another key
  as nothing else -- it is refused, or gives the same text.
- Power failing at a rename, and stops inside one write of the key vault. Deliveries may
  stop between any two steps; calls on the vault are whole or refused.
- 64-bit sums of sizes and 32-bit machine words do not wrap in the model, but for range
  positions and the base32 buffer, which do as the code's do.
- Logical paths are given with each file: Unicode normalisation and the walk of the disk are
  not modelled, nor are links and permissions. Ignore rules are modelled as they bear on
  what another device may send, with any set of directory names left out besides.
- The version vectors the store makes for local changes; byte counts of what was stored.
- The folder for files kept outside the shared one, and the history, activity notes,
  progress, notifications and logging beside every operation.
- Deliveries recorded by content alone, from before sends had records of their own; sends
  made before `docs/decisions/0060-a-computer-keeps-private-folders-for-several-people.md`,
  which keep bytes in the chunk store.
- Content held partly, chunk by chunk, and what a resumed transfer has so far: a staging
  file may have anything in it.
- The clock moving during one pass: every file of a scan is judged recent or not by one time.
- Places other than the making up of a second name where the program may stop.
- Downloads on a disk that takes two names for one: names there are compared as written.
- Two devices each relying on the other's copy of a shared file nobody sent, which
  `docs/decisions/0025-a-storage-cap-that-cannot-lose-data.md` leaves open too.
- Sockets, HTTP head lines other than the range, QUIC, keystores beyond put, get and remove,
  the desktop's commands other than the two modelled, the website and all JavaScript.
- VaultDelivery.DeliveryIsNeverLost: is of a sender with a folder and one file with the
  bytes, where neither end has word of another copy; with such word the send can be lost,
  as `SecondRecipientIsLeft`, `SentAgainIsForgotten` and `EachForTheOther` say, and
  `KeptExactly` says when. The same bytes in two of the sender's files, and a recipient
  that has them already, are not modelled.
- Downloads.DownloadsSurviveStops: nobody else changes the directory between the attempts,
  and the author of every send is a device's identity.
- Downloads.DeliveryArrives: the same, and the attempts are at one send.
- PeerRuns.LeftOutChangesNothing: is of a folder at the top of the shared area whose name
  carries no conflict mark, because an inner folder can be reached, as
  `PeerRuns.InnerFolderIsReached` says; of lists whose authors are devices' identities; and
  of a replica that has no vault of its own to begin with, as none ever comes to have. Which
  rule files can be read, and the members each names, stays the same during the run: a rule
  that cannot be read closes its folder, and reading it later may let in the members it
  names.
- PeerRuns.SafeWhereSendsArePrivate: needs a name in the folder that this device would take
  and nothing here has; without one a replica has no room for a delivery there.
- PeerRuns.OtherPersonChangesNothingShared: needs such a name anywhere.
- PeerRuns.InnerFolderIsReached: is of a syncing device on a disk that does not fold case,
  with nothing kept remotely and no path the disk refuses.
- TreePlan.SyncedFree: needs every conflict copy's name to be new to both sides and no other
  copy's; `TreePlan.SyncedAt` is of any two trees.
- TreePlan.TwoDevicesConverge: the same; `TreePlan.TwoDevicesConvergeExactly` is of any two
  trees in which different files of one path have different hashes.
- TreePlan.InTurnTheyConverge: needs no copy to be named after a file of the second device,
  because a copy written over one can conflict with it in turn.
- Names.CopyNameReadsBack: is of device identities in hexadecimal and years of four digits.
- FolderSync.ApplyRefinesReconcile: is of runs where nothing fails and no two names share
  a logical path, and of an index that is not wrong about a file whose size and time it
  trusts.
- Repair.NothingIsLost: leaves names with both a shared and a private file out, because
  there it is false, as `Repair.LostExactly` says; replicas are not modelled.
- StorageCap.StillOverMeansAllWent: needs no file longer on disk than listed, and emptying
  not broken off; `StorageCap.CopiesAreLeftExactly` says without either which copies stay.
