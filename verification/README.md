# OpenCMA and VitaMTP, proved in Dafny

OpenCMA serves the files of a computer to a PlayStation Vita; VitaMTP and its fork of libptp2 carry the
protocol. This project models five parts of them and proves what they are meant to do, or, where the code does
less, exactly when it does it.

1. **The object database** (`src/database.c`, filled by `src/utilities.c`, driven by `src/opencma.c`). One linked
   list per category; a parent is only a number. The list objects are heap objects with a `next` field
   (`Forest`, `Database`); the operations relink them as the C code does, including the nested removal in the
   middle of an outer walk (`Removal`), adding and looking up (`Entries`), the scan of a directory (`Scan`,
   `Startup`), receiving a tree from the device with rollback (`Receive`), renaming (`Strings`, `Rename`,
   `RenameLaws`), sending a subtree (`Sending`), listing (`Browse`), the event handlers (`Events`), what each
   event does as a relation between snapshots (`Effects`), what each event keeps (`Session`), and whole runs of
   events from the first scan on (`Runs`). Three invariants run through it: ids and parents
   (`Database.Valid`), paths (`Paths`), sizes (`Sizes`).
2. **The packed formats** (`src/ptp-pack.c`): integers in either byte order (`ByteOrder`), MTP object property
   lists as a pure codec (`PropertyList`) and as the buffer code that refines it (`Packing`), and the spreading of
   storage ids through a Canon directory dump (`CanonDirectory`).
3. **PTP over TCP/IP** (`src/wireless.c`): data packets (`PtpIp`) and the registration of a device
   (`Registration`).
4. **PTP over USB** (`src/usb.c`): the data phase out (`UsbSend`) and in, with the response behind it
   (`UsbReceive`); the memory handlers on both sides are `Handlers`.
5. **The initiator's state** (`src/ptp.c`): the sorted object cache (`ObjectCache`) and the matching of replies
   to requests (`Transaction`).

Code that changes things in place is a class or a method over arrays and heap objects; each such method is tied
to a function of the old state, and the properties are then proved about that function. Ghost parameters such as
the category index `c` or the list `nodes` only name what the C code reaches through pointers. What the outside
world decides (whether a file can be written, what the device answers, how much of a USB write it takes at once,
how a socket splits a stream) is a parameter or a nondeterministic choice. `Undefined` is returned where the C
code dereferences a null pointer or otherwise leaves defined behaviour; nothing is claimed behind it.

## Where the code does less than one would expect

Each of these is stated as a lemma or a contract, with the condition under which things go right.

- A receive that fails does not bring back an entry of the same name that it has already replaced, and the
  sizes above keep the bytes written before the failure (`Events.FailedReceiveRestoresIff`,
  `Events.FailedReceiveLosesEntry`, `Receive.GetAllObjects`).
- A delete leaves the sizes above the entry as they were, so the parent is off by the size of what went
  (`Sizes.DeleteUnbalancesParent`).
- A rename replaces the first occurrence of the old name, not the last component: for slash-free names it is right,
  for the entry and for the whole list, exactly under the guards (`RenameLaws.RenameRightIff`,
  `RenameLaws.ListRightIff`, `RenameLaws.RenameGoesWrong`).
- A failed move renames back. This restores every string exactly if what was replaced first occurs where it did
  before, be the rename itself right or wrong (`RenameLaws.RestoredIff`, `Effects.FailedMoveRestoresIff`,
  `RenameLaws.WrongButRestored`, `RenameLaws.RightButNotRestored`).
- The send loop visits exactly the subtree of a top-level entry if and only if the list is grouped, and creating
  in any folder but the last group ungroups it (`Sending.SendExactIffGrouped`, `Sending.AppendGroupedIff`,
  `Sending.CreateInEarlierFolderBreaks`). From an entry further down it runs on to the end of the group
  (`Sending.WalkExactIff`, `Sending.InnerWalkOverruns`).
- A `stat` that fails during a scan leaves its name in the path buffer, and the entries behind it are looked up
  under another path; at any depth (`Scan.ScanCompleteIff`, `Scan.ScanCompleteIffNeverOverrun`).
- Strings survive a property list on a little-endian device if they are ASCII; on a big-endian one every
  character becomes a question mark (`PropertyList.TextSurvivesIff`).
- A PTP/IP transfer of 2^32 bytes or more is announced with the wrong size (`PtpIp.TransferDeliveredIff`).
- The first USB write of a data phase ignores how much was written: bytes get lost exactly if it neither
  fits one packet nor fills packets, and its full packets are not taken at once (`UsbSend.SendData`,
  `UsbSend.BytesLostIff`, `UsbSend.LosesBytes`).
- A device that ends a data phase before all that it has announced is believed, with an OK
  (`UsbReceive.CompleteIff`).
- A transfer over USB of exactly 512 bytes can leave its zero-length packet behind, which is then all that the next
  phase gets (`UsbReceive.DeviceBehaves`, `UsbReceive.StrayPacket`).
- An error response that an earlier transaction left on USB is taken for that of the current one, because its id is
  not looked at (`Transaction.LeftoverSkippedIff`, `Transaction.LeftoverErrorReturned`).
- Handles are compared by their 32 bit difference, which is right only from -2^31 to below 2^31. A handle in the
  cache is found exactly if that holds for every pivot on the way to it (`Packing.CompareRightIff`,
  `ObjectCache.SearchFindsIff`, `ObjectCache.AllFoundIff`, `ObjectCache.FarHandlesConfused`).
- Opening a session again starts the ids again, so an answer left over from before can be taken for a new one
  (`Transaction.Run`, `Transaction.LateAnswerTaken`).
- Whether a zero-length packet is read is decided by the packet size of the other endpoint
  (`UsbReceive.NothingLeftIff`, `UsbReceive.SizesDiffer`).

## Model

| member | source | states |
|---|---|---|
| Forest.SubtreeIsSubtree | src/database.c:346-350 | with parents before children, one pass over a list finds a set that holds the entry, is closed both ways under "my parent is in it", and holds no id that is smaller or not in the list |
| Forest.SubtreeUnique | src/database.c:346-350 | that set is the only one with these properties |
| Forest.SubtreeIsDescendants | src/database.c:346-350 | an object is in it if and only if a chain of parent links leads from the object to the entry |
| Forest.KeepOrdered | src/database.c:330-365 | what is left of an ordered list after any removal is ordered: ids increase, parents have smaller ids |
| Removal.UnlinkedIsSubtree | src/database.c:346-356 | once the walk has met no remaining child, the ids unlinked by the nested calls together with the entry are exactly its subtree |
| Removal.WalkUnlinks | src/database.c:352-356 | a nested removal that starts one object before the child leaves the outer walk's account intact: the prefix is untouched, nothing before the position is a child, and the list got shorter |
| Removal.RemoveFromDatabase | src/database.c:330-365 | terminates, and the links then run through the old list without the entry and all its transitive descendants, in the old order |
| Database.CountIsFresh | src/database.c:39-105 | the id counter is no object's and no filter's id |
| Database.AppendShape | src/database.c:226-313 | adding an object with the next id under a parent of the same category keeps all ids distinct and increasing and every parent before its children |
| Database.RemoveShape | src/database.c:330-365 | removing the subtree of any entry but a category root keeps the same, and no object is left without its parent |
| Database.ElsewhereUntouched | src/database.c:330-365 | in every other category the subtree of that id is empty |
| Entries.AddToDatabase | src/database.c:226-313 | exactly one new object, at the end of the category, with the next id, the parent's kinds without Folder, the name, and both paths made from the parent's; nothing else changes |
| Entries.FoundOnce | src/database.c:405-449 | at most one object answers to an id |
| Entries.OhfiToObject | src/database.c:405-449 | returns the unique object with the id, or the owner of the filter with the id, and null if there is neither |
| Entries.FirstWithPath | src/database.c:452-488 | the first position at or behind a start whose relative path is the one looked for |
| Entries.PathToObject | src/database.c:452-488 | returns the first match behind the root in the first category asked for that has one, and null only if none has |
| Entries.TailSubtree | src/database.c:330-365 | the subtree of an entry is the same whatever object before the entry one starts from |
| Entries.RemoveEntry | src/database.c:330-365 | called with any start before the entry, removes exactly its subtree from its category and keeps the database valid |
| Entries.AboveStep | src/opencma.c:193-200 | the ancestors of an object are itself and those of its parent, and it is not among the latter |
| Entries.IncrementSize | src/opencma.c:193-200 | terminates, adds the size to the object and each of its ancestors once, and to nothing else |
| Trees.PreorderIds | src/utilities.c:460-511 | a preorder numbers its entries consecutively, and every parent but the first's lies before, inside the same tree |
| Trees.PreorderUpToIds | src/utilities.c:460-511 | the same for a row of trees |
| Scan.AddEntriesForDirectory | src/utilities.c:460-511 | what the scan appends is the preorder of the trees it sees, with each folder as large as all in it and its own size, and the directory grows by their total |
| Scan.AddEntry | src/utilities.c:475-506 | the same for one entry |
| Scan.VisibleIs | src/utilities.c:475-506 | the trees seen are, in order, those of the entries whose name does not begin with a dot and that got a stat, each with the name, kind and size, and what its own directory holds; an entry gets its own stat, or, if the last undotted one before it got none, that of the path the names have run together to |
| Scan.ScanCompleteIff | src/utilities.c:475-506 | if names in a directory are distinct, the scan sees, at any depth, exactly the visible entries that stat succeeds on if and only if in no directory it reads the stat of the path in the buffer differs from the entry's |
| Scan.ScanCompleteIffNeverOverrun | src/utilities.c:475-506 | if no glued-together path exists, that is so if and only if in no directory it reads a visible entry that stat succeeds on comes behind a visible one that it fails on |
| Ancestry.SamePart | src/database.c:346-350 | who is below whom does not depend on which other objects are in the list |
| Ancestry.TailIsSubtree | src/opencma.c:905-953 | when all objects behind the newest one hang from it, removing its subtree restores the list before it |
| Receive.Outcome | src/opencma.c:862-954 | the code of a receive is one of four; which, `Receive.VisitedDecides` tells |
| Receive.ArrivesWhole | src/opencma.c:862-954 | a tree that arrives writes exactly its total size and takes one id for each entry |
| Receive.VisitedDecides | src/opencma.c:862-954 | of all nodes in the order of asking, the first that cannot be read, written or made decides the code; exactly the files before it have been written, and each node before it, and it if it could be read, has taken an id |
| Receive.TreeOfNodes | src/opencma.c:862-954 | what has arrived is, in the order of asking, node by node what was offered: name, handle, kind and the size of each file |
| Receive.ReplaceSameName | src/opencma.c:896-903 | directly under a category root, the first other entry whose relative path is the new name goes, with its subtree; elsewhere nothing does |
| Receive.PutNew | src/opencma.c:882-903 | the newcomer is last, complete but for its size, and all that was not replaced stays in place with the same ancestors |
| Receive.Arrive | src/opencma.c:905-953 | on OK the list is the old one and the preorder of the tree; on any error, at any depth, it is the old one |
| Receive.ArriveFolder | src/opencma.c:920-945 | the same for a folder, whose children may have arrived in part before the error |
| Receive.ReceiveChildren | src/opencma.c:933-944 | the children before the first failure are there in preorder, and the code is that of the first failure |
| Receive.Withdraw | src/opencma.c:905-953 | the rollback removes the object and everything received below it, and nothing else |
| Receive.GetAllObjects | src/opencma.c:862-954 | all or nothing: the list afterwards is the old list without the subtree of a replaced entry, followed on OK by the preorder of the new tree and on error by nothing; the sizes above the parent grow by the bytes written, and no other size changes |
| Strings.FirstIndex | src/utilities.c:541-561 | the smallest position at which a string occurs in another, or none |
| Strings.ReplacedBackIff | src/utilities.c:541-561 | replacing a string that occurs by another and back restores the whole if and only if the other then first occurs where the one did |
| Strings.FirstAtEndExtends | src/utilities.c:541-561 | if a string first occurs at the end of another, it still does with the same addition to both |
| Strings.NameReplacedIff | src/utilities.c:541-561 | replacing the first occurrence of the last component gives the path with the new component if and only if the names are equal or the first occurrence is the last |
| Strings.PathReplacedIff | src/utilities.c:541-561 | the same for a relative path inside a full path |
| Rename.SiblingsDisjoint | src/database.c:384-397 | nothing is below two children of one parent |
| Rename.ReachedAll | src/database.c:384-397 | the objects reached through the children of an object are those below it |
| Rename.RenameRootEntry | src/database.c:367-403 | every object below is rewritten exactly once, from its own old strings and the old and new relative path of its parent; the object itself from the given names; everything else in the list keeps its strings |
| RenameLaws.PathIsRooted | src/database.c:226-313 | if every path is made from the parent's, a full path is the root's path, a slash and the relative path |
| RenameLaws.RenamedEntry | src/database.c:367-403 | under the guards the entry has the new name and the paths that go with it, and keeps all else |
| RenameLaws.RenamedBelow | src/database.c:384-397 | under the guards every path below has the entry's old path at its start replaced by the new one, and its ending, its name and all else kept |
| RenameLaws.RenameKeepsPaths | src/database.c:367-403 | under the guards every path in the list is again made from the parent's |
| RenameLaws.RenameRightIff | src/database.c:367-403 | for names without slashes, the entry gets the right paths if and only if the name does not change or the guards hold |
| RenameLaws.ListRightIff | src/database.c:367-403 | the same for the whole list: every path is again made from the parent's if and only if the name does not change or the guards hold |
| RenameLaws.RenameGoesWrong | src/utilities.c:541-561 | renaming a/a to b gives b/a |
| RenameLaws.RenameBack | src/opencma.c:698-719 | renaming and renaming back restores every string of every entry, if the guards hold for both |
| RenameLaws.RestoredIff | src/opencma.c:698-719 | for any names, and whatever the first rename did: renaming there and back restores the list if and only if the name in the relative path of the entry, and the relative path in the full path of the entry and of everything below it, first occur after the rename where they did before |
| RenameLaws.BackRightIff | src/opencma.c:698-719 | under that same condition, and no other, all paths of the list fit again after renaming there and back |
| RenameLaws.RenameBackIff | src/opencma.c:698-719 | where the first rename meets the guards and names have no slashes, that condition is that the name does not change or the new one meets the guards, too |
| RenameLaws.WrongButRestored | src/opencma.c:698-719 | a/a renamed to b is wrongly b/a, and renamed back a/a again, with all its strings |
| RenameLaws.RightButNotRestored | src/opencma.c:698-719 | ab/c renamed to a is ab/a, and renamed back cb/a |
| Sending.SendExactIffGrouped | src/opencma.c:292-340 | every walk from a top-level entry to the next parent id below the offset meets exactly the entry's subtree, if and only if no top-level entry stands between an object and its parent |
| Sending.WalkExactIff | src/opencma.c:340 | in a grouped list the walk from any entry but the root meets exactly its subtree if and only if no object up to the end of the walk has a parent with a smaller id than the entry |
| Sending.InnerWalkOverruns | src/opencma.c:340 | from a file with another behind it in the same folder the walk goes on to that one |
| Sending.KeepGrouped | src/database.c:330-365 | no removal breaks a group |
| Sending.AppendGroupedIff | src/database.c:226-313 | appending a tree keeps the list grouped if and only if it goes under the root or into the last group |
| Sending.CreateInEarlierFolderBreaks | src/opencma.c:664-696 | with two folders, an entry created in the first is in its subtree and outside its walk |
| Sending.ParentHandle | src/opencma.c:313-320 | the handle of the object's parent if that lies between the start and the object, else the one at hand |
| Sending.SendOne | src/opencma.c:292-340 | one object goes out under the right handle, and only its handle changes |
| Sending.SendFrom | src/opencma.c:292-340 | the objects go out in list order, each under the handle the device gave for its parent, up to the end of the walk; it stops before that only at an unreadable file or where the device refuses |
| Sending.WholeSubtree | src/opencma.c:292-340 | for a top-level entry of a grouped list a complete walk has sent an id if and only if the id is in the entry's subtree |
| Sending.SentIsSubtree | src/opencma.c:292-340 | whenever the walk from an entry is its subtree, what a complete walk has sent is the subtree |
| Sending.SendObject | src/opencma.c:270-345 | both of these for the object with the id asked for; the handles of objects not sent stay; it fails only at an unreadable file or where the device refuses |
| Browse.TypeFor | src/database.c:544-575 | the type of the filter asked for, or that of the object if no filter has the id |
| Browse.MatchingMembers | src/database.c:490-520 | the objects listed are those accepted, in list order |
| Browse.OneCategory | src/database.c:490-615 | no two categories contribute to one listing |
| Browse.EarlyStop | src/database.c:577-609 | stopping behind the first category that contributes anything gives the same listing as scanning all |
| Browse.ChildrenListed | src/database.c:490-520 | for an ordinary entry, and a root without filters, an object is accepted if and only if it is a child |
| Browse.FilterListed | src/database.c:522-542 | the virtual folder "Folders" lists the children of the root, "All" every file of the category |
| Browse.ScanCategory | src/database.c:577-609 | the accepted objects of a category, chained in order and ended by null, and their number |
| Browse.FilterObjects | src/database.c:544-615 | the chain, with ids increasing and its length as the count, holds exactly the children of the object, or for a virtual folder the children of the root ("Folders") or all files of the category ("All"); a root with filters yields the filters |
| Sizes.IncrementKeepsOwn | src/opencma.c:193-200 | adding bytes to an object and its ancestors changes what that object holds by itself, and no other balance between an object and its children |
| Sizes.TreeBalance | src/utilities.c:480-508 | every entry of a scanned tree is as large as its children and its own initial size |
| Sizes.CreateKeepsOwn | src/opencma.c:664-696 | an empty new entry changes no balance |
| Sizes.ScanKeepsOwn | src/utilities.c:480-508 | after a scan every older entry holds by itself what it held, although the root has grown |
| Sizes.ReceiveKeepsOwn | src/opencma.c:862-954 | after a receive that replaces nothing, every older entry holds by itself what it held, and every new one its own size |
| Sizes.DeleteUnbalancesParent | src/opencma.c:501-527 | after a delete exactly the parent's balance is off, by the size of the entry |
| Paths.TiedIsPathsOk | src/database.c:226-313 | two readings of "every path is made from the parent's" agree |
| Paths.PreorderPaths | src/utilities.c:460-511 | they hold throughout a preorder |
| Paths.AppendTied | src/database.c:226-313 | they survive appending a preorder |
| Events.AddOrWithdraw | src/opencma.c:664-696 | the entry is last if it can be made, and the lists are as before if not |
| Events.CreateEntry | src/opencma.c:664-696 | the same for the create commands, with the code for each case |
| Events.DeleteObject | src/opencma.c:501-527 | every category loses the subtree of the id, and only that; the code for an id that is not there |
| Events.RenameAndMove | src/opencma.c:698-726 | the list is renamed, or renamed and renamed back if the file cannot be moved |
| Events.RenameObject | src/opencma.c:698-726 | the same for the object with the id; all other categories keep their entries |
| Events.GetPartOfObject | src/opencma.c:740-781 | OK if and only if the object is a file that can be written; then it and its ancestors grow by the bytes, and only the object holds more by itself; otherwise nothing changes |
| Events.GetTreatObject | src/opencma.c:956-976 | the all-or-nothing receive under the object with the id, with the code for each case |
| Events.FailedReceiveRestoresIff | src/opencma.c:896-903 | a failed receive leaves the list as it was if and only if it had nothing to replace |
| Events.FailedReceiveLosesEntry | src/opencma.c:896-903 | a file that cannot be written takes away the entry it would have replaced |
| Startup.MakeFilters | src/database.c:315-328 | filter ids are consecutive from the counter |
| Startup.InitDatabase | src/database.c:39-105 | ten roots and five filters with distinct ids, the kinds and types of each category, and nothing else |
| Startup.CreateDatabase | src/database.c:109-133 | every category is the preorder of its directory, numbered behind the categories before it; ids, paths and grouping are as they should be |
| Startup.ScannedRight | src/utilities.c:460-511 | a scanned category has consistent paths and contiguous top-level subtrees |
| Startup.ScannedBalanced | src/utilities.c:480-508 | every object of a scanned category is as large as its children and what stat reported for it |
| Effects.KnownMeans | src/database.c:405-449 | an id is known if and only if an object or a filter in the lists carries it |
| Effects.EntryMeans | src/database.c:405-449 | an id is that of an entry if and only if an object behind the roots carries it |
| Effects.FileMeans | src/opencma.c:740-781 | an id is that of a file if and only if the object answering to it is one |
| Effects.CreateHappened | src/opencma.c:664-696 | after the create commands a snapshot differs from the one before by exactly one empty entry at the end of a category |
| Effects.DeleteHappened | src/opencma.c:501-527 | after a delete, by exactly the subtree of the id, and all that stays holds what it held; OK exactly for an id of an entry |
| Effects.RenameHappened | src/opencma.c:698-726 | after a rename, by the strings of one subtree, renamed or renamed and renamed back |
| Effects.FailedMoveRestoresIff | src/opencma.c:706-719 | a move that fails leaves the snapshot as it was if and only if what is replaced stays in place |
| Effects.PartHappened | src/opencma.c:740-781 | after received bytes, by the sizes of one object and its ancestors; OK exactly for a file that can be written |
| Effects.FirstNamed | src/database.c:452-488 | the first position from a start on with that relative path, or the end of the list |
| Effects.ReplacedIs | src/opencma.c:896-903 | what a newcomer replaces is settled by the strings in the snapshot |
| Effects.TreatHappened | src/opencma.c:862-976 | after a receive, by the subtree replaced, the new tree or nothing, and the sizes above |
| Effects.SendHappened | src/opencma.c:270-345 | after a send, by the handles of the objects that went out, all of them readable; it stops early only at an unreadable one or where the device refuses |
| Session.CreateTidy | src/opencma.c:664-696 | creating has its effect and keeps ids, paths and the balance of every folder, the new one starting with nothing of its own, and grouping if a root answers to the id, by its own or a virtual folder's |
| Session.DeleteTidy | src/opencma.c:501-527 | deleting has its effect, with OK exactly for the id of an entry, and keeps ids, paths and grouping |
| Session.RenameTidy | src/opencma.c:698-726 | renaming has its effect, with OK exactly for the id of an entry, and keeps ids and balances, and paths under the guards or, if the move fails, where renaming back restores them |
| Session.PartTidy | src/opencma.c:740-781 | receiving bytes has its effect, with OK exactly for a file that can be written, and keeps ids, paths and the balance of every folder, old or new |
| Session.TreatTidy | src/opencma.c:956-976 | receiving a tree has its effect, with the code that follows from the id and the tree, and keeps ids and paths, and grouping if a root answers to the id |
| Session.SendTidy | src/opencma.c:270-345 | sending has its effect and keeps ids, paths and balances |
| Session.NewerAfter | src/database.c:226-313 | a removal and an addition leave only objects that were there, and objects with new ids |
| Session.Step | src/opencma.c:635-738 | any event relates the snapshots before and after it as it should, keeps all of these, and gives no id out twice |
| Runs.SnapMeans | src/database.c:39-105 | ids, among them that at most one object answers to each, grouping, paths and balances can be read off a snapshot |
| Runs.KeptNext | src/opencma.c:635-738 | one more event that keeps what events keep leaves every point of the run, the new one too, as it should be, and ids compare between any two of them |
| Runs.Run | src/opencma.c:635-738 | every run of events is a run of the relation between snapshots, event by event with its code; at every point of it ids and parents are as they should be, at most one object answers to an id, no id given out at any earlier point has come back, the lists are grouped if only roots answered to what came in so far, the paths are right if every rename so far was safe when it came, the balances hold if there were no deletes and no received trees so far |
| Runs.SendsAreWhole | src/opencma.c:270-345 | in such a run, behind events into category roots only, every send of a top-level entry that ends well has sent exactly its subtree |
| Runs.ScanSeen | src/database.c:109-133 | the first snapshot holds, for each category, its root and behind it the preorder of its directory, numbered behind the categories before |
| Runs.Serve | src/database.c:109-133 | all this from the first scan on: the first snapshot is that of the scan, where paths, groups and balances hold |
| CanonDirectory.Find | src/ptp-pack.c:1870-1874 | the first object with an id, or the number of objects |
| CanonDirectory.SeedStorages | src/ptp-pack.c:1846-1856 | an object has the id of the last storage record whose next child it is, if there is one |
| CanonDirectory.Pass | src/ptp-pack.c:1859-1899 | a pass only fills in missing ids, each one passed on along a link, counts them, and if it fills in none has met only records with nothing to pass on |
| CanonDirectory.ReachedAtFixpoint | src/ptp-pack.c:1857-1907 | when no record has anything left to pass on, every object that a storage reaches has an id |
| CanonDirectory.ExitAtFixpoint | src/ptp-pack.c:1900-1906 | the exit at one less than the number of objects, like that at zero, is taken at the fixpoint only |
| CanonDirectory.ReachedFromStorage | src/ptp-pack.c:1846-1907 | an id that reaches an object is that of a storage record |
| CanonDirectory.UnpackCanonDirectory | src/ptp-pack.c:1801-1910 | terminates on any directory; the handles are the ids of exactly the records with storage id 0xffffffff, in order; an object ends with a storage id if and only if some path of records, each one of the object the one before has named, leads to it from the next child of a storage record, and the id is that of such a storage, and of its own if it has one |
| CanonDirectory.CollectHandles | src/ptp-pack.c:1812-1844 | the same about the handles, for the two loops that collect them |
| ByteOrder.DecodeEncode | src/ptp-pack.c:14-92 | a number that fits its width comes back, in either byte order |
| ByteOrder.DecodeSwapped | src/ptp-pack.c:14-92 | read in the other order, a 16 bit number has its bytes swapped |
| ByteOrder.BytesOf | src/ptp-pack.c:19-62 | the bytes of a number of one, two, four or eight bytes, in either order |
| ByteOrder.NumbersOf | src/ptp-pack.c:64-92 | the number that one, two, four or eight given bytes stand for, in either order |
| ByteOrder.WriteInt | src/ptp-pack.c:19-44 | the bytes of the number are at their place in the buffer, and all other bytes are as before |
| ByteOrder.ReadInt | src/ptp-pack.c:64-80 | the number that the bytes at that place stand for |
| PropertyList.ArrayBack | src/ptp-pack.c:631-711 | a packed array of any number type is read back whole, and nothing behind it is consumed |
| PropertyList.TextBack | src/ptp-pack.c:100-143 | a packed text of up to 254 chars is read back char by char, with a question mark for each char the units cannot carry, and exactly its bytes are consumed |
| PropertyList.TextSurvivesIff | src/ptp-pack.c:100-203 | it comes back unchanged if and only if it is ASCII on a little-endian device, or all question marks on a big-endian one |
| PropertyList.ValueBack | src/ptp-pack.c:631-711 | every supported value is read back, and consumes exactly its own bytes |
| PropertyList.PropsBack | src/ptp-pack.c:1060-1085 | the bytes of some properties, with nothing behind them, are read as these properties, whatever larger count was announced |
| PropertyList.ListBack | src/ptp-pack.c:979-1089 | a packed list cut at a property boundary behind k entries is read as exactly those k, of the first 127 |
| Packing.PackString | src/ptp-pack.c:157-228 | the packed bytes are the encoding of the text |
| Packing.PackArray | src/ptp-pack.c:911-966 | the packed bytes are the count and the numbers |
| Packing.PackValue | src/ptp-pack.c:864-975 | types 1 to 8 take one, one, two, two, four, four, eight and eight bytes, these bytes; types 0x4001 to 0x4008 a count of four bytes and numbers of these sizes; text its number of chars, two bytes for each and a terminator |
| Packing.PackList | src/ptp-pack.c:979-1034 | the buffer is filled completely with the count and the first 127 properties, each with handle, code, type and value where they belong, and the size reported is that of the buffer |
| Packing.UnpackItems | src/ptp-pack.c:608-628 | the loop reads what the reference decoder reads, up to the end of the buffer |
| Packing.UnpackUnits | src/ptp-pack.c:100-143 | the same for the units of a text |
| Packing.UnpackValue | src/ptp-pack.c:631-711 | by type code: the same sizes are read, and what the bytes stand for; arrays and text as far as they are there; sixteen bytes are skipped for the 128 bit types and nothing is read of others |
| Packing.CompareRightIff | src/ptp-pack.c:1037-1042 | the handle comparison is the true difference if and only if that is at least -2^31 and below 2^31 |
| Packing.SortByHandle | src/ptp-pack.c:1086 | a permutation, in handle order if the handles are less than 2^31 apart |
| Packing.UnpackList | src/ptp-pack.c:1045-1089 | the properties are read one behind the other, each field from its bytes, as many as the count says or up to the end; the result is a permutation of them, sorted by handle if those are close; None exactly where the code reads behind the end |
| Packing.RoundTrip | src/ptp-pack.c:979-1089 | packing, cutting at a property boundary and unpacking gives a permutation of the properties before the cut, sorted by handle if those are close |
| Handlers.MemoryHandler.Get | src/ptp.c:226-258 | hands out the next bytes, as many as wanted or as there are |
| Handlers.MemoryHandler.Put | src/ptp.c:226-258 | writes at the offset and keeps what lies before and behind |
| PtpIp.ParseFrame | src/wireless.c:198-288 | what was framed as a packet is read as that packet, whatever follows |
| PtpIp.PacketsDelivered | src/wireless.c:411-513 | from any point of a transfer on, the data packets still to come deliver the bytes still missing |
| PtpIp.DeliverBounded | src/wireless.c:441-512 | on any stream the loop ends, delivers no more than announced, and says OK exactly when all of it has been delivered |
| PtpIp.ReceiveBounded | src/wireless.c:411-513 | the same for a whole transfer |
| PtpIp.ReceiveFirst | src/wireless.c:419-437 | without a whole announcement nothing is delivered, and which error it is |
| PtpIp.TransferDeliveredIff | src/wireless.c:311-513 | a transfer is delivered whole, and the reader left right behind it, if and only if it is below 2^32 bytes |
| PtpIp.PacketSizes | src/wireless.c:349-404 | every data packet but the last carries 32756 bytes, and the last, and no other, is an END packet |
| PtpIp.WireKind | src/wireless.c:349-404 | that is what a reader finds on the wire |
| PtpIp.StartLaid | src/wireless.c:311-347 | the bytes of the announcement: 20, type 9, the transaction id, the size cut down to 32 bits, and zero |
| PtpIp.PacketLaid | src/wireless.c:349-404 | the bytes of packet i of a transfer: its length, type 12 if it is the last and else 10, the transaction id, and the next 32756 bytes or as many as are left |
| PtpIp.GenericRead | src/wireless.c:198-288 | however the stream is split, the packet is that of the length and type in front of it, and the stream is left right behind it; on a connection that holds it fails only where the length is out of bounds or more than there is |
| PtpIp.SendData | src/wireless.c:311-408 | however short the writes, OK means that exactly the announcement and the data packets went out; on a connection that holds only an announcement sent in part ends otherwise |
| PtpIp.GetData | src/wireless.c:411-513 | what is delivered is what the stream holds, whatever the splits; OK only if all of it came; on a connection that fails on the way, a beginning of it, and never more than announced |
| PtpIp.Exchange | src/wireless.c:311-513 | one side sends and the other gets exactly the payload, if and only if it is below 2^32 bytes |
| Registration.RegisteredByRegister | src/wireless.c:1481-1507 | in any run, who is registered has sent a REGISTER with the stored device id and the non-negative PIN last shown on that connection |
| Registration.Answer210 | src/wireless.c:1436-1453 | in any run, a 210 answer goes to a known device or comes after such a REGISTER |
| Registration.ServeMessage | src/wireless.c:1429-1535 | the answer to each message, spelled out: 210 or 605 to a CONNECT, 200 to a REGISTER with the stored id and the PIN shown and else 610, the cancellation of a PIN; the stored id, of which 32 chars are kept, the port, the PIN, whether listening goes on and whether the connection is served further |
| Registration.LatestPinIs | src/wireless.c:1411-1476 | the PIN is that of the latest SHOWPIN on the connection, and unset before the first |
| Registration.ShowThenRegister | src/wireless.c:1455-1507 | a device with an id of up to 32 chars that sends back the PIN it has been shown is registered |
| Registration.LongIdRefused | src/wireless.c:1455-1507 | a device with a longer id is refused although it sends the PIN it has been shown |
| Registration.ServeClient | src/wireless.c:1411-1538 | the history grows by one step for each message of this connection, in order, up to its end or the first message that breaks it off; the PIN is unset again when a next connection may come; listening goes on if and only if no message served ends it |
| Registration.DividedOnce | src/wireless.c:1381-1539 | a history stays divided into the connections when the steps for one more are put behind it |
| Registration.GetWirelessDevice | src/wireless.c:1376-1539 | the PIN is unset at each accept; every connection is accepted in turn until one has a message that ends listening, STANDBY among them, and none behind it; each accepted one is served in full; registered and connected are set only as the history says |
| UsbSend.LastBlockFull | src/usb.c:273-402 | the last block of a write fills its packets if and only if all the bytes together do |
| UsbSend.WrittenMeans | src/usb.c:294-370 | for up to 0x4000 bytes: all are written unless there are two blocks and the first is taken in parts, and then exactly the first block is |
| UsbSend.WriteBlocks | src/usb.c:294-370 | the bytes written are the next ones of the handler, in order, and as many as `Written` says for the write sizes of the endpoint |
| UsbSend.WriteFunc | src/usb.c:273-402 | the same, and a zero-length packet follows if and only if this ends the transfer on a full packet; for up to 0x4000 bytes fewer than asked for are written if and only if there are two blocks and the first is taken in parts |
| UsbSend.SendFirst | src/usb.c:600-629 | the header and first bytes go out without the end that is lost, if any is |
| UsbSend.SendRest | src/usb.c:633-656 | however the writes are cut, all remaining bytes go out in order |
| UsbSend.SendData | src/usb.c:577-657 | the wire carries the 12 byte header and the first `size` bytes without exactly those that are lost at the end of the first write, and then a zero-length packet if and only if nothing was lost and the last part fills its packets |
| UsbSend.LastPartMeans | src/usb.c:577-657 | for data not split from its header that means: size + 12 is a multiple of the packet size |
| UsbSend.HeaderLaid | src/usb.c:592-595 | the 12 bytes of the header: length, type 2, code and transaction id |
| UsbSend.FirstPayloadIs | src/usb.c:600-612 | up to 500 bytes go out with the header, and none if it is split off |
| UsbSend.BytesLostIff | src/usb.c:577-657 | bytes get lost if and only if the first write neither fits one packet nor fills packets, and the endpoint does not take the full packets in it at once |
| UsbSend.NothingLostAtHighSpeed | src/usb.c:577-657 | with 512 byte packets nothing is ever lost |
| UsbSend.LosesBytes | src/usb.c:577-657 | 100 bytes in packets of 64, of which the endpoint takes 32 first: the last 48 never go out, and the code is OK |
| UsbReceive.TakeFull | src/usb.c:139-270 | a read that ends on a packet boundary takes its bytes and leaves the rest waiting |
| UsbReceive.TakeAll | src/usb.c:139-270 | a read with room to spare takes the short packet too |
| UsbReceive.TakeFails | src/usb.c:139-270 | nothing waiting, or a packet too long, fails the transfer, and the packet is lost |
| UsbReceive.NextRead | src/usb.c:162-177 | a block is never empty, never more than is missing, and below 0x4000 bytes |
| UsbReceive.NextReadIs | src/usb.c:162-177 | blocks of 0x3e00 and 0x200 bytes by turns while 0x4000 or more are missing, and then all that is |
| UsbReceive.ReadsAll | src/usb.c:139-270 | read in alternating blocks, the bytes a device sends arrive exactly, and at most a zero-length packet is left |
| UsbReceive.ReadsShort | src/usb.c:139-270 | when a device sends less than is asked for, the loop ends with that |
| UsbReceive.ReadFunc | src/usb.c:139-270 | the handler gets what the blocks bring, in order, and the zero-length packet is read where asked for |
| UsbReceive.GetPacket | src/usb.c:659-690 | the packet kept before, once, or the next transfer |
| UsbReceive.FirstTransfer | src/usb.c:693-864 | what the first read of a data phase gets and leaves, for a container in one piece, split from its header, or sharing its up to 512 bytes with the response |
| UsbReceive.RestTransfer | src/usb.c:693-864 | what is missing then arrives, and which zero-length packets are left to read |
| UsbReceive.DeviceBehaves | src/usb.c:693-864 | in all three shapes, and for any packet size of the out endpoint, the outcome is OK with exactly the payload, a response that came along is kept, and what is left waiting is said exactly |
| UsbReceive.CompleteIff | src/usb.c:845-858 | behind any first packet, when a device sends no more than announced, the outcome is OK with just what it has sent, so with all that was announced if and only if it sent as much |
| UsbReceive.VerdictOfPacket | src/usb.c:715-744 | the length, type and code are read from the first eight bytes, and which return code each leads to |
| UsbReceive.NothingLeftIff | src/usb.c:250-267 | exactly what was behind the container is left if and only if both packet sizes judge the second read alike, or, if there is none, no zero-length packet of 512 bytes stays |
| UsbReceive.SizesDiffer | src/usb.c:250-267 | 576 bytes in packets of 64 leave a zero-length packet if the out endpoint has packets of 512, and in packets of 512 they cost the packet behind them if it has packets of 64 |
| UsbReceive.ReadContainer | src/usb.c:777-864 | the code behind the first packet does what that outcome says |
| UsbReceive.GetData | src/usb.c:693-864 | the whole data phase does, for any device and any container of known length |
| UsbReceive.GetResponse | src/usb.c:867-913 | looks at the packet kept, if there is one, else at the next transfer; the code is a failed read, the wrong container type, OK for the code expected, or the code in the container |
| UsbReceive.StrayPacket | src/usb.c:659-690 | a zero-length packet left behind is all the next phase gets, and neither phase takes it for its own |
| UsbReceive.DataThenResponse | src/usb.c:693-913 | when the response shares the transfer of the data, the handler gets exactly the data, and the response phase sees exactly the response and judges it; a zero-length packet stays if the two make up 512 bytes |
| ObjectCache.InsertMap | src/ptp.c:5270-5328 | inserting a handle at its place keeps the array strictly increasing and adds exactly a zeroed entry to the map |
| ObjectCache.RemoveMap | src/ptp.c:5224-5242 | closing a gap keeps it increasing and takes exactly that handle from the map |
| ObjectCache.SearchFindsIff | src/ptp.c:5244-5266 | a handle is found if and only if it is there and compares rightly with each pivot on the way to it; being near to all others suffices |
| ObjectCache.AllFoundIff | src/ptp.c:5244-5266 | with the middle as pivot, every handle in the cache is found if and only if each pivot is near enough to all between its bounds |
| ObjectCache.MissedIff | src/ptp.c:5244-5266 | however a binary search picks its pivots, it finds a handle that is there, if and only if the handle compares rightly with all others |
| ObjectCache.Cache.Find | src/ptp.c:5244-5266 | is that binary search: what it finds has the handle, and it finds one if and only if it can be reached |
| ObjectCache.Cache.Search | src/ptp.c:5284-5316 | terminates with the place of the handle, or the one place where it may go |
| ObjectCache.Cache.FindOrInsert | src/ptp.c:5270-5328 | refines the map: the entry that was there, or a zeroed one more, and every other entry as it was; nothing for handle 0 |
| ObjectCache.Cache.Remove | src/ptp.c:5224-5242 | refines the map: exactly that handle goes if the search can reach it, and else nothing changes |
| ObjectCache.Load | src/ptp.c:5345-5499 | asks only for what is missing; the info flags come together, and an object is never its own parent |
| ObjectCache.Cache.Want | src/ptp.c:5331-5499 | OK means an entry with the handle and every wanted flag, but for a property list the device cannot give; after an info request the entry has the storage and filename of the device (or "<none>"), and the parent known before, else the device's, and none if that is the object itself; after a list request that list; all else and all other entries as before; a failed info request leaves the handle absent if and only if the search can reach the entry |
| ObjectCache.Run | src/ptp.c:5224-5499 | in every run of lookups and removals the info flags are set together or not at all, and no loaded object is its own parent |
| ObjectCache.FarHandlesConfused | src/ptp.c:5244-5249 | in a cache of 1, 2 and 0x90000000 the search misses 0x90000000 |
| Transaction.Initiator.AwaitResponse | src/ptp.c:183-216 | skips only replies that are stale, or at most two foreign ones where a session is opened; the loop never ends by running out of tries |
| Transaction.Initiator.Transact | src/ptp.c:132-217 | a code is returned through the end of the loop if and only if a reply with the id stamped on the request comes behind only replies that are skipped; it is that reply's, and the rest stays queued |
| Transaction.Initiator.OpenSession | src/ptp.c:511-539 | the counter starts again at 0, a response packet kept from before is thrown away, and the request waits as any other |
| Transaction.StaleOnly | src/ptp.c:183-216 | a reply with the id behind only stale ones is one such reply |
| Transaction.MeetsBefore | src/ptp.c:183-216 | whether a reply left over from before is taken does not depend on what arrives for the request |
| Transaction.Run | src/ptp.c:132-217 | in any run of fewer than 2^32 transactions and any number of sessions, each code so returned comes from a reply with the id stamped on its request, which arrived during the request or before its session was opened; in the first session, during the request |
| Transaction.LateAnswerTaken | src/ptp.c:511-539 | the answer to a failed attempt to open a session comes late, and is taken for that to the second attempt, whose own stays queued |
| Transaction.GetUsbReply | src/usb.c:867-913 | a USB response read as a reply, by the fields of the packet: the error of the read, no response, the response's error code without its id, or its code and id |
| Transaction.ReplyOfPacket | src/usb.c:884-912 | the type, code and transaction id are read from bytes 4, 6 and 8, and which reply they make |
| Transaction.LeftoverSkippedIff | src/usb.c:884-900 | a response left by an earlier transaction is skipped if and only if its code is OK, that of the request, or the one that stands for no response; else its code is returned for this request |
| Transaction.ExpectedIs | src/usb.c:904 | the code compared with is that of the request or OK, however many responses have been skipped |
| Transaction.AwaitUsbResponse | src/ptp.c:183-216 | over USB the loop ends as it does on the replies that the packets amount to, and has read exactly that many; if the first packet is the OK with the id of the request, it ends there with that and the rest stays; with a larger id it is a bad parameter unless a session is opened, with a smaller one it is skipped, and any other code is returned at once |
| Transaction.BehindOldAnswer | src/usb.c:884-904 | behind an old answer that was OK, the code of the request is an error like any other |
| Transaction.LeftoverErrorReturned | src/usb.c:867-913 | a request whose response loop meets such an error response on the endpoint, with whatever id, ends with that error, and all packets behind it stay |

## Left out

- UsbReceive.ReadUnknownLength: a container with the length marker 0xffffffff is read as in the code, but its contract promises nothing about the contents.
- Packing.SortByHandle: `qsort` is any sorting method that uses the comparison; for handles 2^31 or more apart only the permutation is promised.
- ObjectCache.Cache.Find: `bsearch` takes the middle as its pivot; `ObjectCache.MissedIff` says what holds for any choice.
- Browse.FilterObjects: the filters of a root are returned as a sequence, not as a chain through `next_metadata`.
- Widths: ids, sizes and counts of the database are unbounded; the wrap-around of the C `int` and `size_t` there is not modelled (on the wire and in handle comparisons it is).
- The metadata that depends on the type of a file, dates, thumbnails and file statistics other than size and kind.
- Locks and threads: the database lock is held throughout an event, so events are modelled one after the other.
- Files, sockets, libusb, the device and the user callbacks: success flags, byte streams, packet queues and trees stand for them.
- Receiving a folder into a file, deleting or renaming a category root, and a USB packet shorter than its header are reported as `Undefined`.
- Text conversion through iconv, strings of more than 254 chars, and the 128 bit data types, which the packer does not support; the parser's skipping of them is modelled.
- A file can only be written, when bytes are received, if the entry is a file; a directory cannot be opened for writing.
- Signed numbers are represented by their bit patterns.
- A CONNECT message of which `sscanf` reads only a part counts as not parsed.
- The request phase over USB, PTP/IP requests and responses, events, cancellation and progress callbacks.
- Allocation failure and the freeing of memory.
- The Windows version of the directory scan, the command line and the console commands.
- The command wrappers of `src/vitamtp.c`, XML in `src/datautils.c`, device discovery, and the vendor tables of `src/ptp.c`: single calls without a property that spans operations.
