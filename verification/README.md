# A verified model of the overlay filesystem and of the broker's tree work

This project models the union filesystem in `utils/overlayfs` and two pieces of the daemon in
`mbroker`, and proves what they promise.

A mount stacks a writable upper tree over read-only lower trees. Whiteouts hide names, opaque
marks end a merge, redirects say where the lower parts of a renamed directory are. `Tree`
defines what a user sees (`View`): each path is resolved name by name to a stack of one upper
object and the lower directories merged below it. Almost everything else is a proof that code
which edits only the upper layer, a cache or an on-disk note acts on that merged tree as the
plain operation would.

* **Merged tree and lookup.** `Tree`, `Frame`, `Compose`, `RedirectText`, `LayerWalk`, `Lookup`,
  `MergedDir`: the specification; the walk over one layer that rewrites the name it is walking;
  the loop over layers that jumps back to the root stack; absolute redirects against
  parent-by-parent lookup.
* **Namespace operations.** `Changes`, `Presence`, `Marks`, `Whiteouts`, `Inodes`, `Namespace`,
  `Versions`, `Runs`: copy-up, create, remove and rename as programs over the upper tree and over what the
  overlay inodes of directories keep for readdir. Lower layers may hold redirects, whiteouts and
  opaque directories themselves. Any step on the upper filesystem may fail, unless the mount is
  `reliable`; then an operation fails only for the reasons its contract lists.
* **Copy-up and links.** `CopyUpProtocol` (any number of threads, any interleaving), `CopyData`
  (holes, short splices, partial clones), `NlinkText` and `Nlink` (the persistent link count).
* **Listing.** `SearchTree`, `Readdir`, `EmptyCheck`, `DirCaches`, `CachedDirectories`, `Scenes`,
  `Scripts`: the merged list built with a list and a search tree, its agreement with lookup, the
  versioned, counted cache, and a directory of a mount with any number of files open on it while
  operations change the tree. `Scenes` says what each action of a client changes and proves what
  holds of every run; `Scripts` does the actions on the shared caches and is proved to make such
  runs.
* **Numbers, handles, options.** `Bits`, `Ino`, `Export`, `MountFeatures`.
* **The daemon.** `Promote`, `PromoteWorkers`, `Glob`.

Four results are about code that does not do what one would expect.

* A creation can fail once the new object is in place. The object is then taken away again, but
  a whiteout it replaced is not put back, and if taking it away fails too, that is ignored. The
  merged tree is unchanged if and only if the object could be taken away and no whiteout hid
  anything (`Namespace.Overlay.Create`); `Namespace.CoveredHappens` gives the input for which a
  lower file shows again, and an object that stays is there as if it had been created. No other
  operation that fails shows: `Runs.Step` says so of each operation, and `Runs.RunShows` of every
  run in which nothing has been uncovered.
* A rename that has swapped an entry with a whiteout takes the whiteout away again where it hides
  nothing, and a failure to do so is ignored. A directory that has never had lower directories can
  then not be removed although it is empty (`Namespace.StrayStays`). No operation leaves such a
  whiteout otherwise: from an upper layer without one, if no step on the upper filesystem fails,
  there never is one, and a removal fails if and only if it is of a directory that is not empty
  (`Namespace.Overlay.Remove`, `Runs.Run`).
* While a hard link over a whiteout waits in the work directory, the count on disk is one more
  than the number of names: `Nlink.OverlayInode.Link` goes through such a state, and
  `Nlink.TempIsCounted` reads the note of one. If the link can neither be moved nor taken away it
  stays there until the next mount empties the work directory. A note that is written meanwhile
  takes it for the link of a name, and after the next mount the count is one too few:
  `Nlink.OneTooFew` is a run that ends so, with two names and a count of one. In every state of
  every history the next mount reads the number of names less the links left that the last note
  has counted, and so the right number, where a name is left, if and only if that note has counted
  none (`Nlink.EveryStopIsRight`, `Nlink.NextMountIsRight`).
* A name whose lookup fails while it is listed, for lack of memory say, is marked stale in the
  cache that all listings of the directory share. It is missing from every listing of that cache
  from then on, even one begun afresh, until the directory changes or the cache is dropped:
  `CachedDirectories.NameLost` loses any name of any directory so. A listing shows what lookup
  finds but for exactly these names (`CachedDirectories.CurrentIsTrue`, `Scenes.WholeListing`).

The repair of a wrong link count (`utils/overlayfs/util.c:843-858`) is reached, without a change to
the lower layers, exactly when links are left in the work directory as the last name goes; the note
it writes is right for the next mount (`Nlink.OverlayInode.NlinkEnd`). The two warnings in the layer
walk, the position warning in the copy loop and the last fallback of a mount with both export and
metadata-only copy-up are dead code; each is an `assert false` in the method that has the branch.

## Model

| member | source | states |
|---|---|---|
| Compose.RootsSnoc | utils/overlayfs/namei.c:305-344 | Looking up a path from the roots of the layers finds what looking up its parent there and then its last name in the parent's stack finds, although lower layers may hold redirects. |
| Compose.LowerPathFindsStack | utils/overlayfs/dir.c:1000-1058 | The path a redirect is built from (the names of the ancestors, or the redirect one of them already has) leads from the layer roots to exactly the lower stack the directory has. |
| RedirectText.IsValidRedirect | utils/overlayfs/util.c:1024-1068 | The validator accepts a text if and only if it is a single component or a slash-led list of non-empty components. |
| RedirectText.DecodeEncode | utils/overlayfs/util.c:1048-1057 | Every redirect, written as text, is accepted and reads back as itself. |
| RedirectText.LowerPathText | utils/overlayfs/dir.c:1000-1058 | The text made of the elements found on the way up is the text of the lower path. |
| RedirectText.GetRedirect | utils/overlayfs/dir.c:1000-1058 | The text built backwards in the fixed buffer is the text of the recursively defined lower path, and the call fails if and only if that text is longer than the maximum. |
| LayerWalk.CheckRedirect | utils/overlayfs/namei.c:28-62 | Meeting a redirect rewrites the name so that the part walked so far is replaced and the rest kept; an absolute one lifts the stop. |
| LayerWalk.LookupSingle | utils/overlayfs/namei.c:221-303 | One step through a layer finds the entry and leaves the name, stop and opaque marks the specification gives, for a whiteout, a file, an opaque or a redirected directory. |
| LayerWalk.WalkLayer | utils/overlayfs/namei.c:317-344 | After every element the remainder marks the unwalked end of the name as it has become, and when the walk ends the name is the path the recursive walk gives for the next layer. |
| LayerWalk.LookupLayer | utils/overlayfs/namei.c:305-344 | The loop over the elements of a path finds what the recursive walk finds and leaves its path for the next layer; what is left to walk always marks the end of the rewritten name, and neither warning is ever reached. |
| Lookup.OvlLookup | utils/overlayfs/namei.c:822-1060 | A lookup finds exactly the stack the specification gives, through upper and lower redirects and the jump to the root stack; it ends, and never stores more entries than there are lower layers. |
| Lookup.LookupLowers | utils/overlayfs/namei.c:898-1002 | The loop over lower layers collects exactly the entries still to be found. |
| Lookup.DirsCanBeSearched | utils/overlayfs/namei.c:898-1002 | Every directory of the merged tree, however redirects led to it, has a stack a further lookup can start from. |
| MergedDir.StacksAreOrdered | utils/overlayfs/super.c:1907-1910 | At every path the layers of the stack strictly increase, and there are at most as many as lower layers. |
| MergedDir.LowerPositive | utils/overlayfs/namei.c:1139-1190 | For a name that is seen the scan says yes if and only if there is no upper entry or the topmost lower entry of that name is not a whiteout; for one that is not, if and only if there is a whiteout. |
| MergedDir.NotSeenOrHidden | utils/overlayfs/namei.c:1148-1153 | For a name that is not seen, no lower entry is overlooked by taking the answer from the whiteout. |
| MergedDir.ChildPresentIff | utils/overlayfs/namei.c:221-303 | A name is found by lookup if and only if its topmost entry in the merged directories is not a whiteout. |
| MergedDir.VisibleIffLookup | utils/overlayfs/readdir.c:343-377 | A name in the merged list is visible if and only if lookup finds it. |
| MergedDir.TypesAreShown | utils/overlayfs/readdir.c:143-171 | An entry of the merged list is a directory or a whiteout if and only if the topmost entry of its name is, and a visible one is a directory if and only if lookup finds a directory. |
| SearchTree.CompareIsOrder | utils/overlayfs/readdir.c:66-90 | Comparing prefixes and then lengths is a total order on names. |
| SearchTree.InOrderIsSorted | utils/overlayfs/readdir.c:173-195 | An ordered tree holds its names in dictionary order, and so each once. |
| SearchTree.Find | utils/overlayfs/readdir.c:92-111 | The search finds a name if and only if it is in the tree. |
| SearchTree.InsertKeepsOrder | utils/overlayfs/readdir.c:66-90 | Inserting where the search ended keeps the order and adds exactly that entry. |
| Readdir.ReaddirData.AddRb | utils/overlayfs/readdir.c:173-195 | An entry is added to list and tree unless the name is there. |
| Readdir.ReaddirData.FillLowest | utils/overlayfs/readdir.c:197-215 | An entry of the lowest layer goes before the others, or is moved there. |
| Readdir.DirReadMerged | utils/overlayfs/readdir.c:343-377 | Reading all layers gives each name once, with the type it has in the topmost layer that lists it, the mark of the upper layer if that is it, and a whiteout only for a character device that is one; the names of the lowest layer come first, in its order, and then the others in the order in which they are first seen. |
| Readdir.MergedIsTop | utils/overlayfs/readdir.c:343-377 | An entry is in the list if and only if it is the topmost occurrence of its name. |
| Readdir.MergedIsList | utils/overlayfs/readdir.c:143-215 | The list built entry by entry is the one just described, which is said of the layers alone. |
| EmptyCheck.CheckEmptyDir | utils/overlayfs/readdir.c:961-1002 | The check passes if and only if lookup finds no child, and then lists exactly the whiteouts of the upper directory. |
| DirCaches.Directory.Open | utils/overlayfs/readdir.c:927-950 | A file just opened holds no cache and is at the start. |
| DirCaches.Directory.Change | utils/overlayfs/util.c:460-491 | When the tree changes, every cache of the version the directory then has still shows its names, if the directory shows other names only with a new version; the callers discharge that. |
| DirCaches.Directory.Put | utils/overlayfs/readdir.c:238-251 | Dropping a hold lowers the count, which stays the number of files that hold the cache; a cache is freed if and only if its last hold is dropped. |
| DirCaches.Directory.Reset | utils/overlayfs/readdir.c:322-341 | At the start of a listing a cache of another version is let go, and one of this version kept. |
| DirCaches.Directory.Attach | utils/overlayfs/readdir.c:393-425 | The file gets a cache of the current version, shared if there is one. |
| DirCaches.DirCache.ListFrom | utils/overlayfs/readdir.c:770-790 | Each entry that has to be looked up before it is listed is, once; those not found are marked and not listed, the first lookup that fails ends the listing, and all others are listed as far as there is room. |
| DirCaches.LookedShows | utils/overlayfs/readdir.c:458-516 | Looking entries up again keeps a cache that is true of the directory true, but for the one name whose lookup has failed. |
| DirCaches.Directory.Iterate | utils/overlayfs/readdir.c:732-794 | A listing goes on with the cache of the file, or with the one at hand, or with a new one, and shows its visible names from the position on, less the entries found stale; begun at the start it shows the directory as it is, but for the names its cache has lost. A name is lost only when its lookup fails, and that ends the listing. |
| DirCaches.Directory.Seek | utils/overlayfs/readdir.c:796-834 | A seek from the start or from here goes to that position, and the cursor with it or to the end; any other origin and a negative position are refused and change no position. At the start a cache of another version is let go, and nothing else becomes of any cache. |
| DirCaches.Directory.Release | utils/overlayfs/readdir.c:910-925 | Closing a file drops its hold, with which only a cache that nobody else holds goes, and nothing else. |
| CachedDirectories.SameVersion | utils/overlayfs/util.c:475-476 | Whatever has been done to the tree, and wherever the directory has been moved, its merged listings show the same names if its version is the same. |
| CachedDirectories.OpenDirectory.Do | utils/overlayfs/dir.c:921-1336 | After any operation anywhere, done or refused, the directory is found where the operation has left it, and every cache that has its version shows its names. |
| CachedDirectories.OpenDirectory.List | utils/overlayfs/readdir.c:732-794 | A listing begun at the start that is not cut short has exactly the names lookup finds, but for those whose lookup has failed. |
| CachedDirectories.CurrentIsTrue | utils/overlayfs/readdir.c:393-404 | A cache of the version the directory has, whoever made it and whatever has been done since, shows exactly the names lookup finds, but for those it has lost; and it has lost only names whose lookup has failed in a listing of this directory. |
| CachedDirectories.ReadThrough | utils/overlayfs/readdir.c:732-794 | However the tree changes between the pieces, what is read has each name once and only names that were there when it began. The reading ends only when nothing is left, when an operation takes the directory away, when the lookup of the entry it stands at fails, or after the last operation, with every piece full. If nothing is left, it has all names that were there at each piece, but for those its cache had lost before it began. |
| CachedDirectories.NameLost | utils/overlayfs/readdir.c:482-491 | A directory has no cache yet, and the lookup of one name fails when it is listed; nothing fails when it is listed again from the start, with no operation in between. The second listing is complete, and that name, which lookup finds, is the one that is missing. |
| Scenes.StepSound | utils/overlayfs/readdir.c:732-834 | Each action keeps the directory a merged one and every cache in use true of it: one that has its version shows the names lookup finds, but for those it has lost. |
| Scenes.WholeListing | utils/overlayfs/readdir.c:732-794 | In every run, whatever has been done before and by whichever files, a listing begun at the start that is not cut short has exactly the names lookup finds then, but for those its cache has lost. |
| Scenes.LostHasFailed | utils/overlayfs/readdir.c:482-491 | In every run a cache has lost only names it had lost at the beginning and names that the log of listings shows as failed since. |
| Scenes.FailingHasFailed | utils/overlayfs/readdir.c:770-780 | What the log shows as failed is the name whose lookup failed in that listing. |
| Scenes.NothingMissing | utils/overlayfs/readdir.c:732-794 | In a run that begins without caches and in which no lookup fails, every listing begun at the start that has room for more has exactly the names lookup finds. |
| Scenes.PiecesTogether | utils/overlayfs/readdir.c:732-794 | In every run, whatever operations are done between the pieces and whichever other files read from the same cache, the pieces that one file has read since it began at the start have together each name once and only names that were there then; and once a piece is not cut short, all names that were there at every action in between, but for those the cache has lost. |
| Scripts.Script | utils/overlayfs/readdir.c:732-950 | Every script of opening, listing, seeking and closing any number of files and of operations in between makes a run as `Scenes` says, over the caches the files share, and ends early only at an operation that takes the directory away. |
| Changes.CopyDoesNotShow | utils/overlayfs/copy_up.c:791-862 | A copy put above its lower original changes nothing that is seen at or below it. |
| Changes.CreateShows | utils/overlayfs/dir.c:334-373 | Putting a new object where none is seen, with a new directory opaque where there is something to merge, adds exactly that object, and nothing below it. |
| Changes.HideShows | utils/overlayfs/dir.c:787-891 | Taking an entry away, or covering it with a whiteout where lower layers have the name, makes exactly that name and what is below it absent. |
| Changes.MoveShows | utils/overlayfs/dir.c:1118-1336 | Moving an entry that means the same under its new parent, leaving behind nothing or a whiteout, is the plain rename of the merged tree. |
| Changes.SwapShows | utils/overlayfs/dir.c:1118-1336 | Swapping two such entries is the plain exchange. |
| Marks.RedirectKeepsLowers | utils/overlayfs/dir.c:1087-1116 | The redirect given to a directory before a move finds the lower directories it has. |
| Marks.WhenReady | utils/overlayfs/dir.c:1060-1116 | A directory that is opaque, has nothing to merge here or there, stays under its parent with a relative redirect, or has an absolute one, means the same under the new parent. |
| Whiteouts.MoveStaysClean | utils/overlayfs/dir.c:1155-1167 | Moving an entry, with a whiteout left behind only where it hides something, leaves no whiteout that hides nothing, in what is moved or anywhere else. |
| Whiteouts.CleanupStaysClean | utils/overlayfs/dir.c:1303-1304 | So does moving it in exchange for a whiteout that is then taken away. |
| Namespace.Overlay.CopyUp | utils/overlayfs/copy_up.c:1024-1066 | The loop from the top copies up whatever on the path has no upper object, ends, and changes no stack by anything that can be seen, wherever it fails. |
| Namespace.Overlay.DirModified | utils/overlayfs/util.c:460-483 | The version of a directory grows if and only if it is listed as a merged one or a copied-up entry is concerned; every other inode stays. |
| Namespace.Overlay.Create | utils/overlayfs/dir.c:584-658 | A creation that succeeds adds exactly the object to the merged tree; one that fails leaves it as it was, but for the failure with the object in place, where it does so if and only if the object can be taken away and no whiteout hid anything; an object that cannot is there as if created. No whiteout that hides nothing is left. |
| Namespace.Overlay.CreateOverWhiteout | utils/overlayfs/dir.c:475-582 | The same where a whiteout is replaced. |
| Namespace.Overlay.WhiteoutLost | utils/overlayfs/dir.c:562-566 | After the object is taken away and the whiteout not put back, the merged tree is unchanged if and only if nothing was below it. |
| Namespace.CoveredHappens | utils/overlayfs/dir.c:562-566 | An upper layer and a lower layer for which that failure shows a file that was not seen. |
| Namespace.Overlay.RemoveUpper | utils/overlayfs/dir.c:841-891 | Removing the upper entry where nothing is below it is the plain removal, and clears a merged directory first. |
| Namespace.Overlay.RemoveAndWhiteout | utils/overlayfs/dir.c:787-839 | Replacing the entry by a whiteout is the plain removal whatever the lower layers hold. |
| Namespace.Overlay.Remove | utils/overlayfs/dir.c:921-975 | A removal that succeeds makes exactly that name absent, and of a directory only if its merged listing is empty, and leaves no whiteout that hides nothing; one that fails changes nothing that is seen. If no step on the upper filesystem fails and every whiteout there was hid something, it fails if and only if it is of a directory that is not empty. |
| Namespace.StrayStays | utils/overlayfs/dir.c:889-898 | An upper and a lower layer in which an empty directory cannot be removed, because of a whiteout that hides nothing. |
| Namespace.Overlay.SetRedirect | utils/overlayfs/dir.c:1087-1116 | A redirect that stays right after the move is set, without anything showing; if no step on the upper filesystem fails, it is refused if and only if the directory leaves its parent, has no absolute redirect yet, and the text of its lower path is longer than the maximum. |
| Namespace.Overlay.Rename | utils/overlayfs/dir.c:1118-1336 | Every successful rename or exchange makes the merged tree exactly the old one with the subtree moved or the two swapped, a directory being replaced only if its merged listing is empty and a merged one moved only with redirects on and a lower path that is not too long; every failing one leaves the merged tree as it was. If no step on the upper filesystem fails, no whiteout that hides nothing is left, and it fails only for one of the listed reasons. |
| Namespace.Overlay.MakePlan | utils/overlayfs/dir.c:1136-1173 | A whiteout stays at the old name if and only if lower layers have something there that would show, and a directory target is empty or is left to the upper filesystem to refuse. |
| Namespace.Overlay.UpperRename | utils/overlayfs/dir.c:1295-1301 | The step on the upper filesystem, with the whiteout or the swapped entry it leaves behind. |
| Namespace.Overlay.RefusedForAReason | utils/overlayfs/dir.c:1239-1298 | If no step on the upper filesystem fails, a rename is refused only for a merged directory where redirects are off or its lower path is too long, a target directory that stays, or two names that are nested or one file. |
| Inodes.NotedThenCarried | utils/overlayfs/dir.c:1310-1313 | Whatever has been noted of directories, the parents of a rename say, stays noted when the inodes move with their directories: each that is still there has its old version, or a newer one if it was noted. |
| Versions.EntryTells | utils/overlayfs/dir.c:275-283 | A change of one entry whose parent is noted leaves every merged directory with its names or with a new version. |
| Versions.RemoveTells | utils/overlayfs/dir.c:828-874 | So does a removal. |
| Versions.MoveTells | utils/overlayfs/dir.c:1310-1313 | So does a rename or an exchange, also for the directories it moves. |
| Runs.Step | utils/overlayfs/dir.c:921-1336 | An operation that took effect was legal, took away no directory that was not empty, and did what it does to a plain tree; so did a creation that failed and left its object. Any other that fails leaves the merged tree as it was if and only if it is not a creation undone where a whiteout hid something. If no step on the upper filesystem fails, a creation is refused only when its inode cannot be set up, a removal and a rename only for the reasons above. A merged directory has its names or a new version. |
| Runs.RunShows | utils/overlayfs/dir.c:921-1336 | After any run of operations, some done and some failed, in which no creation has been undone where a whiteout hid something, the merged tree is what those that took effect make of a plain tree. |
| Runs.RunTells | utils/overlayfs/util.c:460-483 | After any run a merged directory that is still there, wherever it is now, shows the names it showed, or its version has grown. |
| Runs.Run | utils/overlayfs/dir.c:921-1336 | The operations, one after the other, make such a run; and if no step on the upper filesystem fails, each that failed was not legal or had one of its reasons, and from an upper layer in which every whiteout hides something each removal fails if and only if it is of a directory that is not empty. |
| CopyUpProtocol.StepKeeps | utils/overlayfs/copy_up.c:956-1066 | Every step of every thread keeps the invariant that ties locks, what each thread knows, upper inodes and upper names. |
| CopyUpProtocol.EveryRunIsSafe | utils/overlayfs/copy_up.c:791-862 | From any upper layer nobody is working on, in every state of every interleaving an inode gets an upper inode at most once, a name is linked at most once, an upper name has an upper parent, no two threads work on one inode, and a finished copy-up has its whole path in the upper tree. |
| CopyUpProtocol.NothingIsLost | utils/overlayfs/copy_up.c:956-1022 | Over every interleaving each inode reads as the last thing written to it, or as it did at first: copy-up is never noticed, and no write is lost. |
| CopyUpProtocol.RoundProgress | utils/overlayfs/copy_up.c:1024-1066 | A round that ends leaves strictly fewer ancestors to be copied up. |
| CopyUpProtocol.EveryThreadEnds | utils/overlayfs/copy_up.c:1024-1066 | Each step of a thread brings it nearer to its end, in a well-founded order. |
| CopyUpProtocol.NobodyIsSetBack | utils/overlayfs/util.c:531-585 | No step of another thread or of a writer takes a thread further from its end. |
| CopyUpProtocol.NoDeadlock | utils/overlayfs/util.c:568-585 | As long as a thread that has started is not done, it can take its next step, or it waits for a lock whose holder can, without a failure and without anybody starting. |
| CopyUpProtocol.EveryRunEnds | utils/overlayfs/copy_up.c:1024-1066 | However the threads that have started are interleaved and whichever of them fail, they take no more steps than there was to do; and once none of them can go on, each is done or has given up. |
| CopyUpProtocol.EveryThreadFinishes | utils/overlayfs/copy_up.c:956-1066 | However they are interleaved and whichever of the others fail, once no thread can go on, one that has started and has neither failed nor given up is done, and what it was to copy up has been, with its whole path. |
| CopyData.CopyUpData | utils/overlayfs/copy_up.c:196-293 | With any legal answers to the hole search, any short splices and any partial clone, the loop keeps left plus position equal to the length, ends, copies nothing wrong and passes over only zeros; a file that is one hole is not written. It fails only with a signal seen at its last turn, a splice that failed there, or the sync, and each of these makes it fail. |
| CopyData.CopyUpFile | utils/overlayfs/copy_up.c:295-303 | After the size is set, a copy that succeeded reads byte for byte as the original if no splice claimed the end too early, and in any case as a prefix of it followed by zeros. |
| NlinkText.TextRoundTrip | utils/overlayfs/inode.c:920-946 | For every 32-bit difference the text fits the 13-byte buffer and reads back as itself. |
| NlinkText.Int32Sum | utils/overlayfs/inode.c:974-975 | Converting to a signed word before or after adding is the same. |
| Nlink.ReadBack | utils/overlayfs/inode.c:948-986 | A note read after the links it counts from have changed gives the count changed with them, if and only if that is in the range of an int. |
| Nlink.StaysRight | utils/overlayfs/inode.c:886-911 | A note written relative to the upper inode still gives the number of names when upper names come and go, and one relative to the lower inode when names are copied up. |
| Nlink.StepKeepsRight | utils/overlayfs/inode.c:886-911 | Each step on disk (a note, an index entry made or removed, a name copied up, linked, moved in, removed or renamed, a link made, taken away or left in the work directory, the repair, a mount), taken when the last note allows it, leaves a note from which the number of names, less the links left that it has counted, can be told. |
| Nlink.HistoryIsSane | utils/overlayfs/inode.c:886-911 | So does every history of such steps. |
| Nlink.NoneLeftNoneCounted | utils/overlayfs/dir.c:578 | If every link made in the work directory is moved or taken away again, no note counts one. |
| Nlink.NextMountIsRight | utils/overlayfs/namei.c:590-598 | The next mount reads the number of names if and only if there is none or the last note has counted no link left in the work directory; then it reads none, which makes an index entry an orphan, if and only if there is none. |
| Nlink.EveryStopIsRight | utils/overlayfs/inode.c:886-911 | In every state of every history of disk steps, each taken only when the last note allows it, the next mount reads the number of names less the links left that the last note has counted; and the count read there and then is one more for a link that waits in the work directory or has been left there since. If no link is ever left, the next mount is always right. |
| Nlink.ReadsTrue | utils/overlayfs/inode.c:948-986 | The text of a note, parsed and added to the links of the inode it names in 32-bit arithmetic, gives the number of names, one more for a link that waits in the work directory or has been left there since the note, and one fewer for one that is gone since. |
| Nlink.TempIsCounted | utils/overlayfs/dir.c:512-560 | A disk with a link in the work directory on which the count is one too many. |
| Nlink.LeftIsCounted | utils/overlayfs/dir.c:578 | A disk with a link left in the work directory for which a note makes the next mount count one name too few. |
| Nlink.OneTooFew | utils/overlayfs/dir.c:738-780 | A run of two calls, a hard link over a whiteout that fails and whose link cannot be taken away and a removal that fails, after which there are two names and the next mount counts one. |
| Nlink.OverlayInode.SetNlink | utils/overlayfs/inode.c:920-946 | Writing the note is one disk step, or none if it fails; the text never overruns the buffer. |
| Nlink.OverlayInode.LinkUp | utils/overlayfs/copy_up.c:524-563 | Copying up one more alias is three disk steps, of which a failure leaves the first ones; in none of the states on the way do the names change. |
| Nlink.OverlayInode.NlinkStart | utils/overlayfs/util.c:892-943 | The name has an upper alias and the note counts from the upper inode before anything is changed. |
| Nlink.OverlayInode.NlinkEnd | utils/overlayfs/util.c:826-884 | The index entry goes with the last name; if links are left in the work directory it stays, the count becomes the number of those links, and the note is written anew. If the step on disk fails the disk stays as it was. |
| Nlink.OthersLeft | utils/overlayfs/dir.c:899-919 | When a name goes, the count is still above the limit the guard sets, whichever aliases are in the cache: the guard never holds up a drop that is due. |
| Nlink.OverlayInode.Remove | utils/overlayfs/dir.c:921-975 | A name goes, and the count with it, if and only if the step on disk succeeds, the count of an inode without names being the links left in the work directory; with the last name the index entry goes too, or, if links are left, stays as one that the next mount takes for an orphan. What has been on disk before stays in the history, and what is added are disk steps. |
| Nlink.RemoveAll | utils/overlayfs/util.c:945-958 | When all names have been removed, each step succeeding, no index entry is on disk, or links are left in the work directory and the next mount takes it for an orphan. |
| Nlink.OverlayInode.Link | utils/overlayfs/dir.c:738-780 | A name is added, and counted, if and only if the link succeeds, in place or through the work directory, where the disk has been in a state with a link waiting; a link that is made there and can neither be moved nor taken away is left. |
| Nlink.OverlayInode.Remount | utils/overlayfs/inode.c:1204-1210 | From any state in the history with more names than links left that the last note has counted, mounting again gives the number of names less those; everything goes on from there with the true count if and only if there are none. |
| Ino.FileSystems.GetFsid | utils/overlayfs/super.c:1698-1742 | A file system has the id it had, or gets the next one. |
| Ino.FileSystems.GetLayers | utils/overlayfs/super.c:1744-1862 | Layers get one id if and only if they are on one file system; no high bits are set aside if everything is on one file system or they are not to be, and otherwise as many as the mount has settled on or else the fewest that hold the ids, and one more. |
| Ino.MappedIs | utils/overlayfs/inode.c:109-136 | The shifted id fits 64 bits and touches neither the number nor the bit below it. |
| Ino.KStat.MapDevIno | utils/overlayfs/inode.c:109-165 | stat shows the number and device that the specification gives for the mode. |
| Ino.StatIs | utils/overlayfs/inode.c:109-165 | That is: the number itself on the device of the overlay if everything is on one file system; there too the number with the id above it if it leaves the high bits free; else the inode's own number for a directory, and the device set aside for the file system for anything else. |
| Ino.Inode.MapIno | utils/overlayfs/inode.c:786-831 | The inode gets the number the specification gives, from the next number of the counter, which skips zero, where one is drawn. |
| Ino.InodeNumberIs | utils/overlayfs/inode.c:786-831 | The inode's number is the one stat shows; that of a directory whose real number is too big lies where no real number is mapped to. |
| Ino.OneSource | utils/overlayfs/inode.c:820-831 | A number on the overlay's device comes from one real inode or was drawn: the ranges are disjoint. |
| Ino.StatIsUnique | utils/overlayfs/inode.c:109-165 | Two objects that share no real inode never have the same device and number, in any mode. |
| Ino.ReaddirAgreesWithStat | utils/overlayfs/readdir.c:428-446 | readdir and stat show one number, except exactly for a directory whose number is too big and is not the one drawn for it. |
| Export.LookupRealAncestor | utils/overlayfs/export.c:492-538 | The answer is that of the cache for the nearest directory, from the given one upwards, for which it has one, be it renamed in the overlay; the root of the overlay only if there is none below the root of the layer. |
| Export.FindNext | utils/overlayfs/export.c:571-607 | The directory to connect next is the child of the connected one on the way down, one step nearer. |
| Export.LookupReal | utils/overlayfs/export.c:545-642 | While nobody renames, the result is what looking up name after name from that nearest directory leads to, or the failure met there first; others may rename at any time, and then a directory is returned only if it had the wanted real directory at that layer in the last look that was taken. |
| Export.NearestIsOne | utils/overlayfs/export.c:507-530 | There is one nearest directory and one answer. |
| Export.DecodeUpper | utils/overlayfs/export.c:545-642 | For an upper directory the result is the overlay directory at the same path. |
| MountFeatures.Config.ParseOpt | utils/overlayfs/super.c:525-810 | For every sequence of options and every default: the mount is refused if and only if an option is malformed or two of them conflict; otherwise each feature is exactly what the closed form says, and what an option asked for is had, but for export without an upper layer, which is given up if and only if redirects are followed. What a redirect option and what the defaults alone lead to is said outright. |
| MountFeatures.DefaultsDecide | utils/overlayfs/super.c:339-342 | With no option about a feature, redirects are followed if the module parameters say that they are made, or always followed, or metadata-only copy-up is on; and the other features follow from that. |
| MountFeatures.Config.MakeWorkdir | utils/overlayfs/super.c:1421-1549 | The index survives if and only if there is no work directory to test with or the upper filesystem has attributes and file handles, and export if and only if the index does. |
| MountFeatures.Config.LookAtHandles | utils/overlayfs/super.c:1009-1016 | The index and export survive if and only if all lower layers have file handles or neither is on and of use. |
| MountFeatures.Config.LookAtUuids | utils/overlayfs/super.c:1711-1728 | They survive if and only if the uuid of every lower layer is of use. |
| MountFeatures.Config.FillSuper | utils/overlayfs/super.c:2035-2210 | For every sequence of options, every default and every set of capabilities: the mount succeeds if and only if the options are accepted and name the directories needed, its features are exactly those wanted that the layers can support, and they are consistent. |
| MountFeatures.LastCounts | utils/overlayfs/super.c:536-689 | Of each option the last value counts. |
| Promote.PromoteTree | mbroker/daemon/promote.c:27-100 | The recursive walk promotes exactly the files of the specification, in order. |
| Promote.VisitedOnce | mbroker/daemon/promote.c:27-100 | A file is promoted once if it is at most 100 MB, not inside a `.git` and its path fits the buffer, and not at all otherwise. |
| Promote.Enqueue | mbroker/daemon/promote.c:102-154 | Splitting a tree pushes exactly the specified tasks and counts them. |
| Promote.TasksCover | mbroker/daemon/promote.c:102-154 | The tasks together visit what one walk over the tree would, in the same order. |
| Promote.TasksDisjoint | mbroker/daemon/promote.c:102-154 | No task's subtree contains another's. |
| Promote.TaskQueue.Push | mbroker/include/task_queue.h:38-53 | A push appends one task, whether or not the array had to grow. |
| Promote.TaskQueue.Next | mbroker/include/task_queue.h:56-63 | Each call takes the next index, or says that there is none. |
| Promote.PromoteQueued | mbroker/daemon/promote.c:234-237 | Without workers the tasks are done in turn, all of them. |
| Promote.PromoteMountpoint | mbroker/daemon/promote.c:169-249 | Splitting the mount and doing the tasks in turn promotes what one walk over the mount would, in that order. |
| PromoteWorkers.PromotedExactlyOnce | mbroker/daemon/promote.c:156-167 | However the workers are interleaved no file is promoted twice, and when all have stopped each file that is to be promoted has been, once, and no other. |
| PromoteWorkers.StepsRunOut | mbroker/daemon/promote.c:156-167 | Every step leaves less to do: each worker stops. |
| PromoteWorkers.NobodyIsStuck | mbroker/include/task_queue.h:56-63 | A worker that has not stopped can always go on. |
| Glob.MatchesSegments | mbroker/daemon/post_mount.c:151-174 | The matcher says yes if and only if the path can be cut into runs, one matching segment for each plain pattern segment and any number for each `**`. |
| Glob.SplitSegments | mbroker/daemon/post_mount.c:176-192 | Splitting gives the longest runs without a slash, cut to the sizes of the buffers. |
| Glob.SegmentsAre | mbroker/daemon/post_mount.c:176-192 | The segments are not empty, hold no slash, are together the text without its slashes, and are as many as there are runs. |
| Glob.PatternMatches | mbroker/daemon/post_mount.c:194-209 | Within the limits of the buffers a pattern matches a path if and only if the path fits it; beyond them the same holds of what is left in the buffers. |

## Left out

- Kernel plumbing: credentials, permission checks, RCU and memory barriers, dentry and inode reference counts, revalidation, allocation failure, trap inodes and errors from weird dentries.
- The upper filesystem's create, link, unlink, rename, exchange and rename with whiteout are single steps that happen or fail.
- A file's id in `Tree` stands for its inode and its content; attributes, times, extended attributes other than the overlay's own, and access control lists are not modelled.
- Metadata-only copy-up: the modelled mounts exclude it, except for the feature flags in `MountFeatures`.
- Following of redirects turned off, verification of origins (taken as always matching), and repair of origins during lookup.
- Redirects in the trees are well formed; malformed text is covered by the validator alone. A text of a single `.` or `..`, which the validator accepts, is refused by the lookup of the underlying layer and does not occur in a tree.
- Names longer than a layer allows, and path components with a zero byte.
- Races in which somebody else changes the upper layer below a running namespace operation; the checks that detect them are part of `Namespace.Overlay.Commit`.
- Index directories, whiteouts in the index and file handles of non-directories; in `Namespace` the flag `indexed` only forces the copy-up that keeps a link count.
- `CopyUpProtocol`: no renames run beside the copy-ups, so parents are fixed; the index entry of a directory, made before the directory is moved into place, is part of that step; disconnected dentries, which are copied up to the index only, are left out.
- `CopyUpProtocol` is a state machine over values, because several threads take part; its steps are not methods on a heap.
- Nlink.OverlayInode.Remount: after a mount that has counted too few names nothing more is said of the inode; nor of one whose names are no more than the links its note has counted, for which the mount falls back or takes the index entry for an orphan.
- `Nlink`: starts with the first note (before it there is none), needs at least two lower links (with one, the code ignores the note), and takes lower layers as unchanged. Counts of `Link` stay below the range of an int.
- `SearchTree` is not rebalanced; the order it keeps does not depend on that.
- Version numbers of directories do not wrap, and the check of suspected whiteouts is done when an entry is made instead of afterwards.
- The numbers and types that a listing gives with each name: the types are those of the cached entries, and only the names are listed in the model.
- Listings of directories that are not merged, and of files opened while a directory was not; the cache for impure directories. Of the update of inode numbers in a listing only the lookup it makes is modelled; which entries need it is a parameter.
- The overlay inode of an object left by a creation that failed is made when the object is looked up, and nothing is said of it before.
- Inodes of directories stay in the cache: a version does not start afresh while the directory is there. Whether an entry of an ordinary file has an origin, which makes a change of it count as impure, is left open: the versions told of hold either way.
- In `CachedDirectories.ReadThrough` the file that is read is the only one listed meanwhile; `Scenes.PiecesTogether` is the statement without that.
- `Scenes`: one client at a time acts on the directory, in any order of its files; listings of two files that run at the same time take turns under the lock of the directory.
- `Export.LookupReal`: the code may go round for ever while others rename, so the model bounds the rounds and says when the bound is not reached; each look at the layers sees one moment. Decoding of handles to real directories is taken as given.
- `Ino.StatIsUnique`: numbers drawn for directories repeat after the counter wraps; objects are compared before that.
- The splitting of the option string, the options that do not take part in the dependencies, and failures of a mount that are not about options: layers in use, unreadable or too deep, a remote upper filesystem without the needed features, an index directory that cannot be verified.
- `Promote`: the tree does not change while it is walked, and no push or open of a directory fails; marks on directories are not modelled, because interior directories above the split get none.
- Matching of one segment (`fnmatch`) is a parameter of `Glob`.
- The rest of the daemon: sockets, the protocol, configuration, mounting, ownership changes, the scan for whiteouts and the exports file.
- Everything under `model/`.
