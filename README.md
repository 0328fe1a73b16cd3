# maildirmerge tools in Dafny

maildirmerge is a set of command-line tools that work on Maildir mail stores:

- `maildirmerge` moves the messages of source maildirs into a target maildir.
  - It consults the mail-server backend (Courier, Dovecot) to decide how POP3 and seen messages are handled.
  - It can transfer POP3 UIDLs.
- `maildirreconstruct` rebuilds one maildir from several partial copies by hard-linking.
- `maildircheck` checks that a maildir and its sub-folders have uniform ownership.
- `maildirarchive` moves old messages into per-period archive folders.
- `maildirpurge` removes old messages.
- `maildirdate2filename` renames messages so that their names carry the time of their `Date:` header.
- `maildirsizes` totals the sizes announced in message names.

The project models these tools and their shared parts:
- the backend registry and the two backends;
- the file comparison helper.

Each tool is modelled as pure specification functions over a filesystem state. Each is also modelled as methods that change a `FileSystem` object step by step, as the C code does. Each method is proved equal to its specification function. The listed properties are proved as lemmas about those functions.

The filesystem the tools call is the module `Fs`. It is a small model of the POSIX calls the tools make:
- `openat`, `fstatat`, `mkdirat`, `linkat`, `renameat` (with `RENAME_NOREPLACE`) and `unlinkat`;
- `readdir` (as a listing with `d_type`), `read` and `write`.

The state is a map from inode numbers to directories and files. A descriptor is the inode number it refers to, and every call returns `Ok(value)` or `Err(errno)`. `Fs` stands for the operating system and is not part of the repository, so it has no rows below.

Other modules:
- `Strings` models the C string functions the tools rely on: `strtoull`, `strchr`, `strstr`, and `printf("%llu")`.
- `Wrappers` holds `Option`.

The project's modules:
- `FileTools`: `src/filetools.c`, `files_identical`.
- `TypeRecord`: the type descriptor and list node, `include/servertypes.h`, including `maildir_type_list_free`.
- `ServerTypes`: `src/servertypes.c`, the registry.
- `Courier`: `src/server_courier.c`.
- `Dovecot`: `src/server_dovecot.c`.
- `Merge`: `src/maildirmerge.c`.
- `Reconstruct`: `src/maildirreconstruct.c`.
- `Check`: `src/maildircheck.c`.
- `Archive`: `src/maildirarchive.c`.
- `Purge`: `src/maildirpurge.c`.
- `Date2Filename`: `src/maildirdate2filename.c`.
- `Sizes`: `src/maildirsizes.c`.

Where the usage text and the code disagree, the model follows the code:
- **Renaming direction (`maildirdate2filename`).** The usage text says a file is renamed when its name's time and its header time *differ* by more than the minimum. The code renames only when the name's time is at least the header time plus the minimum, computed in 64-bit unsigned arithmetic. `Date2Filename.Threshold` models that wrap-around.
- **Info version (`message_seen`).** A message whose info version is not `2` draws the warning "assuming not seen". The code then scans the flags anyway, so `Merge.SeenOf` accepts any version.
- **Redirect folder (`maildirmerge`).** The folder for seen messages is created under the target's `cur/`, because `maildir_create_sub` is passed the `cur/` descriptor. Messages are renamed into that folder's top level. The model does the same.

## Model

| member | source | states |
|---|---|---|
| FileTools.Code | src/filetools.c:41-100 | files_identical returns -1, 0 or 1 |
| FileTools.Window | src/filetools.c:77-95 | the compared window of a mapping never exceeds the first file's size |
| FileTools.Contents | src/filetools.c:65-75 | content is available exactly when openat of the path succeeds |
| FileTools.StatErrors | src/filetools.c:47-56 | a failed stat of either file (when no record is supplied) gives -1; supplied records are used as given |
| FileTools.SizeAndIdentity | src/filetools.c:58-63 | different sizes give "different"; equal sizes with the same device and inode give "identical" under the shortcut, before any byte is read |
| FileTools.DecideSymmetric | src/filetools.c:41-100 | the verdict does not depend on the order of the two files |
| FileTools.DecideCompares | src/filetools.c:77-99 | with equal sizes and both files open, the verdict is "identical" exactly when the two files' bytes agree, and never -1 |
| FileTools.SameInodeIdentical | src/filetools.c:41-100 | a file compared with another name of itself is identical, with or without the shortcut |
| FileTools.AsWrittenIgnoresSecondFile | src/filetools.c:84 | as written the second mapping is of the first file, so equal-size files are always judged identical |
| FileTools.AsWrittenCounterexample | src/maildirreconstruct.c:120 | two one-byte files 0 and 1 are identical as written and different under the corrected comparison |
| FileTools.FilesIdenticalSteps | src/filetools.c:41-100 | the return code is the verdict's code; at most two files are opened and none stays open; nothing is opened unless both stats succeed with equal sizes and, under the shortcut, different inodes; the verdict is that of the corrected comparison of the src/filetools.c:84 finding |
| TypeRecord.ClosedByExact | include/servertypes.h:47 | exactly the list nodes holding data whose type has a close callback are closed, each with its own data |
| TypeRecord.ListFree | include/servertypes.h:47 | maildir_type_list_free makes exactly those close calls in list order |
| ServerTypes.DetectCall | src/servertypes.c:34 | a detect callback exits (None) exactly when the folder cannot be opened |
| ServerTypes.DovecotImpliesCourier | src/server_dovecot.c:27-42 | a folder Dovecot detects (courierimapuiddb present) is also detected by Courier, so both backends trigger together |
| ServerTypes.OpenCall | src/maildirmerge.c:482-483 | a backend's open records the folder and descriptor it was given |
| ServerTypes.GetUidlCall | include/servertypes.h:25-27 | pop3_get_uidl returns a UIDL exactly for basenames the backend knows |
| ServerTypes.FindTypeExits | src/servertypes.c:28-40 | maildir_find_type ends the process exactly when the registry is non-empty and the folder cannot be opened |
| ServerTypes.FindTypeExact | src/servertypes.c:28-40 | otherwise it returns fresh nodes with no data for exactly the registered types whose detect reports the folder, never more than registered |
| ServerTypes.FindTypeSound | src/servertypes.c:28-40 | every node found is fresh (no data) and holds a type whose detect reports the folder; no more nodes than registered |
| ServerTypes.FindTypeComplete | src/servertypes.c:28-40 | a type is found exactly when it is registered and its detect reports the folder |
| ServerTypes.Prepended | src/servertypes.c:23-26 | registering n types builds a list of n nodes |
| ServerTypes.FindTypeInRegistrationOrder | src/servertypes.c:9-40 | since register prepends and find_type prepends again, the types found come out in registration order |
| ServerTypes.AllMetafilesExact | src/servertypes.c:42-68 | a name is listed exactly when some registered type lists it as a metadata file |
| ServerTypes.AllMetafilesPrefix | src/servertypes.c:47-55 | counting over a prefix of the registry gives no more names than the whole |
| ServerTypes.ShippedMetafiles | src/servertypes.c:42-68 | with Courier and Dovecot registered, in either order, the list is Dovecot's nine metadata files |
| ServerTypes.TerminatorOutOfBounds | src/servertypes.c:56 | as written the allocation holds only count pointer slots on 4- and 8-byte pointers, so the NULL stored at index count is out of bounds |
| ServerTypes.SlotsNeeded | src/servertypes.c:56-65 | the corrected allocation has a slot beyond the last name for the terminator |
| ServerTypes.Registry.constructor | src/servertypes.c:6 | the registry starts empty with no cached metafile array |
| ServerTypes.Registry.Register | src/servertypes.c:23-26 | register_maildir_type prepends a node with no data |
| ServerTypes.Registry.FindType | src/servertypes.c:28-40 | the walk over the registry returns the specified list of detected types |
| ServerTypes.Registry.GetAllMetafiles | src/servertypes.c:42-68 | the first call allocates a fresh array holding every type's metadata files, NULL-terminated, and caches it; later calls return the cached array unchanged |
| ServerTypes.CountMetafiles | src/servertypes.c:47-55 | the counting loop gives the number of names all registered types list |
| ServerTypes.CopyNames | src/servertypes.c:57-65 | copying one type's names keeps the slots already filled and stores the new names right after them, in order |
| Courier.Detect | src/server_courier.c:15-31 | exits when the folder cannot be opened; otherwise detects exactly when courierimapuiddb or courierpop3dsizelist is present |
| Courier.Open | src/server_courier.c:34-46 | the backend data records the folder and the descriptor |
| Courier.Pop3Detected | src/server_courier.c:55-61 | a folder Courier reports as POP3 is one Courier detects |
| Dovecot.Detect | src/server_dovecot.c:27-42 | exits when the folder cannot be opened; otherwise detects exactly when courierimapuiddb is present |
| Dovecot.MetafilesDistinct | src/server_dovecot.c:45-61 | Dovecot lists nine distinct metadata files |
| Dovecot.Open | src/server_dovecot.c:64-77 | the data records folder and descriptor with an empty UIDL list |
| Dovecot.ChunkLen | src/server_dovecot.c:99 | one fgets reads at least one and at most 2047 bytes |
| Dovecot.ChunkIsLine | src/server_dovecot.c:99-102 | a line that fits the buffer is read by one fgets and compared without its newline |
| Dovecot.ChunkIsLastLine | src/server_dovecot.c:99-102 | a final line without newline that fits is read whole |
| Dovecot.ListedIsLine | src/server_dovecot.c:99-105 | when every line fits and there is no NUL byte, the fgets loop finds a name exactly when it is a line of the file |
| Dovecot.OneLine | src/server_dovecot.c:156-157 | a name followed by a newline is one line |
| Dovecot.LinesAppend | src/server_dovecot.c:156-157 | appending a name and newline to empty or newline-terminated text adds exactly that line |
| Dovecot.AppendedIsListed | src/server_dovecot.c:144-157 | after the append the loop finds the new name and every name it found before |
| Dovecot.ScanLines | src/server_dovecot.c:99-107 | the fgets loop computes exactly whether the name is listed |
| Dovecot.IsSubscribed | src/server_dovecot.c:80-108 | dovecot_imap_is_subscribed is 1 exactly when the name is listed; a subscriptions file that cannot be opened gives 0 |
| Dovecot.CopyInto | src/server_dovecot.c:145 | the sendfile loop appends exactly the old file's bytes to the temporary file and changes nothing else |
| Dovecot.TempCreated | src/server_dovecot.c:130-132 | an exclusive create of tmp/name enters a new empty file under tmp and changes nothing else |
| Dovecot.ReadAfterCreate | src/server_dovecot.c:132-145 | creating the temporary file does not change what any old file reads |
| Dovecot.CreatedIsFilled | src/server_dovecot.c:132 | the created state is the temporary file with no data yet |
| Dovecot.FilledAppend | src/server_dovecot.c:156-157 | each write extends the temporary file's data by the bytes written |
| Dovecot.FilledExtend | src/server_dovecot.c:145 | the sendfile copy extends the temporary file's data |
| Dovecot.TempRemoved | src/server_dovecot.c:150 | unlinking the temporary file again restores every old inode |
| Dovecot.SubsFileOrMissing | src/server_dovecot.c:118-123 | a subscriptions entry that open and read both accept is a regular file |
| Dovecot.RenameEnds | src/server_dovecot.c:160 | after the copy both paths of the rename resolve as before the create |
| Dovecot.TempInstalled | src/server_dovecot.c:160 | the rename over subscriptions succeeds and changes only the folder's entry, which names the new file |
| Dovecot.InstalledIsSubscribed | src/server_dovecot.c:111-165 | once installed the name is subscribed, and every name subscribed before still is |
| Dovecot.FillAndInstall | src/server_dovecot.c:144-164 | after copy, append and rename, the subscriptions file is replaced by the old bytes plus the name and a newline; on a failed copy or rename the temporary file is removed and every old inode restored |
| Dovecot.CreateTemp | src/server_dovecot.c:130-132 | the create is retried with the next draw while it fails with EEXIST; a failure changes nothing |
| Dovecot.Subscribe | src/server_dovecot.c:111-165 | an open failure other than ENOENT, a failed temporary create or exhausted draws change nothing; every draw before the last used hit EEXIST; after a failed copy or rename every old inode is restored; on success subscriptions holds the old bytes, the name and a newline |
| Dovecot.SubscribeOpen | src/server_dovecot.c:125-165 | once the subscriptions file is open or missing: a failed or exhausted temporary create changes nothing; a failed copy or rename restores every old inode; success installs the old bytes plus the name and a newline |
| Dovecot.TempMoved | src/server_dovecot.c:160 | renaming the filled temporary file over subscriptions moves that inode to the subscriptions entry and succeeds |
| Merge.ScanFlagsIsS | src/maildirmerge.c:223-230 | the flag scan finds S exactly when S occurs before the next comma |
| Merge.MessageSeen | src/maildirmerge.c:205-232 | a seen name has a colon and a comma after it |
| Merge.SeenOf | src/maildirmerge.c:205-232 | for pre:ver,flags the result is seen exactly when S is among the flags before another comma, whatever the version |
| Merge.CheckMaildir | src/maildirmerge.c:91-109 | is_maildir holds exactly when new, cur and tmp are directories, stopping at the first that is not |
| Merge.MaildirFdAt | src/maildirmerge.c:115-141 | a descriptor is returned exactly when the folder resolves to an openable directory that is a maildir, and it is that directory |
| Merge.CreateSubSpec | src/maildirmerge.c:160-170 | in a dry run maildir_create_sub changes nothing |
| Merge.CreateSubOutcomes | src/maildirmerge.c:172-201 | outside a dry run a descriptor comes from a fresh mkdir, or on EEXIST only after validating the existing folder as a maildir; any other mkdir failure gives -1 |
| Merge.CreateSub | src/maildirmerge.c:150-202 | the method makes the calls of maildir_create_sub with the specified result |
| Merge.RouteOf | src/maildirmerge.c:361-398 | a cur message goes to the target exactly when the target is not POP3, seen merging is on, or it is unseen; it is redirected exactly when seen on a POP3 target with a redirect folder |
| Merge.SeenRouting | src/maildirmerge.c:361-398 | on a POP3 target without --pop3-merge-seen, pre:ver,flags goes to the target iff its flags lack S, else to the redirect folder or left behind |
| Merge.TargetIsPop3 | src/maildirmerge.c:284-286 | the loop asks target types in order until one reports POP3, and the result is whether any does |
| Merge.UidlKey | src/maildirmerge.c:367-370 | the UIDL key is the name before its first colon, or the whole name |
| Merge.SetsForExact | src/maildirmerge.c:377-380 | every target type with pop3_set_uidl gets the one UIDL once, in list order, and no other type does |
| Merge.Broadcast | src/maildirmerge.c:377-380 | the loop makes exactly those calls |
| Merge.Move | src/maildirmerge.c:235-245 | a dry-run maildir_move changes nothing |
| Merge.MaildirMove | src/maildirmerge.c:235-245 | the method renames as specified |
| Merge.MoveNew | src/maildirmerge.c:301-319 | the new/ readdir loop leaves the filesystem as the new/ pass specifies |
| Merge.NewPassDry | src/maildirmerge.c:301-319 | in a dry run the new/ pass changes nothing |
| Merge.NewPassFrame | src/maildirmerge.c:301-319 | the new/ pass keeps every inode and every entry whose name it does not list |
| Merge.MovableIsFile | src/maildirmerge.c:302-316 | with an honest d_type, an entry is handled exactly when it is a regular file |
| Merge.NewStep | src/maildirmerge.c:302-318 | one step moves a listed regular file to the same name in the target and touches no other name |
| Merge.NewPassMoves | src/maildirmerge.c:301-319 | outside a dry run every listed regular file ends up, as the same inode, under its name in the target, and every other listed entry stays |
| Merge.ListingHonest | src/maildirmerge.c:302-305 | readdir's d_type is honest about regular files |
| Merge.ListingNames | src/maildirmerge.c:301-319 | every entry of a directory appears exactly once in its listing |
| Merge.NewPhaseMovesAll | src/maildirmerge.c:292-321 | the whole new/ phase moves every regular file of the source's new/ into the target's new/, unless the target holds a directory or that very file under the name |
| Merge.CurStep | src/maildirmerge.c:345-398 | per entry: the redirect folder is created only for a redirected file; the NULL source type crashes exactly on moved messages with --pop3-uidl; exit(1) only from the redirect creation; left-behind messages change nothing |
| Merge.MoveCur | src/maildirmerge.c:344-399 | the cur/ readdir loop ends in the state the cur/ pass specifies |
| Merge.CurPassDry | src/maildirmerge.c:344-399 | in a dry run the cur/ pass changes no file |
| Merge.CurPassKeepsRedirect | src/maildirmerge.c:387-392 | the redirect folder is created at most once per merge and only when one is configured |
| Merge.CurPassSets | src/maildirmerge.c:363-385 | the cur/ pass only appends UIDL calls, each for a listed message routed to the target with the UIDL the source reports |
| Merge.CurPassFrame | src/maildirmerge.c:344-399 | without a redirect folder the cur/ pass keeps every inode and every unlisted entry |
| Merge.CurPassLeavesBehind | src/maildirmerge.c:395-398 | without a redirect folder, a left-behind message keeps its entry in the source cur/ |
| Merge.MergeSpec | src/maildirmerge.c:249-412 | a non-maildir source, multiple detected types or a detect exit change nothing; multiple types is reported exactly when more than one detects; an open failure sets no UIDL |
| Merge.MergeDryRun | src/maildirmerge.c:249-412 | a dry-run merge changes nothing and makes no UIDL call |
| Merge.MergeFolder | src/maildirmerge.c:249-412 | the method performs maildir_merge as specified |
| Merge.Phases | src/maildirmerge.c:292-412 | once the source is a maildir with at most one type, the merge never reports not-a-maildir, multiple types or a detect exit, and a failed open sets no UIDL |
| Merge.NewPhaseDry | src/maildirmerge.c:292-321 | a dry-run new/ phase that opens both directories changes nothing |
| Merge.CurPhaseDry | src/maildirmerge.c:335-399 | a dry-run cur/ phase that opens both directories changes nothing and sets no UIDL |
| Merge.PhasesDry | src/maildirmerge.c:292-399 | in a dry run the two phases together change nothing and set no UIDL |
| Merge.RunNewPhase | src/maildirmerge.c:292-321 | opening new/ in source and target and moving its files succeeds exactly when the new/ phase specifies so, and a failure changes nothing |
| Merge.RunCurPhase | src/maildirmerge.c:335-399 | the cur/ phase ends as specified, and a failed open changes nothing |
| Merge.MergePhases | src/maildirmerge.c:292-412 | the two phases run in order with the specified result |
| Merge.ShippedCoherent | src/server_courier.c:55-61 | both shipped backends receive their own data in is_pop3 |
| Merge.FoundCoherent | src/servertypes.c:28-40 | the types found are registered types with no data yet |
| Merge.OpenTargetsCallable | src/maildirmerge.c:480-484 | after the open loop each node keeps its type and holds data exactly when the type has open, built for the target, so every is_pop3 call gets data it can use |
| Merge.StopOf | src/maildirmerge.c:249-412 | a merge ends the process exactly on a detect exit, a redirect exit or the NULL-type crash |
| Merge.RunSpec | src/maildirmerge.c:424-498 | --pop3-merge-seen with a redirect is refused with 1 at once; exit 0 requires a usable target maildir whose types were found (or --force) |
| Merge.TargetClosesExact | src/maildirmerge.c:489-492 | exactly the target nodes whose type has close are closed, each with its own data |
| Merge.MergeAllDry | src/maildirmerge.c:486-487 | dry runs of all the merges change nothing and set no UIDL |
| Merge.RunDryRun | src/maildirmerge.c:424-498 | maildirmerge -n leaves the filesystem as it was and sets no UIDL, however it ends |
| Merge.OpenTargetList | src/maildirmerge.c:480-484 | the open loop builds the specified node list |
| Merge.MergeSources | src/maildirmerge.c:486-487 | the source loop performs the specified merges in order |
| Merge.CloseTargets | src/maildirmerge.c:489-492 | the close loop makes exactly the specified close calls |
| Merge.Run | src/maildirmerge.c:424-498 | main performs the specified run |
| Reconstruct.TimespecCmp | src/maildirreconstruct.c:23-34 | the result is -1, 0 or 1; 0 iff equal; negative iff earlier, seconds first |
| Reconstruct.TimespecAntisymmetric | src/maildirreconstruct.c:23-34 | swapping the arguments negates the comparison |
| Reconstruct.RetryNeverCollides | src/maildirreconstruct.c:270-276 | the link retried after a successful unlink never fails with EEXIST, so the goto runs at most once |
| Reconstruct.LinkedIsQuiet | src/maildirreconstruct.c:246-282 | relinking a file that is already linked changes nothing and counts no error, so reconstruction can be rerun; the verdict is that of the corrected comparison of the src/filetools.c:84 finding |
| Reconstruct.CollisionRules | src/maildirreconstruct.c:264-282 | differing content without replace-older is one error and no change; with it the target is replaced only when strictly older, else left without error; the verdict is that of the corrected comparison of the src/filetools.c:84 finding |
| Reconstruct.EmptyFileSkipped | src/maildirreconstruct.c:240-244 | a zero-byte file is never linked |
| Reconstruct.TmpNeverLinked | src/maildirreconstruct.c:174-194 | the tmp phase at most creates the target's tmp, and counts at most one error |
| Reconstruct.MissingSourceBaseIsNoError | src/maildirreconstruct.c:202-208 | a missing message directory in the source nets no error, a missing metadata directory counts one |
| Reconstruct.OverlayEntry | src/maildirreconstruct.c:313-445 | the error count never decreases and the deferred list only grows by this entry's name, a metadata directory name |
| Reconstruct.SubFolder | src/maildirreconstruct.c:338-372 | a sub-folder never decreases the error count and never defers anything |
| Reconstruct.SubFolderMarked | src/maildirreconstruct.c:354-365 | the sub-folder is entered exactly when mkdirat succeeds or meets EEXIST and the O_DIRECTORY open succeeds; the directory the overlay then runs on is the one the name opens, and it holds a maildirfolder entry |
| Reconstruct.OverlayScan | src/maildirreconstruct.c:313-445 | the scan never decreases the error count |
| Reconstruct.OverlayClassification | src/maildirreconstruct.c:314-388 | the maildir's own names change nothing; a dot-directory below the root changes nothing; a metadata directory is only deferred; other directories and files are ignored |
| Reconstruct.DeferredAreMetafiles | src/maildirreconstruct.c:377-382 | the scan only appends names of metadata directories to the deferred list |
| Reconstruct.OnlyDotsIffEmpty | src/maildirreconstruct.c:515-521 | the emptiness check holds exactly for a directory with no entries |
| Reconstruct.SumNonzero | src/maildirreconstruct.c:525-531 | non-negative error counts sum to non-zero exactly when one of them is |
| Reconstruct.Overlays | src/maildirreconstruct.c:526-527 | one non-negative error count per source |
| Reconstruct.RunSpec | src/maildirreconstruct.c:461-532 | the status is 0, 1 or 2; 1 comes with no overlay; otherwise there is one count per source |
| Reconstruct.ExitStatusRule | src/maildirreconstruct.c:525-531 | after the overlays the status is 2 exactly when some source counted an error |
| Reconstruct.NonEmptyTargetRefused | src/maildirreconstruct.c:501-523 | an existing target that lists anything besides . and .. gives status 1 with nothing changed |
| Reconstruct.LinkOne | src/maildirreconstruct.c:246-282 | the link of one entry with its single retry after the unlink, as specified |
| Reconstruct.CopyEntries | src/maildirreconstruct.c:221-283 | the readdir loop over a base's entries, as specified |
| Reconstruct.CopyEntry | src/maildirreconstruct.c:221-283 | one readdir entry is skipped, counted as an error, or linked, as specified |
| Reconstruct.Copy | src/maildirreconstruct.c:196-219 | opening a base's two directories and linking its entries, as specified |
| Reconstruct.RunPhase | src/maildirreconstruct.c:167-219 | one phase, creating the target directory when missing, as specified |
| Reconstruct.RemainingStep | src/maildirreconstruct.c:167-219 | one phase then the rest equals the rest with the phase's errors added |
| Reconstruct.RemainingSwitch | src/maildirreconstruct.c:152-165 | after cur, new and tmp the deferred metadata directories are walked exactly once |
| Reconstruct.Mdir | src/maildirreconstruct.c:143-289 | mdir walks cur, new, -tmp and then the deferred directories, as specified |
| Reconstruct.MakeSubFolder | src/maildirreconstruct.c:338-372 | a sub-folder is made and overlaid as specified |
| Reconstruct.OverlayOne | src/maildirreconstruct.c:313-445 | one entry of the overlay scan, as specified |
| Reconstruct.Overlay | src/maildirreconstruct.c:292-459 | overlay scans the source and then runs mdir with the deferred directories, as specified |
| Reconstruct.ScanEntries | src/maildirreconstruct.c:313-445 | the overlay readdir loop, as specified |
| Reconstruct.Run | src/maildirreconstruct.c:461-532 | main's filesystem effect and status are those specified |
| Reconstruct.OverlayAll | src/maildirreconstruct.c:525-530 | the overlay loop leaves the specified filesystem and adds up every source's error count |
| Check.SumOfZero | src/maildircheck.c:225-228 | error counts that are never negative sum to zero exactly when each is zero |
| Check.Retry | src/maildircheck.c:37-49 | the number of ENOENT failures reported is bounded by the ten retries |
| Check.RetryFirst | src/maildircheck.c:40-47 | the result is the first attempt that does not fail with ENOENT among at most ten, or the tenth ENOENT; the report counts exactly the ENOENT failures |
| Check.RetryStable | src/maildircheck.c:37-49 | on a stable filesystem myfstatat is one fstatat, and a missing entry is retried ten times |
| Check.MyFStatAt | src/maildircheck.c:37-49 | the countdown loop computes the specified retry result |
| Check.Ownership | src/maildircheck.c:53-63 | 0 to 2 errors; 0 iff the entry stats with the reference owner and group; 1 for a failed stat; 2 iff both owner and group differ |
| Check.CheckOwnership | src/maildircheck.c:53-63 | the macro adds the specified number of errors |
| Check.EntryCounts | src/maildircheck.c:100-102 | one ownership count per readdir entry |
| Check.SubCounts | src/maildircheck.c:77-105 | one count per message directory cur, new, tmp |
| Check.SubCheckZero | src/maildircheck.c:77-105 | a message directory counts no error exactly when it opens, has the reference ownership and, unless tmp, so does every entry |
| Check.FdPathZero | src/maildircheck.c:66-113 | a folder counts no error exactly when it, cur and new with all their entries, and tmp itself have the reference ownership |
| Check.CheckEntries | src/maildircheck.c:100-102 | the loop adds exactly the sum of the entry counts |
| Check.CheckFdPath | src/maildircheck.c:66-113 | check_fdpath returns the specified count |
| Check.DotEntry | src/maildircheck.c:149-175 | a .Name entry that is not a folder costs one error; any other name costs nothing |
| Check.DotCounts | src/maildircheck.c:149-176 | one count per root entry |
| Check.CheckPathZero | src/maildircheck.c:116-181 | a maildir checks clean exactly when its root does against the root's owner, and every .Name entry is a folder that checks clean when it opens |
| Check.CheckDotEntries | src/maildircheck.c:149-176 | the root loop adds exactly the sum of the per-entry counts |
| Check.CheckPathM | src/maildircheck.c:116-181 | check_path returns the specified count |
| Check.PathCounts | src/maildircheck.c:225-227 | one count per folder argument |
| Check.ExitCodeRule | src/maildircheck.c:222-228 | the status is 1 exactly when no folder is given, 0 exactly when every folder checks clean, and 2 otherwise |
| Check.Run | src/maildircheck.c:205-229 | main returns the specified status |
| Archive.CheckFolderName | src/maildirarchive.c:85-98 | valid_foldername holds exactly for a name with a leading ., no /, and only printable characters |
| Archive.ValidFolderNameIsChild | src/maildirarchive.c:85-98 | a valid name other than . and .. is a single path component; . and .. pass as written |
| Archive.Find | src/maildirarchive.c:121-129 | the cache lookup gives the first position of the name, or none when absent |
| Archive.ToFront | src/maildirarchive.c:124-126 | moving a hit to the head keeps the same entries, with the hit first |
| Archive.ToFrontDistinct | src/maildirarchive.c:124-126 | moving a hit to the head keeps the cache free of duplicate names |
| Archive.CacheHit | src/maildirarchive.c:120-128 | a cache hit returns the cached descriptor, touches no file and moves the entry to the head |
| Archive.CacheMiss | src/maildirarchive.c:131-168 | a miss adds the opened folder at the head, or leaves the cache as it was on failure; an existing folder is opened without change; an error other than ENOENT fails without change |
| Archive.CacheDistinct | src/maildirarchive.c:119-169 | the cache never holds two entries for one folder name |
| Archive.FolderCache.constructor | src/maildirarchive.c:108 | the cache starts empty |
| Archive.FolderCache.Get | src/maildirarchive.c:119-169 | get_folderfd updates the filesystem and the cache as specified and keeps the cache free of duplicates |
| Archive.FolderCache.Clear | src/maildirarchive.c:110-118 | get_folderfd(NULL, -1) empties the cache |
| Archive.Open | src/maildirarchive.c:131-161 | opening or creating the folder with cur, new and tmp, as specified |
| Archive.Destination | src/maildirarchive.c:310-339 | a destination exists only for a non-dot regular or untyped file whose timestamp is below the cut-off and whose strftime name is valid |
| Archive.OnlyOldMessagesMove | src/maildirarchive.c:310-382 | only such a file is ever acted on, and never in a dry run |
| Archive.ExistingTargetKept | src/maildirarchive.c:347-382 | an archived message already at the destination is never overwritten and its source stays |
| Archive.ArchiveEntries | src/maildirarchive.c:305-383 | once an error ends the readdir loop nothing more changes |
| Archive.RunSpec | src/maildirarchive.c:255-270 | a missing format, a zero cut-off or no maildir gives usage(1) with nothing changed |
| Archive.DryRunEntries | src/maildirarchive.c:341-345 | a dry run changes nothing on disk and opens no archive folder |
| Archive.DryRunSubs | src/maildirarchive.c:293-385 | a dry run over new/ and cur/ changes nothing |
| Archive.DryRun | src/maildirarchive.c:273-397 | maildirarchive -n moves no file and creates no folder |
| Archive.ArchiveOne | src/maildirarchive.c:310-382 | one message, as specified |
| Archive.MoveInto | src/maildirarchive.c:346-382 | getting the archive folder and renaming the message into it, as specified, keeping the cache free of duplicates |
| Archive.ArchiveDir | src/maildirarchive.c:305-383 | the readdir loop, as specified |
| Archive.ArchiveSubs | src/maildirarchive.c:293-385 | new/ and cur/ of one maildir, as specified |
| Archive.Run | src/maildirarchive.c:214-410 | main's effect and ending are those specified |
| Purge.SelectedIff | src/maildirpurge.c:180-187 | with -s a root entry is purged exactly when it is the folder itself or, with -r, one of its descendants sf.X |
| Purge.PurgeEntry | src/maildirpurge.c:138-155 | purging one entry keeps the rest of the environment |
| Purge.PurgeSubs | src/maildirpurge.c:124-157 | the result is 0 or 1 |
| Purge.SubDir | src/maildirpurge.c:125-136 | openat plus fdopendir gives a directory exactly when the open succeeds on a directory |
| Purge.PurgeSubResult | src/maildirpurge.c:124-136 | purge_sub returns 1 exactly when new/ or cur/ of the starting state does not open as a directory |
| Purge.PurgeDirWithin | src/maildirpurge.c:138-155 | the readdir loop changes no node but its own directory, and keeps every entry whose name has no timestamp |
| Purge.PurgeSubWithin | src/maildirpurge.c:124-157 | purge_sub changes only the new/ and cur/ it opens, and the cur/ it opens after purging new/ is the starting state's cur/ |
| Purge.PurgeSubEffect | src/maildirpurge.c:124-157 | when new/ and cur/ are two directories, each is purged as its listing in the starting state says: doomed removable files gone, every other name kept |
| Purge.PurgeOneEffect | src/maildirpurge.c:125-156 | one pass purges the directory it opens |
| Purge.UnlinkStep | src/maildirpurge.c:151-154 | one unlinkat removes only that name, and does remove a removable one |
| Purge.PurgeDirEffect | src/maildirpurge.c:138-155 | every doomed removable file of the listing is unlinked (unless a dry run), and every name no doomed entry carries keeps its entry |
| Purge.PurgeFolders | src/maildirpurge.c:176-203 | the status is 0 or 1 and stays 1 once a sub-folder failed |
| Purge.FolderFd | src/maildirpurge.c:195 | the descriptor is -1 or the one openat gives |
| Purge.ReachedTail | src/maildirpurge.c:176-203 | what the rest of the loop reaches the whole loop reaches, and separation carries over |
| Purge.ReachedKept | src/maildirpurge.c:176-203 | a state that keeps the root and the chosen sub-folders resolves the same sub-folders, reaches the same directories and keeps their separation |
| Purge.PurgeFoldersWithin | src/maildirpurge.c:176-203 | when the directories purged are apart from the root and the sub-folders, the loop changes no other node |
| Purge.PurgeBase | src/maildirpurge.c:161-214 | purge returns 0 or 1 |
| Purge.BaseFailureNotReported | src/maildirpurge.c:172-173 | a plain purge of a maildir reports success even when its new/ or cur/ cannot be opened |
| Purge.SourceFolderSparesBase | src/maildirpurge.c:172-187 | with -s the maildir's own new/ and cur/ nodes come out exactly as they were, whenever the selected sub-folders' new/ and cur/ are other directories and apart from the root and the sub-folders |
| Purge.SourceFolderUnmatched | src/maildirpurge.c:172-187 | with -s and no root entry selected, nothing changes at all |
| Purge.PlainPurge | src/maildirpurge.c:172-173 | without -s and -r the maildir's own new/ and cur/ are purged as their listings say, when they are two directories |
| Purge.NothingSelected | src/maildirpurge.c:180-187 | when no entry is selected, the sub-folder loop changes nothing |
| Purge.Loop | src/maildirpurge.c:265-269 | the exit status is 0 or 1 |
| Purge.StopsAtFirstFailure | src/maildirpurge.c:265-269 | once a maildir fails, none after it is touched |
| Purge.DryRunDir | src/maildirpurge.c:151-152 | a dry run unlinks nothing in a directory |
| Purge.DryRunSubs | src/maildirpurge.c:124-157 | a dry run over new/ and cur/ changes nothing |
| Purge.DryRunFolders | src/maildirpurge.c:176-203 | a dry run over the sub-folders changes nothing |
| Purge.DryRun | src/maildirpurge.c:265-269 | maildirpurge -n changes nothing on disk |
| Purge.PurgeDirM | src/maildirpurge.c:138-155 | the readdir loop, as specified |
| Purge.PurgeSubM | src/maildirpurge.c:118-159 | purge_sub, as specified |
| Purge.PurgeFoldersM | src/maildirpurge.c:176-203 | the sub-folder loop, as specified |
| Purge.PurgeBaseM | src/maildirpurge.c:161-214 | purge, as specified |
| Purge.Run | src/maildirpurge.c:216-272 | main's effect and status are those specified |
| Strings.TimestampPrefix | src/maildirarchive.c:324-329 | a timestamp is read only when at least one digit is followed by a . |
| Strings.TimestampPrefixOf | src/maildirpurge.c:142-146 | a name made of a printed timestamp, a . and any suffix reads back as that timestamp |
| Strings.ParseDecimal | src/maildirdate2filename.c:257 | printing a number in decimal and parsing it back gives the number and the untouched rest |
| Date2Filename.FilenameStamp | src/maildirdate2filename.c:239-246 | a stamp is found exactly when the leading digits (none read as 0) are followed by a .; the suffix from that . on is kept |
| Date2Filename.Threshold | src/maildirdate2filename.c:251 | the bound is header time plus minimum modulo 2^64, and equals the sum when that does not wrap |
| Date2Filename.NewName | src/maildirdate2filename.c:257 | the new name ends in the old suffix |
| Date2Filename.NewNameRoundTrip | src/maildirdate2filename.c:239-257 | the new name reads back as the header time with the same suffix |
| Date2Filename.NewNameIdempotent | src/maildirdate2filename.c:239-257 | renaming a renamed file with the same header time gives the same name |
| Date2Filename.DateOutput | src/maildirdate2filename.c:79-83 | date output is accepted exactly when non-empty and its leading digits are followed by a newline or the end; the value is those digits |
| Date2Filename.DateOutputOf | src/maildirdate2filename.c:79-83 | a printed time, with or without newline, is accepted as that time |
| Date2Filename.EmptyLineIsEpoch | src/maildirdate2filename.c:79-83 | a lone newline is accepted as time 0 |
| Date2Filename.ConvertDate | src/maildirdate2filename.c:27-86 | a failed date(1) gives no time; output within the 63-byte buffer is judged by the acceptance rule |
| Date2Filename.Plan | src/maildirdate2filename.c:198-257 | a rename is planned only for a regular file whose name time is at least the threshold, to a name carrying the header time and the old suffix; an exit only for a regular file |
| Date2Filename.RecentFilesStay | src/maildirdate2filename.c:251-254 | a file that is renamed has a name time at least header time plus minimum, when that does not wrap |
| Date2Filename.Apply | src/maildirdate2filename.c:261-283 | a dry run changes nothing; otherwise the state is unchanged or the result of the one rename |
| Date2Filename.ApplyFrame | src/maildirdate2filename.c:276 | the rename touches only the old and new names of the one sub-directory |
| Date2Filename.NeverReplaces | src/maildirdate2filename.c:265-276 | an existing target is never replaced; without RENAME_NOREPLACE the rename happens only after stat said ENOENT |
| Date2Filename.RunSpec | src/maildirdate2filename.c:122-296 | the status is 0 or 1, and 0 exactly when folders were given and nothing made the program exit |
| Date2Filename.DryEntries | src/maildirdate2filename.c:198-287 | with -n (line 262) a directory pass changes nothing |
| Date2Filename.DrySubs | src/maildirdate2filename.c:183-290 | with -n (line 262) the cur/ and new/ passes change nothing |
| Date2Filename.DryRun | src/maildirdate2filename.c:176-293 | maildirdate2filename -n (line 262) renames nothing in any folder |
| Date2Filename.RenameMessage | src/maildirdate2filename.c:261-283 | the rename step, as specified |
| Date2Filename.RenameEntries | src/maildirdate2filename.c:198-287 | the readdir loop, as specified |
| Date2Filename.RenameSubs | src/maildirdate2filename.c:183-290 | the sub-directory loop, as specified |
| Date2Filename.Run | src/maildirdate2filename.c:122-296 | main's effect and status are those specified |
| Sizes.SizeHint | src/maildirsizes.c:85-93 | a size is announced exactly by a name that does not start with . and contains S= |
| Sizes.SizeHintOf | src/maildirsizes.c:87-93 | a name pre S=n rest whose prefix holds no S announces n bytes |
| Sizes.Tally | src/maildirsizes.c:81-99 | the count never exceeds the number of entries |
| Sizes.CountedExactly | src/maildirsizes.c:85-98 | exactly the entries that neither start with . nor lack S= are counted |
| Sizes.TallyIsCounted | src/maildirsizes.c:93-98 | the size is the sum of the announced sizes of the counted messages and the count is their number |
| Sizes.FolderTallyParts | src/maildirsizes.c:62-105 | a maildir's totals are those of new/ plus those of cur/ |
| Sizes.Totals.constructor | src/maildirsizes.c:123 | the totals start at zero |
| Sizes.TallyEntries | src/maildirsizes.c:81-99 | the readdir loop computes the specified size and count |
| Sizes.SubDirTally | src/maildirsizes.c:69-100 | one message directory contributes the specified totals, nothing when it cannot be opened as a directory |
| Sizes.CalcSize | src/maildirsizes.c:62-118 | calc_size adds exactly this maildir's size and count to the totals |
| Sizes.TotalsNeedDirectory | src/maildirsizes.c:129-175 | a path reports a non-zero size or count only when it opens as a directory; a non-directory falls through to zero totals |
| Sizes.PlainMaildirTotals | src/maildirsizes.c:129-175 | a directory without .Name sub-folders reports exactly the size and count of its new/ plus its cur/ |
| Sizes.NoSubFoldersAddNothing | src/maildirsizes.c:158-173 | with no .Name sub-folder the path reports only the maildir's own totals |
| Sizes.SubFolderTotals | src/maildirsizes.c:158-173 | the sub-folder loop computes the specified totals |
| Sizes.AddSubFolder | src/maildirsizes.c:159-172 | one root entry adds its sub-folder's totals to the accumulators, nothing for an entry that is not a .Name folder |
| Sizes.ProcPath | src/maildirsizes.c:120-203 | proc_path reports the specified totals |
| Sizes.NoPathsAccepted | src/maildirsizes.c:237-246 | with only the program name, main as written exits 0 with no report, while the intended check exits 1 |
| Sizes.Reports | src/maildirsizes.c:242-246 | one report per path argument |
| Sizes.RunSpec | src/maildirsizes.c:214-249 | the status is 1, with no report, exactly when no path is left after the options; otherwise 0 with one report per remaining path |
| Sizes.ReportsArePathTotals | src/maildirsizes.c:242-246 | each report is the totals of the path in that position |
| Sizes.ReportsAppend | src/maildirsizes.c:242-246 | one more path adds exactly its own report at the end; no path stops the loop |
| Sizes.Run | src/maildirsizes.c:214-249 | main produces the specified reports and status |
| Sizes.PrettySize | src/maildirsizes.c:25-43 | the value is the input shifted right by 10k bits with at most eight shifts; it is below 1024 unless all eight units were used; each shift was taken while the value was at least 1024; rem holds the ten bits shifted out last; the unit is the k-th letter of kMGTPEZY |

## Left out

- I/O on the terminal: messages printed with `printf`, `fprintf` and `perror`, the verbose modes, and the `%.2f` formatting of `pretty_size` are not modelled.
- Option parsing with `getopt_long` is not modelled; the tools take their parsed options as parameters.
- Descriptor lifetimes: `close`, `closedir` and `dup` are not modelled. A descriptor is the inode it refers to, so there is no descriptor leak or exhaustion.
- File modes, `fchown` and the `geteuid` check are not modelled. This covers the modes copied by `mkdirat` and the ownership copy in `dovecot_imap_subscribe`.
- Memory allocation failures (`malloc`, `strdup`, `realloc`, `asprintf`) cannot arise in the model.
- The Courier POP3 size-list parsing and `courier_lock` are not modelled. There is no UIDL backend: `pop3_get_uidl` is a table given as data.
- The `buglist` field of a type is not modelled; nothing in the core reads it.
- `src/uidl.c` is not part of this model.
- `src/maildirmerge.c` keeps its own copy of the registry (lines 15-47 and 76-89). Its prepend, register and find_type are the same code as `src/servertypes.c` and are modelled once, in `ServerTypes`.
  - Its `maildir_type_list_free` (src/maildirmerge.c:21) differs from the one in include/servertypes.h:47: it only frees the nodes and calls no `close`. That is why main closes each target's data itself (src/maildirmerge.c:489-492), once per node. Merge.RunSpec and Merge.TargetClosesExact record those calls, and TypeRecord.ListFree, the closing macro, is not used by `Merge`.
- `rand()` is a parameter: the sequence of values it returns.
- Failures the filesystem model cannot produce are parameters:
  - a `renameat` I/O error in `dovecot_imap_subscribe` is the `renameFault` flag;
  - a failing `sendfile` or `write` is not modelled.
- Clocks and `strftime`: `time`, `localtime` and `maxage2time` in archive and purge are not modelled. The cut-off is given as a number and the strftime pattern as a function.
- date(1) is a parameter: the tool's output, or None when it did not exit with status 0. The header parser is also a parameter.
- `strtoull` and `strtoul` are modelled on decimal digits only:
  - leading white space, a sign, and saturation at overflow are not modelled;
  - Date2Filename.Threshold wraps the sum at 2^64, but the two times themselves are unbounded.
- Sizes.CalcSize: the `size_t` totals are unbounded, so their wrap-around is not modelled.
- `readdir` is a snapshot listing taken when the directory is opened. Entries renamed into a directory while it is read are not revisited; the C library makes no promise either way.
- The date output is a string without NUL bytes, so the truncation at an embedded NUL is not modelled.
- Sizes.PathTotals: a path that opens but is not a directory falls through after the message at src/maildirsizes.c:141-144. calc_size then fails on the closed descriptor, fdopendir fails, and `closedir(NULL)` is reached. POSIX leaves that call undefined; the model follows glibc, which fails it with EINVAL, so the path reports zero totals and the run goes on.
- Archive.Subs: the `readdir(NULL)` call, which crashes on glibc, is the model's `crashed` ending rather than undefined behaviour.
- Merge.CurStep: the `stype` NULL dereference is the model's `Crashed` ending rather than undefined behaviour.
- Sizes.Run and the other tools take their path arguments already split into components (`Fs.Path`), resolved from the descriptor `cwd`. Splitting a string at `/` and starting from the root for an absolute path are not modelled.
- FileTools.FilesIdentical, FileTools.FilesIdenticalSteps, Reconstruct.CollisionRules, Reconstruct.LinkedIsQuiet, Reconstruct.LinkOne and Reconstruct.CopyEntry follow the corrected comparison of the src/filetools.c:84 finding (the same line is src/maildirreconstruct.c:120). As written, a target of the same size but different content compares identical, so reconstruct skips it quietly: no "alternative file available" error and no replacement. FileTools.AsWrittenIgnoresSecondFile states that as-written behaviour.
- FileTools.FilesIdenticalSteps: `mmap` cannot fail in the model. As written, `!m1` and `!m2` (src/filetools.c:78 and 85) test for NULL, but `mmap` reports failure as `MAP_FAILED`. So those error branches are dead, and a failed mapping would reach `memcmp`.
- FileTools.FilesIdenticalSteps: `opens` and `leftOpen` count the `openat` and `close` calls the code makes. Descriptors are not modelled, so `leftOpen == 0` records the code's close discipline as the method's own bookkeeping, not as a property of a descriptor table.
- Merge.CreateSubOutcomes does not prove that a newly made folder is a complete maildir; the failures of its `mkdirat` calls are ignored.
- Merge.CurPassLeavesBehind is proved only without a redirect folder.
- Merge.CurPassFrame is proved only without a redirect folder: the redirect folder's creation adds inodes.
- Merge.NewPhaseMovesAll is proved only where the target's new/ holds no directory, and not that very file, under a moved name.
- Reconstruct: `fdopendir` and `dup` failures cannot arise in the model.
- Reconstruct.LinkEntry: the `retry_link` loop is modelled as one retry. Reconstruct.RetryNeverCollides proves that a second retry is never needed.
- Check: the filesystem does not change between calls. The transient ENOENT that myfstatat retries is modelled only in Check.Retry, through the attempt function.
- Archive and Date2Filename model the EINVAL fallback for a missing RENAME_NOREPLACE, though the filesystem model never produces it.
- Archive.OpenFolder is not proved to yield a complete maildir.
- Archive.ValidFolderNameIsChild: `.` and `..` pass valid_foldername as written; the model keeps that.
- Dovecot.ListedIsLine assumes that no line outgrows the 2048-byte buffer and that there are no NUL bytes. Longer lines are split by fgets as modelled in Dovecot.ChunkLen, but no lemma describes that case.
- Purge.SourceFolderSparesBase is proved under a separation condition, `Purge.Separate`: no directory the sub-folder loop purges is the root or one of the chosen sub-folders, and the base's own new/ and cur/ are not the new/ or cur/ of a selected sub-folder. This holds when the directories form a tree. A `.Name` entry that leads back to the maildir itself would make the base's own new/ and cur/ purged, and the lemma says nothing about that case.
- Purge.PlainPurge is proved only without -r. With -r and no -s, Purge.PurgeSubEffect gives the effect of the first purge_sub, and Purge.PurgeFoldersWithin bounds what the sub-folder loop may change afterwards. No lemma joins the two.
- Purge.PurgeSubEffect and Purge.PlainPurge say nothing about a new/ that is the same directory as cur/.
- File names are sequences of `char`, one character per byte of the C name: `Fs.ProperName` admits any character, and the 256-byte bound of Archive's `snprintf` (src/maildirarchive.c:354, `Archive.NameBuffer`) is counted in characters. Names with characters that need more than one byte are not modelled.

## Findings

| source | as written | input that shows it | evidently intended | confidence | as-written member | corrected member |
|---|---|---|---|---|---|---|
| src/filetools.c:84 | the second `mmap` maps `fd1`, so the first file is compared with itself | two one-byte files holding 0 and 1, different inodes (the same line is at src/maildirreconstruct.c:120) | map `fd2` and compare the two files' bytes | high, not executed | FileTools.AsWrittenCounterexample | FileTools.DecideCompares |
| src/servertypes.c:56 | `malloc(sizeof(char*) * count + 1)` adds one byte, not one pointer, yet index `count` is written | any registry with at least one metadata file, 8-byte pointers | room for `count + 1` pointers | high, not executed | ServerTypes.TerminatorOutOfBounds | ServerTypes.SlotsNeeded |
| src/maildirsizes.c:237 | `!*argv` tests the program name, so running with no path is not refused | `maildirsizes` with no argument: argv is the program name alone | refuse when `argv[optind]` is NULL | high, not executed | Sizes.NoPathsAccepted | Sizes.RunSpec |
