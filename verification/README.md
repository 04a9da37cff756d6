# A verified model of cloud-init's planners, mergers and parsers

cloud-init brings a cloud instance up on its first boot: it names the network
interfaces, merges the configurations it is given, hands user data to part
handlers, runs configuration modules once, and reads and writes a number of small
text formats. This project models the parts of it that are algorithms rather than
glue, and proves what they promise over all inputs and all runs.

* **FreeBSD interface renaming** (`FreebsdRename`, `FreebsdPlanner`, `FreebsdReplay`,
  `FreebsdGoal`, `FreebsdErrors`). `RenameInterfaces` is the planner over NIC records
  shared by a by-mac table and a by-name index; `PlanAll` is what it computes, as a value;
  `Replay` is what the planned operations do to a real system. The theorems say that the
  plan never collides, exactly when planning fails, what a plan without errors achieves,
  and that a request that fails costs the others nothing.
* **Configuration merging** (`Mergers`, `MergeLaws`, `MergerOptions`, `MergeMany`,
  `CloudConfig`, `MergerMeaning`, `MergerNaming`, `MergeOrder`). The mutually recursive
  mergers with every option, the three forms in which mergers are named, `mergemanydict`,
  and the cloud-config part handler. What each option means is proved value by value, and
  that the mergers named are the ones used. The default merge is shown to be a small reference function, whose algebra (identity,
  idempotence, exactly when it is associative, regrouping) is then proved.
* **Part handlers** (`PartHandlers`, `PartHandlerRun`, `PartHandlerLaws`,
  `PartHandlerDelivery`). The registry, the walk over a message during which handlers join,
  the begin/part/end protocol, and exactly which part is handed to whom.
* **Run-once semaphores** (`Semaphores`, `Runners`, `SemaphoreLaws`, `ModuleLaws`,
  `Migrator`). A set of files as state, and what holds over any history of calls, boots and instances.
* **Text formats** (`SshKeys`, `SshUpdate`, `Shellify`, `Rsyslog`, `Ec2Metadata`,
  `MountInfo`, `AptSuites`, `Mounts`): round trips, idempotence, and loops that are shown
  to compute a simple specification.
* **The bounded wait** (`WaitForUrl`): the requests of a run as a state machine, with the
  time limits that every run keeps.

`Strings`, `Decimal` and `Options` hold the few library notions these share, `Settings` the
frequencies of part handlers and modules.

What code does step by step is a method here, over classes, arrays or collections that
it reassigns, and is tied by its `ensures` to a function; the lemmas are about that
function. `None` as a result stands for an exception unless a comment says otherwise.
What the code asks of its surroundings is a parameter: how a value prints, in which
order a dictionary lists its keys (`Host`), what a handler says of itself (`Contents`),
how a call goes (`Call`), which part handlers the interpreter knows (`Cache`), what the
metadata service answers, how a template renders, how long a request takes.

## Findings

* Renaming: whether planning fails does not depend on the order of the requests or on the
  temporary names; it can be told from the table and each request alone
  (`RenameGoal.PlanFailsIff`). When some do fail, every request that does not is served all
  the same (`RenameErrors.SuccessIsServed`).
* Default merging is not associative, and `MergeLaws.AssociativeIff` says exactly when it
  is. It also differs from the older merge kept beside the merge tests, exactly when a
  list or a string meets a dict (`MergeLaws.AgreesWithOldIff`).
* The topic page on merging (doc/rtd/topics/merging.rst:180-188) says that a part is merged
  with the mergers of the part before it. The code merges each part with its own mergers,
  or with the default; the model follows the code. Two parts for which the two orders
  differ are in `MergeOrder.OrdersDiffer`, and `MergeOrder.SameChoicesAgree` has them agree
  as long as the two choices of mergers coincide. The same page (lines 160-172) calls
  equivalent to the default string form a list form that also appends strings
  (`MergeOrder.DocumentedFormAppends`).
* Names in the list form of `merge_how` must be entries: of a text like `list()` the first
  character is taken for the name, and merging raises (`MergerNaming.TextEntryRaises`). When
  both `merge_how` and `merge_type` are set the second stays in the configuration
  (`MergerNaming.NamedMergersAreUsed`).
* A part handler whose content types cannot be read is begun a second time when another
  part handler follows it, since the module number is used again and the interpreter
  returns the module it has (`PartHandlerLaws.BeginOnceIff`, `PartHandlerLaws.TwoBegins`).
  So is a handler of the cloud directory whose file has the name of a part handler
  (`PartHandlerLaws.CloudDirBeginsTwice`).
* Each run of a process numbers its part handlers from zero, while the interpreter keeps
  what it has imported. The n-th part handler of the vendor data is therefore never its own
  payload when the user data had an n-th (`PartHandlerLaws.LaterRunsReuse`), which can
  cause a second begin as well as prevent one (`PartHandlerLaws.VendorDataBeginsTwice`,
  `PartHandlerLaws.UserDataShieldsVendorData`).
* A JSON patch that gives null leaves the handler without a buffer. Besides having no parts
  that is the only way to an empty file (`CloudConfig.EmptyFileIff`).
* The migrator leaves a dash in what it takes for a file extension, so a name with dashes
  on both sides of its last dot counts as not run afterwards
  (`Migrator.MigrationKeepsHasRunIff`, `Migrator.DashedNameIsLost`).
* `authorized_keys` options that start with a hash come back as a comment line, and options
  of the caller's that a line cannot hold do not come back either (`SshKeys.RoundTripIff`,
  `SshKeys.HashOptionsExist`, `SshKeys.RoundTripWithIff`). Setting such a key up again adds
  it again (`SshUpdate.FileUpdateIsIdempotentIff`, `SshUpdate.SetUpTwice`).
* A remote with port zero loses its port in print (`Rsyslog.RoundTripIff`,
  `Rsyslog.PortZeroExists`). A host whose address is empty, such as marks alone, a port
  alone, or both as in `*.* @:514`, raises an attribute error where the callers expect a
  value error (`Rsyslog.AttributeErrorIff`, `Rsyslog.NoAddressExists`).
* An fstab entry whose mount point holds a blank is not recognized again and is written
  anew every time (`Mounts.UpdateTwiceIff`, `Mounts.BlankMountPointIsNotManaged`).
* The comment of `wait_for_url` gives the number of URLs times the timeout as the actual
  maximum; that bounds the first round, and `WaitForUrl.ReturnsInTime` has the bound of the
  whole wait. Without a timeout, and with a second or more to wait, a request may go on
  past the deadline and the pause (`WaitForUrl.AlwaysEndsInTimeIff`, `WaitForUrl.Overruns`).

## Model

| member | source | states |
|---|---|---|
| RenamePlanner.RenameInterfaces | cloudinit/distros/freebsd.py:371-445 | the planner loop over shared, mutable NIC records gives the operations, the ups and the errors of the plan that the replay, goal and error theorems are about |
| RenamePlanner.PlanOne | cloudinit/distros/freebsd.py:399-445 | one request changes the shared records, the index, the counter and the three lists as one step of the plan, with the error cases in the order of the code and the operations of a failed request dropped |
| RenamePlanner.Displace | cloudinit/distros/freebsd.py:421-440 | the holder of the requested name, found through the index, is moved to the next free temporary name and is to be brought up under it if it was up; a holder that is up and in use stops the request with the records as they are |
| RenamePlanner.SetName | cloudinit/distros/freebsd.py:437-444 | giving one shared record a free name and rebuilding the index changes that one entry of the table and exchanges exactly one name of the index |
| RenamePlanner.UpdateByName | cloudinit/distros/freebsd.py:379-381 | for an injective table, whatever order the records come in, the index holds every record under its present name and nothing else |
| RenamePlanner.NextTemp | cloudinit/distros/freebsd.py:431-434 | the search for a temporary name ends, at the first index after the last one used whose name is not taken |
| RenamePlanner.CopyRecords | cloudinit/distros/freebsd.py:373-377 | the working table is a fresh copy, one record for each mac, holding what was found |
| RenamePlan.FirstFreeIsLeast | cloudinit/distros/freebsd.py:431-434 | the index found is free and every smaller index from the start on is taken |
| RenamePlan.TempInjective | cloudinit/distros/freebsd.py:396 | temporary names of different numbers differ |
| RenameReplay.PlanReplays | cloudinit/distros/freebsd.py:395-445 | from any injective table and any request list, replaying the operations in order never fails (every rename takes an existing name to a free one), keeps names injective and ends in exactly the names the planner holds |
| RenameReplay.StepReplays | cloudinit/distros/freebsd.py:399-445 | every single request extends a replayable plan to a replayable one; without an error a NIC that keeps its name is not touched and one that changes it ends down |
| RenameGoal.PlanFailsIff | cloudinit/distros/freebsd.py:407-427 | with distinct macs and names, none temporary, planning records no error if and only if every request is feasible in the table as it was at the start, in whatever order the requests come |
| RenameGoal.PlanInvariant | cloudinit/distros/freebsd.py:399-445 | after any number of feasible requests: the listed NICs have their names, displaced ones a temporary name, the rest are untouched; the plan replays with only down NICs renamed; and the ups recorded are for names no later request hands on |
| RenameGoal.RenamingSucceeds | cloudinit/distros/freebsd.py:399-459 | for feasible requests: no error, no operation fails, no NIC is renamed while up, and after all operations every NIC is where it was meant to be and up or down exactly as at the start |
| RenameGoal.RunUps | cloudinit/distros/freebsd.py:457-463 | running the ups brings up exactly the named interfaces and renames nothing; one for a stale name does nothing |
| RenameErrors.PlansExtend | cloudinit/distros/freebsd.py:395-445 | whatever requests come after, the operations, the ups and the errors of the first ones stay as they are: a failing request takes nothing back |
| RenameErrors.SuccessIsServed | cloudinit/distros/freebsd.py:395-463 | with distinct macs and names, none temporary, and whatever other requests fail: when all operations have run, a request handled without an error has its NIC under the name asked for, and up or down exactly as at the start |
| RenameErrors.RenamedIsRaised | cloudinit/distros/freebsd.py:414-419 | a NIC that was up and is renamed without an error is among those to bring up again, whatever other requests do |
| RenameErrors.ErrorTells | cloudinit/distros/freebsd.py:407-427 | a failing request records one error: that its NIC is not there, is up and in use, or that another NIC that is up and in use has the name |
| Mergers.MergeValues | cloudinit/mergers/__init__.py:37-78 | dispatch on the type of the old value terminates and computes the merge function, the old value when no merger handles its type |
| Mergers.DoDictReplace | cloudinit/mergers/m_dict.py:43-76 | the key loop over a copy, in any key order, gives the dict whose every key is fixed by the two sides: kept, added, deleted, or merged |
| Mergers.MergeList | cloudinit/mergers/m_list.py:44-77 | append, prepend, replace and no_replace against any new value, with the cases that raise, as the laws below have them |
| Mergers.OverlayLists | cloudinit/mergers/m_list.py:72-77 | overwriting by index in place gives the merge of the common indexes followed by the rest of the old list |
| Mergers.OverlayNoReplace | cloudinit/mergers/m_list.py:60-77 | with no_replace the overlay never raises and is the old list |
| Mergers.Lookup | cloudinit/mergers/__init__.py:67-78 | the merger used is one of those given and has the method wanted; none is used only if none has it |
| MergerMeaning.FirstMergerCounts | cloudinit/mergers/__init__.py:67-78 | of several mergers for one type the one named first is used |
| MergerMeaning.ItemsAre | cloudinit/mergers/m_list.py:51-58 | what extending a list by a value adds: items, characters, keys, or it raises |
| MergerMeaning.AppendKeepsOldFirst | cloudinit/mergers/m_list.py:55-58 | appending gives the old list followed by the new items, and raises only for a value that has no items |
| MergerMeaning.PrependPutsNewFirst | cloudinit/mergers/m_list.py:51-54 | prepending gives the new items followed by the old list |
| MergerMeaning.ReplaceAt | cloudinit/mergers/m_list.py:44-77 | replacing keeps the length; at a shared index the new item is taken, or merged into the old one if its type recurses; a value that is no list replaces the list |
| MergerMeaning.NoReplaceKeeps | cloudinit/mergers/m_list.py:60-77 | without replacing the old list stays, exactly unless the new value cannot be gone through by index |
| MergerMeaning.KeyAt | cloudinit/mergers/m_dict.py:43-66 | key by key, with any options: kept, added, deleted by a null, replaced, merged if the type of the new value recurses, or left |
| MergerMeaning.DictRaisesIff | cloudinit/mergers/m_dict.py:67-76 | merging dicts raises exactly when merging some key does, and what is no dict leaves a dict as it is |
| MergerMeaning.StringMerge | cloudinit/mergers/m_str.py:22-33 | the new text is put after the old one when appending, and else taken |
| MergerMeaning.UnhandledStays | cloudinit/mergers/__init__.py:67-78 | a value of a type that no merger handles stays |
| MergeLaws.DefaultMergeCombines | cloudinit/mergers/__init__.py:37-78 | the dispatching default mergers never raise and equal the reference: one side's key is kept, two dicts merge, a new dict replaces an old list or string, otherwise the old value stays |
| MergeLaws.CombinedAt | cloudinit/mergers/m_dict.py:43-65 | path by path: below dicts of both sides the merge has what the one side has, or the choice of the reference between two values |
| MergeLaws.EmptyIsIdentity | cloudinit/mergers/m_dict.py:57-64 | the empty configuration is a left and right identity |
| MergeLaws.Idempotent | cloudinit/mergers/m_dict.py:45-65 | merging a configuration with itself changes nothing |
| MergeLaws.Absorbed | cloudinit/mergers/m_dict.py:45-65 | merging the same configuration a second time changes nothing |
| MergeLaws.CoversMeansUnchanged | cloudinit/mergers/m_dict.py:45-65 | a merge leaves the old side unchanged exactly when every new key is there and every new dict meets a dict that covers it or a scalar |
| MergeLaws.AssociativeIff | cloudinit/mergers/m_dict.py:43-65 | the two groupings of three configurations agree if and only if nowhere a scalar in the middle hides a dict on the right from a value on the left that the dict would change |
| MergeLaws.NotAssociative | cloudinit/mergers/m_dict.py:43-65 | a string, a number and an empty dict under one key are not associative |
| MergeLaws.Regroup | cloudinit/util.py:741-753 | configurations whose shared paths are dicts in all or in none may be merged in groups |
| MergeLaws.AgreesWithOldIff | tests/unittests/test_merging.py:25-44 | the default merge equals the older merge exactly when no list or string that is set meets a dict |
| MergerOptions.DictExtractMergers | cloudinit/mergers/__init__.py:81-103 | the payload is left without the keys that name mergers, and the mergers are read from whichever form it names them in, or reading them raises; `MergerNaming.NamedMergersAreUsed` says which and how |
| MergerOptions.StringExtractMergers | cloudinit/mergers/__init__.py:106-124 | the loop over the pieces gives the mergers of the string form that the round trip is about |
| MergerOptions.ConstructMergers | cloudinit/mergers/__init__.py:131-154 | the mergers are made in the order named, which is the order of lookup, and none is made when one cannot be |
| MergerOptions.StringFormRoundTrip | cloudinit/mergers/__init__.py:106-124 | mergers and options written in the string form are read back, in order and with their options |
| MergeMany.DefaultMergeType | cloudinit/mergers/__init__.py:127-154 | the default string parses and constructs to the list, dict and string mergers without options, in that lookup order |
| MergeMany.CloudMergeType | cloudinit/handlers/cloud_config.py:41 | the cloud-config default parses and constructs to a replacing dict merger before the list and string ones |
| MergeMany.MergeManyDict | cloudinit/util.py:741-753 | the loop, forwards or reversed, merges each non-empty configuration into the result with its own mergers or the default ones, and raises when one of them cannot be made |
| MergeMany.MergeIntoConcat | cloudinit/util.py:741-753 | merging a concatenation is merging the first list and then the second into the result |
| MergeMany.MergeManyPlain | cloudinit/util.py:741-753 | on configurations that name no mergers it never raises and is the left fold of the reference |
| MergeMany.MergeManyRegroups | cloudinit/util.py:741-753 | merging two lists of one shape apart and then together is merging them all |
| MergerNaming.NamedMergersAreUsed | cloudinit/mergers/__init__.py:81-103 | a configuration that names mergers in `merge_how`, as text or entry by entry, or in `merge_type` when the other is missing or null, is merged with exactly these, in order, and without the key |
| MergerNaming.PartMergersAreUsed | cloudinit/handlers/cloud_config.py:88-114 | a part is merged with the mergers its payload names and after them those of its header, the one with `X-` counting only if the other is empty |
| MergerNaming.ListOptions | cloudinit/mergers/m_list.py:20-32 | what each option of a list merger means, and which of several ways counts |
| MergerNaming.DictOptions | cloudinit/mergers/m_dict.py:20-34 | what each option of a dict merger means |
| MergerNaming.StrOptions | cloudinit/mergers/m_str.py:11-12 | what the option of a string merger means |
| MergerNaming.AppendingIsNamed | tests/data/merge_sources/source10-2.yaml:6 | `dict(recurse_list)+list(append)` names a dict merger that recurses into lists, and a list merger that appends |
| MergerNaming.ListsAreAppended | tests/data/merge_sources/expected10.yaml:3-6 | with these, wherever below dicts of both sides there is a list on both, the merge has the old items followed by the new ones |
| MergerNaming.WrittenOtherwise | cloudinit/mergers/__init__.py:108-112 | capitals and dashes may be written for small letters and underscores |
| MergerNaming.DictEntryIsRead | cloudinit/mergers/__init__.py:91-95 | in a dict entry of the list form dashes may be written for underscores, and the settings are kept |
| MergerNaming.PaddedOptions | cloudinit/mergers/__init__.py:120-122 | white space around an option does not count, and a blank option is none |
| MergerNaming.OtherOptions | cloudinit/mergers/m_str.py:11-12 | options may also be a text or a dict; what cannot be searched raises |
| MergerNaming.NoParenthesesRaise | cloudinit/mergers/__init__.py:113-119 | a name without parentheses anywhere in the string form raises |
| MergerNaming.NamelessIsPassedOver | cloudinit/mergers/__init__.py:91-103 | an entry of the list form with an empty name is passed over |
| MergerNaming.TextEntryRaises | cloudinit/mergers/__init__.py:91-103 | a configuration whose list form holds a text raises when it is merged |
| MergerNaming.UnknownNameRaises | cloudinit/mergers/__init__.py:131-144 | only the three built-in mergers, with or without their prefix, can be made |
| CloudConfig.Handler.HandlePart | cloudinit/handlers/cloud_config.py:129-151 | begin, end or part changes buffer, names and file as the state machine's step does; a part that fails leaves both fields as they were, save for a fresh buffer, and a patch that gives null leaves no buffer |
| CloudConfig.Handler.MergeYaml | cloudinit/handlers/cloud_config.py:88-123 | a part is merged with the payload's mergers, then the header's, or the default when there are none |
| CloudConfig.RunFolds | cloudinit/handlers/cloud_config.py:129-151 | at any point of a cycle the buffer is the left fold over the parts, each merged into what the ones before it came to, or into the empty dict, and the names are those of the parts that merged, in order |
| CloudConfig.CycleWritesFold | cloudinit/handlers/cloud_config.py:119-151 | one whole cycle, from any state, writes that fold and leaves the handler as new |
| CloudConfig.FailedPartsDoNotMatter | cloudinit/handlers/cloud_config.py:137-151 | leaving out the parts that failed, the same parts merge to the same configuration; the file differs exactly when a failing part came where there was nothing, which leaves an empty dict |
| CloudConfig.FailingAloneShows | cloudinit/handlers/cloud_config.py:137-140 | a part that fails, alone, leaves an empty dict where no part leaves nothing |
| CloudConfig.EmptyFileIff | cloudinit/handlers/cloud_config.py:80-142 | a cycle leaves an empty file if and only if there were no parts, or the last one is a patch that turns what the others merged to into null |
| CloudConfig.LastPartWins | cloudinit/handlers/cloud_config.py:41-41 | parts that name no mergers all merge, and each top-level key has the value of the last part that sets it |
| CloudConfig.StoredNameIsClean | cloudinit/handlers/cloud_config.py:144-148 | a stored name has no line breaks or tabs and no outer white space |
| CloudConfig.StoredNameKeeps | cloudinit/handlers/cloud_config.py:144-148 | a name without outer white space is stored character by character, breaks and tabs as blanks |
| CloudConfig.WrittenNames | cloudinit/handlers/cloud_config.py:64-86 | the file names the parts that merged, in order, one without a name as `?` |
| MergeOrder.OwnMergers | cloudinit/handlers/cloud_config.py:88-114 | a part is merged with the mergers it names, in its payload or header, or else with the default, and never with those of another part |
| MergeOrder.SameChoicesAgree | doc/rtd/topics/merging.rst:180-188 | as long as each part's own choice of mergers is the one that waits for it, the code's fold and the documented fold, in which a part is merged with the mergers named before it, give the same configuration |
| MergeOrder.OrdersDiffer | doc/rtd/topics/merging.rst:180-188 | two parts that set one key, the second naming the plain mergers: the code keeps the first value and the documented order the second |
| MergeOrder.DocumentedFormAppends | doc/rtd/topics/merging.rst:160-172 | the list form given as equivalent to the default string form parses, and constructs a string merger that appends, so not the default mergers |
| PartHandlerRun.RunHandlers | cloudinit/stages.py:469-530 | a whole run, by a process that has imported any part handlers before, makes the calls and leaves the imports of the specification for some order of the registry at the start and at the end, and raises exactly when some part aborts the walk |
| PartHandlerRun.ConsumeData | cloudinit/stages.py:532-542 | user data and then vendor data are two runs of one process, the second only if the first did not raise |
| PartHandlerRun.ContentHandlers.Register | cloudinit/helpers.py:293-305 | the module takes all its types, or only free ones; nothing changes when listing them raises |
| PartHandlerRun.ContentHandlers.Items | cloudinit/helpers.py:310-311 | the registered types, each once, in some order |
| PartHandlerRun.ContentHandlers.Deinitialize | cloudinit/stages.py:520 | the first occurrence of the module is removed from the started ones |
| PartHandlerRun.Walker.RegisterMods | cloudinit/stages.py:469-481 | registers a list of modules in turn, overwriting or yielding |
| PartHandlerRun.Walker.InitHandlers | cloudinit/stages.py:486-494 | each registered module is begun once, also under several types |
| PartHandlerRun.Walker.HandleHandler | cloudinit/handlers/__init__.py:131-150 | a part handler is imported under its number, begun, registered over others, and counted only if all that works |
| PartHandlerRun.Walker.WalkerCallback | cloudinit/handlers/__init__.py:189-213 | excluded types are passed over, part handlers join, other parts go to the module of their type, as `PartHandlerDelivery.RunDelivers` counts them |
| PartHandlerRun.Walker.Walk | cloudinit/handlers/__init__.py:218-238 | containers are passed over and not numbered, and the walk ends at the first part that raises |
| PartHandlerRun.Walker.FinalizeHandlers | cloudinit/stages.py:513-524 | each registered module that was started is ended once |
| PartHandlerLaws.RunIsOrderly | cloudinit/stages.py:486-530 | in every run, whatever the interpreter has imported before, a part and an end reach a module only after its begin, nothing but ends follows an end, and each module still registered at the end is finalized exactly once, however many types it has |
| PartHandlerLaws.BeginOnceIff | cloudinit/handlers/__init__.py:131-150 | every module is begun at most once, if and only if no part handler comes after the run has got stuck on one that runs but could not be asked for its types, and none comes under whose name the interpreter has a module that runs and that the run started with; both are told from the parts, the registry at the start and what was imported before |
| PartHandlerLaws.ProcessIsOrderly | cloudinit/stages.py:532-612 | every run of any sequence of runs of one process is orderly, and begins nothing twice under exactly that condition, with the imports that the runs before it leave |
| PartHandlerLaws.LaterRunsReuse | cloudinit/importer.py:14-16 | once a run has imported a part handler under a number, no later run of the process calls any other module under that number, whatever its own part handler holds |
| PartHandlerLaws.VendorDataBeginsTwice | cloudinit/stages.py:532-542 | after user data with a part handler that cannot be read, vendor data with two readable ones begins the module of the user data twice |
| PartHandlerLaws.UserDataShieldsVendorData | cloudinit/stages.py:532-542 | after user data with a readable part handler, vendor data that alone would begin a module twice begins none twice |
| PartHandlerLaws.TwoBegins | cloudinit/handlers/__init__.py:131-150 | the smallest message for which a module is begun twice |
| PartHandlerLaws.CloudDirBeginsTwice | cloudinit/util.py:497-506 | a cloud-directory handler in a file named like the first part handler is begun at the start and again for any first part handler |
| PartHandlerLaws.DefaultsYield | cloudinit/stages.py:469-481 | a type goes to the last cloud-directory handler that claims it, and only failing that to the first default handler that does |
| PartHandlerLaws.PartsGoToClaimants | cloudinit/handlers/__init__.py:189-201 | a part goes only to a module that claims its type, and never when the type is excluded |
| PartHandlerDelivery.RunDelivers | cloudinit/handlers/__init__.py:189-213 | the parts handed over in a run, in order, are exactly one call with its number for each part the walk gets to whose type is not excluded, is not that of part handlers, and has a claimant that runs: the last part handler taken on before it that claims the type, else the last of the cloud directory, else the first default handler |
| PartHandlerDelivery.VisitedThrough | cloudinit/handlers/__init__.py:218-238 | containers are passed over; a part that cannot be decoded, or a part handler that cannot be written, ends the walk; every other part is got to |
| PartHandlerDelivery.RunsIff | cloudinit/handlers/__init__.py:81-108 | a module is called exactly if its version is 1, 2 or 3 and it is to run always, or once for an instance in such a run |
| Runners.FileSemaphores.Acquire | cloudinit/helpers.py:99-113 | adds one file exactly when it has not run and can be written |
| Runners.FileSemaphores.Clear | cloudinit/helpers.py:82-90 | removes the file of the canonical name and no other |
| Runners.Runner.GetSem | cloudinit/helpers.py:151-168 | one semaphore object for each directory; none for always, an unknown frequency or no instance |
| Runners.Runner.Run | cloudinit/helpers.py:170-188 | one call changes the shared file set and has the outcome that the histories are about, through failure, lock failure and clearing |
| Runners.RunModules | cloudinit/stages.py:760-802 | a list of modules leaves the files of the history of their calls, lists every module as started, and those that failed, as the module laws have them |
| Runners.FixupModules | cloudinit/stages.py:736-758 | the loop drops every frequency asked for that is not known |
| Runners.RunSection | cloudinit/stages.py:811-852 | fixing up and then running the modules of a section leaves the files and failures of their history |
| ModuleLaws.KeyOfModule | cloudinit/stages.py:736-785 | the file a configured module takes: none if always is asked for, or nothing known is and the module is to run always; the one of its name for all instances if it is once, in the same way; else that of its name for the instance |
| ModuleLaws.ModulesRunOnce | cloudinit/stages.py:760-802 | over any boots and instances with semaphores that can be written, what takes a semaphore that was not there runs exactly once, even when it fails |
| ModuleLaws.AlwaysExecutes | cloudinit/stages.py:768-785 | a module to run always executes in every list and on every boot, whatever has run before |
| ModuleLaws.OnceBarsAllInstances | cloudinit/stages.py:768-785 | a module to run once that has executed, well or not, has run for every instance |
| ModuleLaws.FailuresIff | cloudinit/stages.py:786-802 | reported as failed are exactly the modules that neither ran well nor had run before |
| ModuleLaws.FailureShows | cloudinit/stages.py:786-802 | a module that raises when it executes is among them, and one whose semaphore cannot be written |
| SemaphoreLaws.SameKeyIff | cloudinit/helpers.py:138-168 | two calls share a semaphore if and only if they have the same frequency, the same name up to dashes, and for once-per-instance the same path-safe instance |
| SemaphoreLaws.FilesAfterIff | cloudinit/helpers.py:73-113 | after any history a file is there exactly when it was at the start or a call left it |
| SemaphoreLaws.HasRunIff | cloudinit/helpers.py:115-136 | a call finds that it has run exactly when a file barred it from the start or an earlier call left its semaphore |
| SemaphoreLaws.BarredIff | cloudinit/helpers.py:115-136 | a call is barred at the start by the file of its canonical name or by that of its name as written |
| SemaphoreLaws.ExecutesIff | cloudinit/helpers.py:170-188 | exactly when a call in a history executes |
| SemaphoreLaws.RunsExactlyOnce | cloudinit/helpers.py:170-188 | over any boots, instances and calls whose semaphores are written and not cleared, whatever is asked for executes exactly once for its semaphore |
| SemaphoreLaws.AlwaysRuns | cloudinit/helpers.py:151-188 | over any history the calls that execute without a semaphore are those to run always, of no known frequency, or once for an instance that is missing, and all of them execute |
| SemaphoreLaws.FailingClears | cloudinit/helpers.py:69-104 | a call that fails and clears, does not get the lock, or has run before can be left out of any history: the files end up the same without it |
| Migrator.MigrateCanonSems | cloudinit/config/cc_migrator.py:40-55 | both directories are gone through, one that is missing is passed over, and the count is that of all the files moved |
| Migrator.MigrateDirectory | cloudinit/config/cc_migrator.py:46-54 | whatever order a directory is listed in, every file ends under its migrated name, or inside a directory of that name, and what is no file stays |
| Migrator.MigratedIsCanonical | cloudinit/config/cc_migrator.py:49-53 | migrating keeps the extension and the place where it splits off, and migrating again does nothing |
| Migrator.FileIsThereIff | cloudinit/config/cc_migrator.py:43-56 | every file ends up under its migrated name unless that is a directory's |
| Migrator.HiddenNames | cloudinit/config/cc_migrator.py:49-50 | a name that starts with its only dots has no extension, so all of it is made canonical |
| Migrator.HasRunInDirectory | cloudinit/helpers.py:115-136 | what has run by the listing of a directory is what has run by the semaphores' own check |
| Migrator.MigrationKeepsHasRunIff | cloudinit/config/cc_migrator.py:46-54 | for all directories at once, what has run still has after migration, if and only if the name has no dash on both sides of where the extension splits off |
| Migrator.DashedOnBothSidesIsLost | cloudinit/config/cc_migrator.py:49-53 | every name with dashes on both sides of its last dot is one that is lost |
| Migrator.DashedNameIsLost | cloudinit/config/cc_migrator.py:46-54 | `a-b.c-d` has run for the instance and after migration has not |
| Migrator.DotFreeOrOnceIsKept | cloudinit/config/cc_migrator.py:49-53 | names without a dot, and all names that run once, are among those |
| SshKeys.ExtractOptions | cloudinit/ssh_util.py:92-117 | the index loop with its quote flag splits where the recursive scanner stops |
| SshKeys.ScanStopsAtFirstUnquotedBlank | cloudinit/ssh_util.py:98-113 | the options end at exactly the first blank outside quotes, escaped quotes not counting |
| SshKeys.ParseLine | cloudinit/ssh_util.py:119-154 | comment, key, options and key, or neither, in the order in which they are looked for |
| SshKeys.ParsePrintedEntry | cloudinit/ssh_util.py:56-69 | an entry with good fields, printed and parsed, is the entry |
| SshKeys.ParsedEntryIsGood | cloudinit/ssh_util.py:125-154 | whatever parsing finds is good for printing |
| SshKeys.RoundTripIff | cloudinit/ssh_util.py:56-154 | printing a valid parsed line and parsing it again gives the same options, type, base64 and comment, exactly unless the options start with a hash |
| SshKeys.RoundTripWithIff | cloudinit/ssh_util.py:119-154 | a key parsed with the caller's options comes back with them if and only if a line can hold them and they do not start with a hash |
| SshKeys.GoodOptionsIff | cloudinit/ssh_util.py:92-131 | what a line can hold as options: not empty, no white space in front, no blank outside quotes, quotes closed, and no key type as the first word |
| SshKeys.HashOptionsAreLost | cloudinit/ssh_util.py:119-131 | a blank in front lets options with a hash through the first parse, and the printed line is a comment |
| SshKeys.HashOptionsExist | cloudinit/ssh_util.py:119-131 | ` #x rsa A` is such a line |
| SshKeys.PrintKeepsLine | cloudinit/ssh_util.py:56-69 | printing adds no line break |
| SshKeys.PrintWithKeepsLine | cloudinit/ssh_util.py:56-69 | with the caller's options in front the breaks are those of the options |
| SshKeys.KeyTypesAre | cloudinit/ssh_util.py:22-41 | the known key types are six that come with certificates, their six certificate types, and six more |
| SshUpdate.UpdateAuthorizedKeys | cloudinit/ssh_util.py:173-201 | the replacing loop and the list of keys still to add print the updated entries |
| SshUpdate.ReplaceEntries | cloudinit/ssh_util.py:176-190 | old entries are replaced in place and by position, and exactly the keys that matched none are left to add |
| SshUpdate.ReplacedIs | cloudinit/ssh_util.py:180-190 | an entry becomes the key with its base64 if there is one, and stays as it was if there is none or it is no valid key |
| SshUpdate.MissingIs | cloudinit/ssh_util.py:193-194 | the keys appended are exactly those whose base64 no valid old entry has |
| SshUpdate.UpdatedHasKeys | cloudinit/ssh_util.py:173-194 | every key is there afterwards, and no other entry shares a key's base64 |
| SshUpdate.UpdateIsIdempotent | cloudinit/ssh_util.py:173-194 | updating twice is updating once |
| SshUpdate.ParsedIsStorableIff | cloudinit/ssh_util.py:119-154 | a key parsed from one line, with or without the caller's options, comes back from the file as it went in, on one line, if and only if a line can hold its options |
| SshUpdate.EmptyOptionsAreFindable | cloudinit/ssh_util.py:56-69 | with empty options of the caller's the key is still found again by its base64 |
| SshUpdate.FileUpdateIsIdempotent | cloudinit/ssh_util.py:157-201 | for keys that are found again by their base64, reading a file, updating and writing it, and doing that again leaves the same text, whatever else the file holds |
| SshUpdate.FileUpdateIsIdempotentIff | cloudinit/ssh_util.py:157-201 | for keys of different base64 that print on one line each: updating every file twice is updating it once if and only if each key, printed and parsed, is found again by its base64 |
| SshUpdate.SetUpTwice | cloudinit/ssh_util.py:239-251 | keys parsed from one line each can be set up twice with the outcome of once when a line can hold their options, and without options of the caller's only then |
| Shellify.Shellify | cloudinit/util.py:1867-1890 | the script is the header and one line for each command, and an entry that is neither a list nor text raises |
| Shellify.ShellReadsArguments | cloudinit/util.py:1868-1890 | a shell that follows the quoting rules of sections 2.2.1 and 2.2.2 of POSIX.1-2017 Shell Command Language reads from the script exactly the argument lists that went in |
| Shellify.LexArgs | cloudinit/util.py:1876-1880 | the same for one line with any text after it |
| Shellify.HeaderIsComment | cloudinit/util.py:1869-1870 | the header is a comment to that shell |
| Shellify.TextIsCopied | cloudinit/util.py:1881-1883 | a text entry is copied on a line of its own between the lines of the others |
| Shellify.UnsupportedRaisesIff | cloudinit/util.py:1884-1887 | the script cannot be made exactly when some entry is neither |
| Rsyslog.ToString | cloudinit/config/cc_rsyslog.py:361-378 | appending part by part gives the printed line |
| Rsyslog.RoundTripIff | cloudinit/config/cc_rsyslog.py:288-378 | printing a remote and parsing the line gives it back exactly when its name is trimmed and without a hash, its port is not zero, and its address can be told from marks and brackets |
| Rsyslog.MatchPrintedBracketed | cloudinit/config/cc_rsyslog.py:204-207 | an address with colons is read back from its brackets, and not at all when it holds a closing one |
| Rsyslog.MatchPrintedPlain | cloudinit/config/cc_rsyslog.py:204-207 | what is read of an address without colons, and when it is mistaken for a bracketed one |
| Rsyslog.AttributeErrorIff | cloudinit/config/cc_rsyslog.py:288-314 | parsing raises an attribute error if and only if the data is one or two words and what follows the marks of the host is nothing, or starts with a colon and still matches the host pattern |
| Rsyslog.NoAddressAtAll | cloudinit/config/cc_rsyslog.py:304-314 | marks, a port, or both, and nothing else, are such hosts |
| Rsyslog.NoAddressExists | cloudinit/config/cc_rsyslog.py:304-314 | `*.* @:514` is such a line |
| Rsyslog.HostAlone | cloudinit/config/cc_rsyslog.py:288-345 | a host alone is for `*.*`, by udp with one mark or none and by tcp with two |
| Rsyslog.GivenNameCounts | cloudinit/config/cc_rsyslog.py:316-317 | a name that is given counts, whatever the comment says |
| Rsyslog.PortZeroIsLost | cloudinit/config/cc_rsyslog.py:341-374 | a line that gives port zero is read as such, and printed and parsed again has no port |
| Rsyslog.PortZeroExists | cloudinit/config/cc_rsyslog.py:341-374 | `*.* @h:0` is such a line |
| Ec2Metadata.ParseListing | cloudinit/ec2_utils.py:61-102 | the field loop over a dictionary and a list gives the leaves with their resources and the children, in order |
| Ec2Metadata.ParseLists | cloudinit/ec2_utils.py:81-102 | a text that lists a tree's entries is parsed into its leaves, keys and directories, in order and without the credentials |
| Ec2Metadata.ListingExists | cloudinit/ec2_utils.py:81-102 | every tree with good names has a listing |
| Ec2Metadata.KeyLine | cloudinit/ec2_utils.py:91-102 | a line `3=name` lists the key `name` with the resource `3/openssh-key` |
| Ec2Metadata.NoNumber | cloudinit/ec2_utils.py:91-102 | a line with an equals sign but no number before it lists a leaf by all of the line |
| Ec2Metadata.DirectoryLine | cloudinit/ec2_utils.py:70-90 | a directory may be listed with any number of slashes and counts once however often it is listed |
| Ec2Metadata.AssignedTwice | cloudinit/ec2_utils.py:101 | a leaf listed again stays in its place with the resource given last |
| Ec2Metadata.CredentialsAreSkipped | cloudinit/ec2_utils.py:86-87 | a line for the security credentials changes nothing, with a slash or without |
| Ec2Metadata.ServiceServes | cloudinit/ec2_utils.py:110-123 | for every such tree whose keys have numbers of their own, which no directory beside them is named by, there is a service that answers all the crawl asks for, below any URL to which names are added as they are |
| Ec2Metadata.MetadataMaterializer.MaterializeAt | cloudinit/ec2_utils.py:110-132 | against a service that lists a finite tree the recursion ends, returns the tree's dictionary, and fetches each directory and each leaf once, in order |
| Ec2Metadata.MetadataMaterializer.Materialize | cloudinit/ec2_utils.py:104-108 | the first call crawls and later ones fetch nothing and return the same |
| Ec2Metadata.MaterializedAt | cloudinit/ec2_utils.py:110-132 | nothing is lost: every directory and every leaf that no directory hides is there with its own contents |
| Ec2Metadata.MaterializedKeys | cloudinit/ec2_utils.py:110-132 | nothing is made up: every key is the name of an entry that is not hidden |
| Ec2Metadata.FetchCount | cloudinit/ec2_utils.py:113-123 | one fetch for each leaf and each directory of the tree |
| Ec2Metadata.FetchOrder | cloudinit/ec2_utils.py:113-123 | right after a directory is fetched comes all that is below it, and the leaves of a directory come last |
| MountInfo.ParseMountInfo | cloudinit/util.py:2013-2079 | the scan with its running best match returns what the specification finds |
| MountInfo.ScanFinds | cloudinit/util.py:2022-2074 | the scan gives up exactly when a line is too short or one it looks into lacks columns, and otherwise holds the deepest mount above the path, the last listed among equals |
| MountInfo.AboveIff | cloudinit/util.py:2034-2046 | a mount is above a path exactly if the path is its mount point or goes on from it at a slash |
| MountInfo.ColumnsAre | cloudinit/util.py:2034-2069 | the fifth column is the mount point, and after the first `-` come the file system type and the device |
| MountInfo.TooFewColumns | cloudinit/util.py:2029-2032 | a line of fewer than ten columns, or without a `-`, says nothing |
| MountInfo.FoundIff | cloudinit/util.py:2013-2079 | exactly when a mount is found, and which |
| MountInfo.WellFormedFinds | cloudinit/util.py:2013-2079 | when every line is well formed, none is found exactly when no mount is above the path |
| AptSuites.SuiteOf | cloudinit/config/cc_apt_configure.py:495-507 | the counting loop finds the suite column |
| AptSuites.SuiteNames | cloudinit/config/cc_apt_configure.py:461-474 | the four short names stand for those pockets of the release, `release` for the release, and any other name for itself |
| AptSuites.DisabledLine | cloudinit/config/cc_apt_configure.py:495-508 | a line without options becomes a comment with the prefix exactly if its third column is disabled |
| AptSuites.TwoColumnsRaise | cloudinit/config/cc_apt_configure.py:495-507 | a line of two columns has no suite, and raises |
| AptSuites.SuiteAfterOptions | cloudinit/config/cc_apt_configure.py:497-505 | after options that end in some column come the address and then the suite |
| AptSuites.DisableSuite | cloudinit/config/cc_apt_configure.py:488-510 | one pass over the text is the single pass for that suite |
| AptSuites.DisableSuites | cloudinit/config/cc_apt_configure.py:477-512 | the nested loops are one pass for each suite in turn |
| AptSuites.PassesAreOne | cloudinit/config/cc_apt_configure.py:477-512 | all passes together equal a single pass for the set of mapped suites, and raise exactly when some line that is no comment lacks its suite column |
| AptSuites.OrderDoesNotMatter | cloudinit/config/cc_apt_configure.py:484-510 | neither order nor repetitions of the suites matter |
| AptSuites.DisablingIsIdempotent | cloudinit/config/cc_apt_configure.py:477-512 | disabling again changes nothing |
| AptSuites.StrippingRestoresIff | cloudinit/config/cc_apt_configure.py:507-508 | stripping the added prefix gives the text back, if and only if no line had it before |
| Mounts.FillRow | cloudinit/config/cc_mounts.py:357-361 | missing and unset fields take their defaults and no other field changes |
| Mounts.FillAndClear | cloudinit/config/cc_mounts.py:355-369 | the nested loops over the array, in place, fill every entry and clear exactly those that a later entry takes back |
| Mounts.SurvivesIff | cloudinit/config/cc_mounts.py:355-402 | an entry keeps a mount point if and only if its filled one is set and no later entry for the same device has none; then it is just filled |
| Mounts.ActiveMounts | cloudinit/config/cc_mounts.py:397-402 | the entries with a mount point, in order |
| Mounts.ActiveOfBoth | cloudinit/config/cc_mounts.py:397-402 | what is mounted of some entries comes before what is mounted of those after |
| Mounts.AddDefaults | cloudinit/config/cc_mounts.py:371-393 | the default mounts are tried in turn against all entries there are by then |
| Mounts.DefaultsAddedIff | cloudinit/config/cc_mounts.py:371-393 | exactly those default mounts are added whose device no entry names, one for each device, and the entries stay as they are |
| Mounts.EphemeralIsAddedIff | cloudinit/config/cc_mounts.py:350-393 | the ephemeral disk is added if and only if no filled entry names its device, an entry without a mount point being enough to keep it out |
| Mounts.WriteEntries | cloudinit/config/cc_mounts.py:412-423 | each entry's line, claimed by a comment in its options; it raises when a field other than the options is not set |
| Mounts.KeepForeign | cloudinit/config/cc_mounts.py:425-435 | the lines kept are those that were not written here, in order, and the others are accounted for |
| Mounts.RewriteFstab | cloudinit/config/cc_mounts.py:408-451 | the contents written are the foreign lines and then the entries, and fstab stays as it is when there is no entry |
| Mounts.RewrittenLines | cloudinit/config/cc_mounts.py:425-451 | reading the new file gives the foreign lines, all of them and in order, and after them exactly the new entries |
| Mounts.LastRewriteCounts | cloudinit/config/cc_mounts.py:408-451 | only the last rewriting with an entry counts, so doing it twice is doing it once |
| Mounts.TwiceIsOnceIff | cloudinit/config/cc_mounts.py:412-451 | twice is once if and only if the fourth token of every line written still has the comment |
| Mounts.UpdateFstab | cloudinit/config/cc_mounts.py:355-451 | from the configured entries, default fields, devices and swap file to the contents of fstab: filling, clearing, defaults, choice and writing together are the specification that the next two rows are about |
| Mounts.UpdateTwice | cloudinit/config/cc_mounts.py:355-451 | if what is set holds no blanks or line breaks, fstab is always written, holds the foreign lines and then a line for every mount, and updating it again changes nothing |
| Mounts.UpdateTwiceIff | cloudinit/config/cc_mounts.py:355-451 | for any configuration whose lines have no breaks, updating again changes nothing if and only if every line written is recognized |
| Mounts.NotWrittenIff | cloudinit/config/cc_mounts.py:416-423 | nothing is written exactly when a mount has a field that is not set, but for its options |
| Mounts.LineOfSix | cloudinit/config/cc_mounts.py:412-423 | six fields are written with tabs between them and `,comment=cloudconfig` after the fourth |
| Mounts.UnsetOptionsLine | cloudinit/config/cc_mounts.py:412-423 | options that are not set are written as `None` |
| Mounts.EphemeralLine | cloudinit/config/cc_mounts.py:311-322 | with no entries the ephemeral disk is mounted on `/mnt` with the default options |
| Mounts.SwapLine | cloudinit/config/cc_mounts.py:321-406 | a swap file and a swap device are written alike |
| Mounts.SwapFileIsLast | cloudinit/config/cc_mounts.py:404-406 | the line of the swap file comes after all others |
| Mounts.BlankMountPointIsNotManaged | cloudinit/config/cc_mounts.py:425-435 | a mount point with a blank in it makes a line that is not recognized |
| WaitForUrl.WaitForUrl | cloudinit/url_helper.py:309-376 | the loop ends; its requests form a run with the URLs in turn, the pauses, the shortened timeouts and no success before the last; a request that its timeout cuts short is no success; it returns the URL that answered, or gives up only when the time is up |
| WaitForUrl.NeverGivesUpEarly | cloudinit/url_helper.py:309-327 | giving up means that there was no time to wait or more than that has passed, and asking again that it had not |
| WaitForUrl.NoAnswerWasLeft | cloudinit/url_helper.py:333-351 | giving up means that no request was answered well within its timeout |
| WaitForUrl.SuccessIsAnAnswer | cloudinit/url_helper.py:338-347 | what counts as success was answered well and within its timeout |
| WaitForUrl.TimeoutsAreUsed | cloudinit/url_helper.py:325-327 | a timeout is kept unless it reaches past the deadline; then it becomes all the whole seconds left |
| WaitForUrl.PauseGrows | cloudinit/url_helper.py:318 | the pause is a second for the first five rounds and a second longer after every five |
| WaitForUrl.TriesEveryUrl | cloudinit/url_helper.py:318-324 | before giving up every URL is tried once, in order |
| WaitForUrl.EndsInTime | cloudinit/url_helper.py:322-327 | with a timeout, nothing to ask for, or less than a second to wait, a request after the first round ends by the deadline |
| WaitForUrl.AlwaysEndsInTimeIff | cloudinit/url_helper.py:322-338 | that holds for all services and all runs if and only if there is a timeout, nothing to ask for, or less than a second to wait |
| WaitForUrl.ReturnsInTime | cloudinit/url_helper.py:309-376 | under the same condition the wait gives up at the end of the first round, or by the deadline plus one more pause |
| WaitForUrl.AlwaysReturnsInTimeIff | cloudinit/url_helper.py:309-376 | that too holds for all services and all runs under that condition and no other |
| WaitForUrl.Overruns | cloudinit/url_helper.py:322-338 | without a timeout and with a second or more to wait, a run whose first later request hangs ends past the deadline and the pause |
| WaitForUrl.RoundsAreBounded | cloudinit/url_helper.py:319-374 | after the first there are no more rounds than seconds to wait |

## Left out

* Processes, files, sockets and clocks themselves: `subp`, `write_file`, `readurl`, sysfs
  and device probing. They are state, oracles or a clock that only sleeps and requests
  move; callbacks of `wait_for_url` take no time.
* FreeBSD: finding the NICs and whether they can be taken down; the mac and new name that
  each operation also carries for messages; failures of the operations themselves when
  they are run. Nothing is said about up and down of a NIC whose own request failed, since a
  busy target drops operations after the NIC was marked down.
- RenameErrors.SuccessIsServed: asks for distinct macs and names, none of them a temporary name, like the next.
- RenameGoal.RenamingSucceeds: asks for distinct macs and names, none of them a temporary name, since with repeated requests no single outcome is meant.
* Mergers: tuples, which YAML does not produce; mergers that users supply as modules; the
  numbers beyond integers. How a value prints and in which order a dict is listed as a
  list is the host's choice.
* Mergers: `dict_extract_mergers` takes keys out of the caller's own dict; the model returns
  what is left instead, so two callers sharing a dict are not seen.
- MergerOptions.StringFormRoundTrip: lower case is that of the ASCII letters.
* The cloud-config handler: JSON patches are an opaque function; the text of the file is
  kept as its parts; a handler without a file to write is not modelled.
* Part handlers: whether the vendor data is to be consumed at all; payload decoding, MIME, the fix-up of modules and their default
  frequency; which file a cloud-directory module comes from is its identity, and its files do
  not change during a process.
- PartHandlerLaws.BeginOnceIff: a cloud-directory file may have the name of a part handler; the cache then holds its module under that number, and one module has one number. Other modules that the interpreter imports under such a name are not looked at.
- SemaphoreLaws.RunsExactlyOnce: names are not empty and have no slash; an instance called `..` would name another directory and is not looked at, as paths are compared as text.
* Modules: reading the lists from the configuration, finding the modules, and those that are
  passed over because they are not verified for the distribution.
* Semaphores: races between processes, which the code accepts; file contents; moving a file
  into a directory that already holds one of its name.
* `_migrate_legacy_sems`, apt's conversion of older formats, `suggested_swapsize` and
  `_schemapath_for_cloudconfig`: what they do is not what they appear meant to do.
- SshUpdate.UpdateAuthorizedKeys: keys are such as the parser makes, a base64 field never without a type; two keys that are the same object twice in the list are kept apart by position.
* Shell features beyond quoting, blanks, newlines and comments; here-documents and
  expansions cannot arise inside single quotes.
* Rsyslog: the other configuration forms and the file writing around the remotes.
- Ec2Metadata.MetadataMaterializer.MaterializeAt: the service lists a finite tree, names directories apart and leaves apart, and lists ssh keys with numbers that `int()` reads; URL joining and quoting and the decoding of leaves are oracles.
- WaitForUrl.WaitForUrl: a timeout cut down to zero is passed on like any other, and whether a request with it can succeed is left to the service; that the HTTP library may refuse it is not part of this model.
* Mount information: logging; the mtab and `mount` forms of the same question.
* Apt: templates that do not render; mirrors and everything else in the sources list.
- Mounts.FillAndClear: rows are values in the array, so two entries that YAML makes one shared list are not seen; the defaults have at least two fields, as reading the fourth before requires.
* Mounts: reading the entries from the configuration (entries that are no list, or are empty),
  turning device names into devices, setting up a swap file, the message about what changed,
  and mounting.
- Mounts.RewriteFstab: entries have at least four fields, as the code makes them by reading the fourth default first; fields that are set are texts.
- Mounts.LastRewriteCounts: for fields without blanks or line breaks; `Mounts.TwiceIsOnceIff` has the exact condition for fields without line breaks.
* `str.splitlines`, `str.split` and `str.strip` follow the white space and line breaks of
  Unicode text; other Unicode behaviour is not modelled.
* Command line, logging, templates, distribution packages and the remaining modules.
