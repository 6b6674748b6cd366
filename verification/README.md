# A model of clr-oci-runtime

clr-oci-runtime is a container runtime written in C that keeps its containers in
virtual machines. This project models its logic in Dafny and proves properties of
the model. `dafny verify dfyconfig.toml` checks all of it.

The operating system, the hypervisor and json-glib are an environment: JSON is a
datatype, its printer and parser are taken for inverses of each other, and what the
system answers to a call is a parameter, so that any call may fail.

| files | what they model |
|---|---|
| `CLib` | the C and GLib string and number routines used |
| `Json`, `GNodes` | JSON values, and the flattening of a value into a tree of heap nodes |
| `OciConfig`, `Sections`, `Regroup`, `MountsSection`, `HooksSection`, `LinuxSection`, `SectionsFromJson`, `SectionTexts` | the section handlers, which rebuild lists of items from the flat tree with static variables, and their items by the texts in the JSON |
| `StateFile`, `StateReader`, `StateCodec`, `StateDecode`, `StateRoundTrip`, `Rewrite` | the state file: what is written, what is read, when it is accepted, and how commands rewrite it |
| `Framing` | cutting a QMP byte stream into messages |
| `Uuid`, `CmdLine`, `Templates`, `Expansion`, `KernelParams`, `MissingParams`, `TagValues`, `NamedTags` | the hypervisor's command line: UUID text and the expansion of `@TAG@`s, by place and by name |
| `Semver`, `SemverOrder`, `SemverFields`, `SemverHyphens`, `SemverLaws`, `VersionCheck` | comparing version strings, against section 11 of Semantic Versioning 2.0.0, and the check of a configuration's version |
| `MountTable`, `Destinations`, `CleanupRace` | mounting, recording and unmounting, and where mounts go; several cleanups of one container at once |
| `KillProtocol`, `StartRace` | a waiting start, kills and other commands that share a state file, and several starts at once, step by step |
| `Lifecycle`, `LifecycleRuns`, `LifecycleHistory` | the commands create, start, pause, resume, kill and stop, and what holds over all sequences of them |
| `FileText`, `CleanUps`, `WaitSteps`, `Outcomes`, `Containers`, `CreateStop` | the state file text for text, what each command leaves of the whole host, and the results on whole runs that follow |

Objects whose methods update fields are classes, and loops are loops; each such method
is proved to compute a function, and the properties are lemmas about that function.

## Where the code does not do what is said of it

- `src/semver.c:75` says that numeric identifiers always have lower precedence than
  non-numeric ones. The code compares such a pair with `strcmp` (line 126), so 9 < 10 <
  1a < 9 is a cycle. For numbers below 2^31, `AgreesWithPrecedence` says exactly when the
  sign is right.
- A hyphen in build metadata is taken for the start of a pre-release when there is none
  (`src/semver.c:167-168`); `AgreesExactly` includes those versions, and says when the
  sign is right all the same. So the check of a configuration accepts 1.0.0+a-a, which is
  newer than the supported 1.0.0-rc1, but not 1.0.0; `AcceptsExactly` says when it is
  wrong.
- The difference of two numeric identifiers is cut to 32 bits (`src/semver.c:124`), so
  the sign can be wrong (`AgreesExactly` says when), and exchanging two of them that are
  half the range apart does not change the sign, as for 1.0.0-0 and 1.0.0-2147483648;
  `Antisymmetry` and `VersionsAntisymmetry` say exactly when.
- Tags are replaced one after another, first occurrence only (`src/util.c:357`). A value,
  alone or with its neighbours, can be misread as a later tag; `ExpandIsSubst` says
  exactly when. Paths are resolved to absolute ones (`src/spec_handlers/vm.c:34`), and
  size, devices and UUID are no part of a tag name either, so only the kernel parameters
  can do that (`src/spec_handlers/vm.c:43`); `LaunchExpands` says exactly when, and
  `ParamsNamedImage` are such inputs.
- A mount passed over because its source is missing is recorded, and later unmounted, as
  if it had been mounted (`src/mount.c:214-218`); `MountBalance` says what that does to
  the table, and `CreateThenStop` to the commands.
- A failed create leaves a directory that no command removes (`src/oci.c:761-779`);
  `CreateBlocksExactly` says when, and `FailedCreateBlocks` says so of every sequence of
  commands before and after.
- A stop whose `config.json` cannot be parsed returns true and does nothing
  (`src/command.c:170-173`); `StopFrees` says that this is the only way for a stop
  that finds a state file to return true and leave something.
- Two overlapping kills can put RUNNING back (`src/oci.c:198`, `src/oci.c:219`), and a
  pause or resume can write over a kill (`src/oci.c:1291-1293`); `LiveExactly` says when,
  `SafeForOneKillOnly` how many kills it takes, and `OverlapPutsRunningBack` and
  `PauseOverwritesKill` are such runs.
- Two starts that both read CREATED both return true (`src/oci.c:1004-1020`);
  `OneTrueExactly` says when, and `BothReturnTrue` is such a run.

## Model

| member | source | states |
|---|---|---|
| CLib.SplitJoin | src/semver.c:95-96 | splitting on a separator undoes joining, when no field holds the separator |
| CLib.ReadBack | src/state.c:171-187 | a 64-bit number printed in decimal is read back by strtoll, whatever text follows it that does not start with a digit |
| CLib.AtoiPrinted | src/semver.c:180 | atoi of a printed number is that number cut to 32 bits, with wrap-around |
| GNodes.GNode.Append | src/json.c:100-105 | appending keeps every earlier child and the parent links, on a heap of nodes with disjoint subtrees |
| GNodes.ParseAux | src/json.c:81-137 | for every JSON value: appends exactly its recursive flattening to the given node, changes no earlier child, terminates |
| GNodes.ParseObject | src/json.c:88-120 | an object appends one empty node, then one node per member with the value flattened below it, although the cursor moves |
| GNodes.ParseArray | src/json.c:121-129 | an array splices in the flattenings of its elements in order |
| GNodes.ParseScalar | src/json.c:130-136 | a scalar is one child holding its text, with an empty child below it inside an array |
| GNodes.ParseMember | src/json.c:102-112 | one turn of the object loop: the key becomes a sibling of the cursor, the value goes below it |
| Regroup.FailureClears | src/spec_handlers/mounts.c:104-124 | an error in any section handler leaves no item in its static variable |
| Regroup.Decode | src/spec_handlers/mounts.c:148-214 | for every array of objects and every handler of this shape: the items before the first bad object in order, an error exactly if there is one, the static variable empty again |
| MountsSection.GetFlagValue | src/spec_handlers/mounts.c:65-76 | the table search returns the flags of an option, none for an unknown one |
| MountsSection.Handler.SaveCurrentMount | src/spec_handlers/mounts.c:104-124 | appends the current mount if destination, type and source are set, else flags an error; the static variable is empty afterwards |
| MountsSection.Handler.HandleOptions | src/spec_handlers/mounts.c:86-101 | ORs the flags of all known options into the mount and joins the unknown ones with commas |
| MountsSection.Handler.HandleNode | src/spec_handlers/mounts.c:147-185 | one node of the flat list moves the state machine one step |
| MountsSection.Handler.HandleSection | src/spec_handlers/mounts.c:187-214 | the whole handler: its result, the list and both static variables, with mounts already present or none |
| MountsSection.DecodeMounts | src/spec_handlers/mounts.c:187-214 | fails exactly if an object with a non-empty member lacks destination, type or source; the list is the mounts before it, in order, flags and options decoded |
| HooksSection.NodeToStrv | src/util.c:445-461 | the loop fills a NULL-terminated array with the children's data in order |
| HooksSection.StrvOfStrings | src/util.c:445-461 | an array of strings comes back as that array |
| HooksSection.Handler.SaveCurrentHook | src/spec_handlers/hooks.c:30-51 | appends the current hook if its path is not empty, else flags an error; the static variable is empty afterwards |
| HooksSection.Handler.HandleHook | src/spec_handlers/hooks.c:58-91 | one node of a hook list moves the state machine one step |
| HooksSection.Handler.HandleSection | src/spec_handlers/hooks.c:119-137 | the whole handler over all three lists: result, lists and static variables |
| HooksSection.DecodeList | src/spec_handlers/hooks.c:93-117 | one known list: the hooks before the first without a path are appended in order, all of them if there is none, and nothing leaks into the next list |
| HooksSection.DecodeHooks | src/spec_handlers/hooks.c:119-137 | for every hooks object: fails exactly if a hook of the three known lists has no path; the lists gain their hooks in order, with args and env equal to the JSON arrays, up to that hook, and all of them if there is none; other members add nothing |
| LinuxSection.StrToNs | src/namespace.c:98-115 | the table search returns the namespace type of a name, invalid for an unknown one |
| LinuxSection.Handler.HandleNamespacesSection | src/spec_handlers/linux.c:44-92 | one node of the namespace list moves the state machine one step |
| LinuxSection.Handler.HandleSection | src/spec_handlers/linux.c:108-136 | the whole handler: its result, the list and both static variables |
| LinuxSection.DecodeNamespaces | src/spec_handlers/linux.c:108-136 | fails exactly if some type is unknown; the list is the namespaces before that object, in order, the path absent exactly when empty or missing |
| LinuxSection.OnlyNamespaces | src/spec_handlers/linux.c:94-106 | of all members of the section only "namespaces" has any effect, wherever it stands |
| SectionsFromJson.MountsFromJson | src/spec_handlers/mounts.c:187-214 | from the JSON array through the heap tree to the configuration: accepted exactly if no object is incomplete, with one mount per object before the first that is |
| SectionsFromJson.HooksFromJson | src/spec_handlers/hooks.c:119-137 | the same for a hooks object: accepted exactly if no hook lacks a path, with the three lists up to that hook |
| SectionsFromJson.NamespacesFromJson | src/spec_handlers/linux.c:108-136 | the same for a linux object: accepted exactly if no type is unknown, with the namespaces before the first that is |
| Sections.FlattenStrings | src/json.c:121-137 | an array of strings becomes one node per string, in order, each with one empty child |
| SectionTexts.FlagIsBits | src/spec_handlers/mounts.c:31-56 | every flag name, by its text, has the bits that <sys/mount.h> gives it, and no other text has any |
| SectionTexts.MountTexts | src/spec_handlers/mounts.c:147-185 | a mount's directory, type and source are the texts at "destination", "type" and "source"; a flag bit is set exactly if an option has it, and the other options are joined in order |
| SectionTexts.HookTexts | src/spec_handlers/hooks.c:58-91 | a hook's path, arguments, environment and timeout are what stands at "path", "args", "env" and "timeout" |
| SectionTexts.NsIsSpace | src/namespace.c:40-50 | the seven namespace names, by their texts; every other text is invalid |
| SectionTexts.NamespaceTexts | src/spec_handlers/linux.c:44-92 | an object has a namespace exactly if its "type" is absent or one of these; its path is the text at "path" unless that is empty |
| StateFile.StatusRoundTrip | src/state.c:743-798 | every status but the invalid one has a name, and the name reads back to it |
| StateReader.Reader.HandleSection | src/state.c:159-377 | each section handler sets its field and raises its own counter as specified |
| StateReader.Reader.HandleSections | src/state.c:385-404 | one top-level node is dispatched to the handler of its key, over the children below it |
| StateReader.Reader.StateFileRead | src/state.c:464-514 | the reader with its global counters equals a pure function of the file: files read earlier make no difference |
| StateCodec.CountersOfObject | src/state.c:385-404 | each counter ends at what its handler found below its own key, whatever the order of the members |
| StateCodec.Acceptance | src/state.c:464-514 | a file is accepted if and only if every required member and sub-member is there with text and the pid starts with a number |
| StateDecode.DecodeObject | src/state.c:385-404 | every field of the state read depends on its own member only, and is decoded from it, in any order of members |
| StateRoundTrip.DocDistinct | src/state.c:606-687 | the keys written are pairwise different |
| StateRoundTrip.RoundTrip | src/state.c:561-715 | for every configuration that can be written, with any pid: the file is accepted exactly when a console was set, and gives back id, pid, paths, status, timestamp, console, vm fields, the recorded destinations in order and the annotations |
| StateRoundTrip.SameAnnotations | src/state.c:353-377 | the annotations come back in reverse order but are the same map |
| Rewrite.RecordedAgain | src/mount.c:309-329 | the destinations read from a file are the ones recorded when it is written again |
| Rewrite.Reload | src/oci.c:136-179 | reading a file and transferring the state gives back the configuration it was written from, without annotations |
| Rewrite.RewriteKeepsFields | src/oci.c:1695-1728 | for every new status, the file written again differs in the status and the annotations only |
| FileText.CreatedText | src/state.c:606-687 | the file of a created container, for every status, text for text: keys, order, the unsigned pid, the socket paths, the root before each directory, the console, the VM, the annotations |
| FileText.FileReads | src/state.c:464-514 | reading that file gives the pid, id, bundle path, both sockets below the runtime directory, status, time, the destinations in order, console, VM and, as a map, the annotations |
| Framing.Conservation | src/network.c:151-195 | for all bytes: the messages each followed by CRLF, then the buffer, are the bytes received |
| Framing.NoSeparatorLeft | src/network.c:151-195 | in a NUL-free stream no message and no buffer holds a CRLF |
| Framing.FramesExtend | src/network.c:142-147 | framing a longer stream is framing what came first, then the buffer with what came after |
| Framing.FramesOfMessages | src/network.c:151-195 | framing is the inverse of sending each message with CRLF |
| Framing.TakeMessages | src/network.c:151-195 | the inner loop takes off exactly the complete messages; a search bound beyond the buffer makes no difference |
| Framing.MsgRecv | src/network.c:102-224 | the outer loop: after any number of chunks the messages and the buffer are those of the bytes received, and the outcome is decided by the count alone |
| Framing.ChunkingDoesNotMatter | src/network.c:102-224 | exactly the expected messages, cut into chunks in any way, even inside CRLF, are received and nothing is left |
| Framing.FramesOfStream | src/network.c:151-195 | messages that are complete and an unfinished one are told apart |
| Framing.FramesStopAtNul | src/network.c:151-195 | a NUL ends the search: messages before it are framed, everything after it stays in the buffer, separators included |
| Framing.RecvExactly | src/network.c:102-224 | for every stream and every way to cut it: complete exactly if the chunk that brings the last expected message ends with it; the assertion exactly if that chunk holds more, but no further whole message; a failed receive if it brings more messages than expected, or the stream holds fewer |
| Uuid.Snprintf | src/hypervisor.c:109-118 | a bounded print writes no more than fits with its terminator and returns the full length |
| Uuid.PutByte | src/hypervisor.c:107-119 | one turn of the loop: two hex digits, and a hyphen where the pattern has one, inside the buffer |
| Uuid.Format | src/hypervisor.c:107-119 | for every 16 bytes the index stays in the 37-byte buffer and ends at 36 with the text of section 3 of RFC 4122 |
| Uuid.RfcTextDecodes | src/hypervisor.c:72-73 | hyphens at 8, 13, 18 and 23 and nowhere else, and the digits decode back to the bytes |
| Uuid.NameIsLastTwelve | src/hypervisor.c:210-211 | the text after the last hyphen is exactly the last twelve digits |
| Semver.IsNumeric | src/semver.c:43-60 | true exactly for text of digits only, which includes the empty text |
| Semver.CmpPreReleases | src/semver.c:82-139 | the loop compares field by field: the first difference decides, then the number of fields |
| Semver.SplitPatchVersion | src/semver.c:156-181 | writing NULs over the first '-' and '+' leaves the patch number and the pre-release as C strings in the buffer |
| Semver.CmpPatchVersions | src/semver.c:192-253 | patch numbers first, then presence of a pre-release, then the pre-releases |
| Semver.SemverCmp | src/semver.c:264-348 | the whole comparison on any two texts, with the ones that stop the program |
| SemverOrder.RenderFields | src/semver.c:332-339 | the split into three fields gives back major, minor and patch text of every version |
| SemverOrder.PatchParts | src/semver.c:156-181 | patch number and pre-release are found again in the text of every well-formed version whose core is below 2^31 and whose build metadata is not misread |
| SemverOrder.AgreesWithPrecedence | src/semver.c:82-139 | where numbers are below 2^31 and no build hyphen is misread: the sign is the precedence of section 11 of Semantic Versioning 2.0.0 if and only if the first differing identifiers are not a numeric and an alphanumeric one that strcmp puts the wrong way |
| SemverFields.FieldSign | src/semver.c:119-127 | on any two fields: the result is 0 or positive exactly for texts, or digits in 32 bits, that are equal or after one another |
| SemverFields.FieldAfterIsOrder | src/semver.c:119-127 | on identifiers that is the order of the standard, but for the pairs that strcmp puts the wrong way |
| SemverFields.FieldsSign | src/semver.c:98-133 | on any two lists of fields: the first difference decides, then which list ends |
| SemverHyphens.HyphenParts | src/semver.c:167-178 | build metadata after its first hyphen is taken for a pre-release when there is none |
| SemverHyphens.AgreesExactly | src/semver.c:192-253 | for all well-formed versions with a bounded core: the sign is the precedence if and only if the order of the texts and 32-bit numbers of their pre-releases is the standard's and, where build metadata is misread, its fields happen to be equal, or after those of the real pre-release |
| SemverHyphens.BoundedMisread | src/semver.c:119-127 | when identifiers are bounded, pre-releases are misread exactly if the first that differ are put the wrong way |
| SemverLaws.Antisymmetry | src/semver.c:264-304 | on every two texts: exchanging them negates the sign if and only if the deciding identifiers are not numbers exactly half the 32-bit range apart |
| SemverHyphens.VersionsAntisymmetry | src/semver.c:264-304 | for all well-formed versions with a bounded core: exchanging them negates the sign if and only if their fields, real or misread, are not first different in numbers half the 32-bit range apart |
| SemverHyphens.InDomainNotHalfApart | src/semver.c:264-304 | which no two versions are whose identifiers are bounded and whose build metadata is not misread, mixed identifiers included |
| SemverHyphens.HalfRange | src/semver.c:119-124 | 1.0.0-0 and 1.0.0-2147483648 are each older than the other |
| SemverHyphens.HyphenHalfRange | src/semver.c:167-173 | so are 1.0.0+a-0 and 1.0.0+a-2147483648 |
| SemverLaws.LetterLedAgrees | src/semver.c:119-127 | when moreover alphanumeric identifiers start with a letter, the sign is the precedence |
| SemverLaws.Transitivity | src/semver.c:264-304 | on those versions the comparison is transitive, strictly if one step is strict |
| VersionCheck.AcceptsExactly | src/oci-config.c:61-87 | for all well-formed versions with a bounded core: the check accepts exactly those of precedence up to the supported one, if and only if the version is not a 1.0.0 whose build metadata, misread, compares as the supported pre-release or as one before it; a missing version is refused |
| VersionCheck.AcceptedDownwardClosed | src/oci-config.c:61-87 | for all of them: a version not above an accepted one is accepted, if and only if it is not itself above the supported one, below one so misread |
| VersionCheck.NewerIsAccepted | src/oci-config.c:75-84 | 1.0.0+a-a, which is newer than the supported version, is accepted, and 1.0.0 of the same precedence is refused |
| SemverLaws.Cycle | src/semver.c:119-127 | 1.0.0-9, 1.0.0-10 and 1.0.0-1a are each older than the next, round in a cycle |
| SemverHyphens.BuildHyphenSeen | src/semver.c:167-173 | 1.0.0+a-1 compares as older than 1.0.0 |
| CmdLine.ReplaceString | src/util.c:340-376 | replaces the first occurrence in one argument in place, and leaves the other arguments |
| CmdLine.ExpandArg | src/hypervisor.c:150-220 | the ten replacements in order, in one argument in place |
| CmdLine.Launch.ExpandCmdline | src/hypervisor.c:57-227 | fails without change exactly if the VM, image, kernel or root is missing; otherwise every argument is expanded, the first after a program lookup, and a missing console becomes a socket |
| Templates.ReplacePieces | src/util.c:357-370 | replacing the first @NAME@ in a text is closing up the first inner piece between '@'s that is NAME |
| Expansion.MergeFill | src/util.c:340-376 | without an impostor before it, the piece closed up is the first real tag |
| Expansion.StuckForever | src/hypervisor.c:150-220 | a piece that a replacement joined wrongly, or whose turn is over, keeps its '@'s to the end |
| Expansion.ExpandIsSubst | src/hypervisor.c:150-220 | sequential replacement equals simultaneous substitution, and leaves no '@', if and only if no tag is repeated and no text between two remaining tags is misread as a tag name |
| Expansion.ForeignValuesExpand | src/hypervisor.c:150-220 | it is the substitution whenever literals are no bare tag names and every value has a character no tag name has |
| KernelParams.OneNameMisread | src/hypervisor.c:150-220 | with foreign values, a literal that is a tag name is misread exactly if its tag is still to be replaced while both neighbours stand, and no real tag of that name comes first |
| KernelParams.ParamsMisreadExactly | src/hypervisor.c:175-220 | with foreign values for all other tags, an argument is misread exactly if the kernel parameters and the literals around them make the name of a later tag, in a place that can be told from the argument |
| KernelParams.LaunchValuesForeign | src/hypervisor.c:57-148 | of the values of a launch with resolved paths, all but the kernel parameters hold a character that no tag name has |
| KernelParams.LaunchExpands | src/hypervisor.c:57-227 | so for every launch with kernel parameters: an argument gets every tag's value at once if and only if no tag is repeated and the kernel parameters are not misread |
| KernelParams.ParamsNamedImage | src/hypervisor.c:175-185 | in @UUID@@KERNEL_PARAMS@@NAME@ kernel parameters IMAGE are taken for a tag, and so are empty ones between the literals IMA and GE |
| MissingParams.RestExpands | src/hypervisor.c:175-176 | with foreign values but no kernel parameters: all other tags get their values at once and that of the parameters is left in place, if and only if no other tag is repeated |
| MissingParams.LaunchWithoutParams | src/hypervisor.c:57-227 | so for every launch without kernel parameters |
| TagValues.PathTags | src/hypervisor.c:163-195 | an argument that is @WORKLOAD_DIR@, @KERNEL@, @KERNEL_PARAMS@, @IMAGE@ or @COMMS_SOCKET@ becomes the root, the kernel, the parameters, the image, the comms socket; missing parameters leave their tag |
| TagValues.NumberTags | src/hypervisor.c:121-220 | @SIZE@ becomes the decimal size of the image, @UUID@ the UUID, @NAME@ its last twelve digits |
| TagValues.DeviceTags | src/hypervisor.c:126-148 | @PROCESS_SOCKET@ becomes the device on the process socket, @CONSOLE_DEVICE@ the one on console.sock in the runtime directory, or on the standard streams if a console was given |
| NamedTags.ArgumentExpands | src/hypervisor.c:57-227 | for every launch with kernel parameters and every argument: each tag becomes, at once, what its name stands for, if and only if no name is repeated and the parameters are not read as a name |
| NamedTags.ArgumentWithoutParams | src/hypervisor.c:57-227 | so without kernel parameters, whose tag stays, if and only if no other name is repeated |
| MountTable.MountRun.MountIgnore | src/mount.c:53-85 | a mount is flagged ignored exactly if its directory is in the table |
| MountTable.MountRun.HandleMount | src/mount.c:203-241 | one turn of the loop: flag, destination below the root, table, and whether it goes on |
| MountTable.MountRun.HandleMounts | src/mount.c:190-245 | stops at the first mount that fails; the mounts before it are handled, with destinations below the root, and mounted, the others untouched |
| MountTable.MountRun.HandleUnmounts | src/mount.c:273-296 | unmounts the mounts that are not flagged ignored in order, up to the first failure |
| MountTable.MountRun.MountsToJson | src/mount.c:309-329 | lists the destinations of the mounts that are not flagged ignored, in order |
| MountTable.RecordedIsMounted | src/mount.c:210-219 | the recorded destinations are those mounted, in order, if and only if no mount was passed over for a missing source |
| MountTable.SkippedNothing | src/mount.c:210-219 | that is, if and only if every absolute source that is not ignored exists |
| MountTable.UnmountsWhatIsThere | src/mount.c:273-296 | a list can be unmounted exactly when the table holds it as a multiset, which is then what leaves the table |
| MountTable.MountBalance | src/mount.c:190-296 | unmounting the list read back succeeds exactly when the earlier table held what was passed over, and leaves the earlier table without it: the earlier table itself when nothing was passed over |
| Destinations.OneHandled | src/mount.c:200-212 | a mount on one of the seven directories that the VM has of its own is flagged; any other gets the root followed by its directory as destination; nothing else changes |
| Destinations.StopsAt | src/mount.c:200-241 | the loop stops at the first mount that is neither flagged nor passed over, and whose directory cannot be made, or which cannot be mounted |
| Destinations.HandledPlaces | src/mount.c:200-241 | after the loop, every mount before that place, and every one after it |
| Destinations.RecordedPlaces | src/mount.c:309-329 | what is recorded is the root followed by the directory, in order, for all mounts but the flagged ones |
| Destinations.MountedPlaces | src/mount.c:200-241 | what is mounted are those whose source exists or is no absolute path, in order; what is passed over are the others |
| Destinations.AllBelowRoot | src/mount.c:210-212 | every destination mounted, passed over or recorded begins with the root |
| Destinations.DistinctPlaces | src/mount.c:210-212 | mounts on different directories never have the same destination |
| CleanupRace.StepSafe | src/oci.c:626-644 | every interleaved call keeps: one cleaner ahead, and a thing is there exactly while nobody has got past its removal |
| CleanupRace.AtMostOneTrue | src/oci.c:626-644 | of any number of interleaved cleanups at most one returns true |
| CleanupRace.DirectoryGoesLast | src/oci.c:631-643 | only that one removes the directory, when every listed mount and the state file are gone |
| CleanupRace.ExactlyOneTrue | src/oci.c:626-644 | if calls fail only because the thing is gone, exactly one returns true once all have finished, and nothing is left |
| CleanupRace.AloneIsCleanup | src/oci.c:626-644 | run without interruption, the steps are the sequential cleanup of the lifecycle commands, whichever calls are refused |
| KillProtocol.StepSafe | src/oci.c:190-236 | every step of serial kills, the VM and the waiter keeps: after a delivered signal only halted statuses can be put back |
| KillProtocol.HaltedForEver | src/oci.c:190-236 | when kills are issued one after another and no other command writes: once a signal is delivered, no status but STOPPING or STOPPED is ever recorded again, with any failing calls |
| KillProtocol.WaiterLeavesItAlone | src/oci.c:1119-1137 | delivered before the waiter reads the status again, it never cleans up and the status stays halted; file and directory stay unless a stop removes them |
| KillProtocol.DeliveredThenNoCleanup | src/oci.c:1119-1137 | when signals reach live VMs only, that is so for every delivered signal |
| KillProtocol.HaltedExactly | src/oci.c:190-236 | from any halted status, over every interleaving of kills, pauses, resumes, starts and stops: it stays halted at every step if and only if no refused kill puts back a live status it had loaded, and no other command writes over it |
| KillProtocol.LiveExactly | src/oci.c:210-226 | over every such interleaving: once a signal is delivered, a status that is recorded is live if and only if the last write was such a one |
| KillProtocol.WaiterCleansExactly | src/oci.c:1119-1137 | so that is exactly when a waiter that wakes and finds the file begins to clean up |
| KillProtocol.SafeForOneKillOnly | src/oci.c:190-236 | without other commands that write, every interleaving keeps a halted status after a delivered signal if and only if there is at most one kill |
| KillProtocol.OverlapPutsRunningBack | src/oci.c:197-226 | with two or more kills, two that overlap put the live status back after a delivered signal, and the waiter cleans up |
| KillProtocol.PauseOverwritesKill | src/oci.c:1264-1294 | a pause that read the file before a kill writes PAUSED after it, and the waiter cleans up |
| KillProtocol.StepsAreKillAlone | src/oci.c:190-236 | run without interruption, the steps are the sequential kill |
| StartRace.OneTrueExactly | src/oci.c:1004-1020 | over every interleaving of starts that do not wait: at most one returns true if and only if none writes RUNNING over RUNNING, having read CREATED before |
| StartRace.SerialOneTrue | src/oci.c:1004-1020 | of starts issued one after another at most one returns true |
| StartRace.SafeForOneStartOnly | src/oci.c:1004-1112 | every interleaving is so if and only if there is at most one start |
| StartRace.BothReturnTrue | src/oci.c:1004-1112 | two starts that both read CREATED before either writes both return true |
| StartRace.StepsAreStartAlone | src/oci.c:987-1164 | run without interruption, the steps are the sequential start |
| Lifecycle.Runtime.StateFileCreate | src/state.c:561-715 | replaces the file as a whole or leaves it as it was, and returns true exactly if every guard is passed and the write succeeds |
| Lifecycle.Runtime.Cleanup | src/oci.c:626-644 | unmount, unlink, remove, stopping at the first failure |
| Lifecycle.Runtime.GetConfigAndState | src/oci.c:136-179 | loads the configuration and the state, or fails on an unreadable file or an empty bundle path |
| Lifecycle.Runtime.ClrOciCreate | src/oci.c:730-813 | the command step by step, with every failure and what it leaves behind |
| Lifecycle.Runtime.ClrOciStart | src/oci.c:987-1164 | the command step by step: status test, resume, RUNNING, and the waiting start's second reading and cleanup |
| Lifecycle.Runtime.FinishWait | src/oci.c:1118-1137 | the part after the wait, on whatever the host is by then: second reading, and the cleanup unless the VM was stopped |
| Lifecycle.Runtime.ClrOciToggle | src/oci.c:1264-1294 | pause and resume step by step |
| Lifecycle.Runtime.ClrOciKill | src/oci.c:190-236 | STOPPING before the signal, then STOPPED or the old status |
| Lifecycle.Runtime.HandleCommandStop | src/command.c:135-208 | the command step by step, true without a state file and when config.json cannot be parsed |
| LifecycleRuns.OtherPaths | src/runtime.c:49-55 | the directory of one id is never above the paths of another |
| LifecycleRuns.OthersUntouched | src/runtime.c:119-129 | no command changes the state file or the directory of another id |
| LifecycleHistory.LoadShown | src/oci.c:136-179 | a command that reads the file works with the configuration it was written from |
| LifecycleHistory.WriteShown | src/state.c:561-715 | what it writes shows the same creation with the new status |
| LifecycleHistory.StartShows | src/oci.c:987-1164 | a start that returns true found CREATED and leaves RUNNING, or no file after a cleanup; status and result of one that does not wait are those of the sequential start |
| LifecycleHistory.KillShows | src/oci.c:190-236 | recorded status and result of a kill are those of the sequential kill |
| LifecycleHistory.ToggleShows | src/oci.c:1264-1294 | a pause or resume returns true exactly if the container is already there, or the VM takes the command and the file is written; otherwise nothing changes |
| LifecycleHistory.StopFrees | src/command.c:135-208 | a stop that returns true on a container with a state file leaves neither file nor directory if and only if config.json could be parsed; if not, it has changed nothing |
| LifecycleHistory.StepKeepsOwn | src/oci.c:730-813 | every command keeps what a state file says about its creation |
| LifecycleHistory.FieldsStayAsCreated | src/oci.c:1695-1728 | after any commands, every field of a state file but status and annotations is what create wrote |
| LifecycleHistory.StartedAtMostOnce | src/oci.c:1004-1020 | after any commands run one after another, at most one start has returned true since an id was created |
| LifecycleHistory.CreateOnExisting | src/runtime.c:67-111 | after any commands, create on an id with a state file fails and changes nothing |
| LifecycleHistory.KillAfterHistory | src/oci.c:210-226 | after any commands, a kill whose signal is refused but whose writes succeed leaves the status as it was |
| LifecycleHistory.CreateBlocksExactly | src/oci.c:730-813 | a create of a new id leaves a directory without a file if and only if it is a dry run, or a mount, the workload, the timestamp, the launch or the write fails; the mounts it made stay too |
| LifecycleHistory.FailedCreateBlocks | src/oci.c:748-799 | after any commands such a create blocks its id, and it stays blocked through any commands that follow |
| LifecycleHistory.BlockedForEver | src/runtime.c:67-111 | from then on no commands can ever create that id again or remove the directory |
| CleanUps.UnmountStops | src/mount.c:273-296 | with any destinations busy: the first ones, up to one that is busy or not mounted, leave the table as a multiset |
| CleanUps.CleanUpDoes | src/oci.c:626-644 | a cleanup returns true exactly if all destinations are mounted and none is busy, the file is there and can be unlinked, and the directory removed; what is left after each failure |
| CleanUps.WaitEnds | src/oci.c:1118-1137 | on any host: after the wait a file that shows STOPPED or STOPPING means true and nothing changed; any other status means a cleanup of the recorded mounts, the file and the directory, and true exactly if all of it succeeds and the connection was made |
| CleanUps.StopDoes | src/command.c:135-208 | on any host: a stop unmounts exactly what the file lists; it fails with nothing changed on an unusable file, or if a running VM of known pid cannot be shut down; and when it returns true |
| WaitSteps.StepsAreAfterWait | src/oci.c:1118-1137 | run without interruption, the waiter's second reading and cleanup calls are the part after the wait, from every host and whichever calls are refused |
| Outcomes.ToggleDoes | src/oci.c:1264-1294 | pause and resume on a container: the result and the whole host, from the status in the file and the answers of the system |
| Outcomes.KillDoes | src/oci.c:190-236 | a kill likewise: STOPPED and true exactly if it reads, marks, signals and writes; a refused signal leaves the status |
| Outcomes.StartDoes | src/oci.c:987-1117 | a start that does not wait likewise |
| Outcomes.WaitDoes | src/oci.c:987-1137 | a start that waits, with no other command in between: it cleans up what the creation recorded |
| Outcomes.StopsContainer | src/command.c:135-208 | a stop of a container: it unmounts what the creation recorded |
| Containers.CreateDoes | src/oci.c:730-813 | a create on any host: exactly when it returns true, and the directories, the table and the files it leaves, down to the text of the state file |
| Containers.EveryFile | src/oci.c:1695-1728 | after any commands on any ids, with any calls failing: every state file is, text for text, that of the last creation of its id that returned true, but for its status and dropped annotations |
| Containers.CreatedBetweenStarts | src/oci.c:1004-1020 | between two starts of an id that return true, a creation of it returned true |
| CreateStop.CreateThenStop | src/mount.c:190-296 | create, any commands that mount and unmount nothing, and a stop that is refused nothing: it returns true exactly if the earlier table held what was passed over, takes exactly that away, and gives the earlier table back if and only if nothing was passed over |

## Left out

- MountsSection.DecodeMounts: speaks of arrays of objects with distinct keys whose fields are strings (options: arrays of strings); for other JSON `Handler.HandleSection` gives the state machine only.
- HooksSection.DecodeHooks: speaks of known lists that are arrays of well-typed hook objects; for other JSON `Handler.HandleSection` gives the state machine only.
- LinuxSection.DecodeNamespaces: speaks of arrays of objects with distinct keys and string fields.
- StateCodec.Acceptance: console and vm are not arrays, and keys are distinct, as json-glib makes them.
- StateRoundTrip.RoundTrip: annotations have distinct keys; a pid is a signed 32-bit number, as a GPid is.
- SemverHyphens.AgreesExactly: the numbers of the core are below 2^31, since beyond it the code saturates and wraps; those of the identifiers and in build metadata are not bounded.
- SemverLaws.Transitivity: versions whose numbers are below 2^31, whose alphanumeric identifiers start with a letter, and whose build metadata is not misread; `Cycle` is why.
- SemverHyphens.VersionsAntisymmetry: the numbers of the core are below 2^31; those of the identifiers are not bounded.
- Semver.SemverCmp: a version with fewer than three fields is an abort of the program, without its message.
- Framing.MsgRecv: an abort at the assertion that the buffer is empty is an outcome, without its message; the end of the list of chunks stands for a failed receive.
- Framing.RecvExactly: messages and the unfinished text hold no CRLF and no NUL, and no chunk is empty; `MsgRecv` has the failed receive.
- CleanUps.StopDoes: the file has distinct keys, its "mounts" is an array of strings, as it is written, and console and vm are not arrays.
- CreateStop.CreateThenStop: commands in between are pauses, resumes, kills and starts that cannot wait, of any ids; what they may do otherwise is in `Outcomes`.
- Outcomes.WaitDoes: no other command comes between the parts of the start; `CleanUps.WaitEnds` is for any host in between, and `WaitSteps` is the tie to `KillProtocol`.
- NamedTags.ArgumentExpands: between tags, literals are no bare tag names; paths and parameters hold no '@', and paths are resolved.
- KernelParams.LaunchExpands: between tags, literals are no bare tag names; values hold no '@'. `MissingParams.LaunchWithoutParams` is the case of no kernel parameters.
- KillProtocol.HaltedExactly: the write of a pause, a resume or a start, and a stop's unlink and removal, are steps that may come at any time, as if the command had read the file before.
- StartRace.OneTrueExactly: the starts are the only commands that write, and do not wait for the VM.
- Expansion.ExpandIsSubst: all ten values are given and hold no '@'; a missing value (kernel parameters only) leaves its tag, as `CmdLine.Replace` says.
- CleanupRace.DirectoryGoesLast: a recursive removal is one step, and the destinations are distinct and mounted once each at the beginning.
- Lifecycle.Runtime.Cleanup: a recursive removal that fails leaves the directory; what else it held beside the state file is not modelled.
- LifecycleRuns.OthersUntouched: ids are not empty, not "." or "..", and hold no '/'; all commands use one root directory.
- LifecycleHistory.FieldsStayAsCreated: commands run one after another; `KillProtocol`, `StartRace` and `CleanupRace` are what is modelled of commands that interleave. "start --bundle" is not modelled.
- Paths longer than PATH_MAX, which the fixed-size buffers cut.
- JSON doubles, and the text of a JSON parse error.
- GLib main loops, sockets, inotify and process spawning: only their effect is kept, as steps and answers of the environment.
- The contents of QMP replies and the success of a VM's launch, which the code does not enforce.
- Running hooks: prestart hooks do not make create fail, and poststop hooks find no state file, so nothing is claimed of them.
- clr_oci_run, which is create and then start; clr_oci_exec, which is unfinished.
- Logging, option parsing, list formatting and attach; the quoting of the workload's command line.
- The platform, root, process and vm section handlers, which are single tests and copies.
- Freeing memory.
