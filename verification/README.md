# devc: a verified model of its core logic

devc brings development containers up from a `devcontainer.json`, and lets editors reach them over
SSH. Most of it is plumbing around podman or docker. This project models the parts that are
self-contained logic and proves what they promise, for all inputs, runs and interleavings:

- **JSONC stripping** (`JsoncLexer`, `JsoncStrip`, `JsoncProps`, `JsoncPosition`). The one-pass,
  in-place scanner equals a two-stage specification: blank the comments, then blank the commas
  whose next significant byte closes an object or array. The modes it goes by are the lexical
  grammar of strings and comments. Stripped text has the same strings and no comments; stripping is
  idempotent exactly without stacked commas; reported line numbers are short by exactly the
  newlines inside block comments.
- **Variable substitution** (`Expansion`, `StringTree`, `Substitution`). One pass replaces the
  leftmost `${...}` references of a string; three passes at most rewrite a tree of strings. The
  early exits change nothing, map order does not matter, it succeeds exactly when it does string by
  string, the result is stable in every context, and clean replacements need one pass.
- **The life of a workspace** (`Lifecycle`, `LifecycleSteps`, `LifecycleRuns`, `LifecycleMarkers`,
  `LifecycleResults`, `LifecycleExamples`). A class performs `devc up` on a persisted record and a container; functions
  on values specify it; each step's effect is given in closed form; invariants hold over every
  sequence of ups, failures, outside changes and purges, failing lookups included. The single
  container and several service containers can exist side by side on one record.
- **The SSH session** (`Wire`, `SessionRequests`, `Session`, `SessionProofs`, `SessionWire`). Payload parsers are
  inverse to the encodings of section 5 of RFC 4251 and sections 6.2, 6.4, 6.5, 6.7 and 7.2 of
  RFC 4254, with uint32 arithmetic written out. A session is a state machine of three threads that
  share its channel.
- **Remote forwards** (`Forwards`). The table of listeners against what the operating system has
  open, for requests one after the other and for a teardown at any moment, with requests being
  served or still queued.
- **Printers and parsers** (`ShellWords`, `EnvFile`) and **workspace rows** (`Inspect`), whose
  objects are updated through a map after they have been appended to the result.

Where the code does not keep a promise, the model keeps the code, and the failing case and the
exact condition are proved:

- `Strip(Strip(x)) = Strip(x)` fails for stacked commas such as `,,]` (`StripIdempotentIff`).
- "Offsets map to the original layout" holds for line and column exactly when no block comment
  contains a newline (`PositionExactIff`, `BlockNewlineExample`); the comment in
  config/parse.go:172-174 says it always does.
- "Once per container" for create hooks (`AtMostOnceIff`): a hook succeeds again in a container
  exactly when an unforced up has it configured, the record is for another identity or lacks its
  marker, and none needed before it fails. It stays at one success unless the record loses track:
  the lookup after the bring-up fails, so that the container's name becomes the identity, or an up
  goes back to a container that is not the recorded one and where the hook had succeeded
  (`AtMostOnce`). Runs: `FailedLookupRepeatsHook`; `ReturnRepeatsHook`, where every lookup succeeds
  and two compose services share the record; and `ForgottenMarkerRepeatsHook`, where the hook repeats
  in the very container that is recorded.
- A marker in state.json can stand for a hook that never ran in the recorded container: an up with
  `--skip-hooks` changes the recorded identity when it caches the probe and keeps the markers, so the
  next up passes over them (`MarkersValidIff`, `AdoptionSkipsHook`, `AdoptionRun`).
- A served probe is another container's exactly when the second lookup fails and the last probe,
  still fresh under the name, was taken elsewhere (`SessionEnvIsOwnIff`; a run:
  `FailedLookupServesForeignProbe`). It does not see what a create hook has changed exactly when it
  comes from a fresh cache and a hook has run since it was taken (`ProbePredatesHookIff`; a run:
  `SkippedHookUnseenByProbe`), although cmd/devc/up.go:85-86 says that it does.
- A teardown leaves open the listener that is opened but not registered, and those of the starts
  still to be served that nothing cancels later (`TearDownLeaves`, `TearDownLeaksIff`;
  runs: `QueuedStartLeaks`, `OpenedStartLeaks`).
- An exit status is lost when the request loop, which closes the channel as well, ends before it is
  sent (`ExitStatusDelivered`, `ExitStatusLost`).
- The environment file loses entries whose key has an equals sign or newline, whose value ends in a
  carriage return, or whose line reaches the scanner's limit (`RoundTripIff`, `EqualsInKeyExample`).
- A terminal size is applied in 16 bits, and so is the one asked for exactly when both numbers fit
  (`Mailbox`).

The payload parsers index out of range only on four gigabytes or more (`CrashIff`), which no SSH
packet reaches.

Everything outside devc is a parameter: outcomes of hooks, lookups, builds and system calls, the
environment, timestamps, container ids and the interleaving of threads. `ConfigHash` is an opaque
string of the specification.

## Model

| member | source | states |
|---|---|---|
| JsoncStrip.Strip | jsonc/strip.go:20-111 | for every input: an error exactly when it ends inside a string or block comment, otherwise the two-stage result, in which comment bytes and trailing commas are blanks and every other byte stays |
| JsoncStrip.ReadSignificant | jsonc/strip.go:80-100 | a significant code byte settles the open comma and keeps the redundant trackers in step with it |
| JsoncStrip.ReadString | jsonc/strip.go:44-52 | string bytes are copied; an escaped byte is skipped with its backslash, also past the end |
| JsoncStrip.ReadBlock | jsonc/strip.go:59-67 | block comment bytes and both closing bytes become blanks |
| JsoncStrip.CommaDecided | jsonc/strip.go:87-94 | a comma followed only by blanks and comments is trailing exactly when the next significant byte closes |
| JsoncLexer.BlockExtent | jsonc/strip.go:59-79 | a block comment runs to the first closing pair at or after two bytes past its opener, or is unclosed |
| JsoncLexer.LineExtent | jsonc/strip.go:53-58 | a line comment runs up to the newline, which is not part of it |
| JsoncLexer.StringExtent | jsonc/strip.go:44-52 | a string runs to its first unescaped quote, or is unterminated |
| JsoncLexer.CodeByte | jsonc/strip.go:68-80 | code that opens no string or comment is followed by code, and a quote by a string |
| JsoncLexer.StringByte | jsonc/strip.go:44-52 | a quote ends a string, and a backslash takes the next byte with it |
| JsoncLexer.CommaBlankedIff | jsonc/strip.go:84-92 | a comma of the code is blanked exactly when only comments and the four white-space bytes stand between it and a closing brace or bracket of the code |
| JsoncLexer.StrippedBytes | jsonc/strip.go:4-7 | what is written for each byte: a blank in a comment, a blank or the comma, or the byte itself |
| JsoncLexer.BlankCommentsModes | jsonc/strip.go:4-7 | blanking comments keeps every string at its offset and turns comments into plain code |
| JsoncProps.Relex | jsonc/strip.go:13-16 | re-lexing the output finds no comment and the same string literals with the same bytes at the same offsets |
| JsoncProps.StripIdempotentIff | jsonc/strip.go:84-94 | stripping twice equals stripping once exactly when no comma waits, over blanks and comments, for a trailing comma |
| JsoncProps.StackedCommaExample | jsonc/strip.go:84-94 | two commas before a bracket lose one comma per pass |
| JsoncPosition.LineAndColumn | config/parse.go:178-186 | the loop counts newlines before the offset and the distance to the line's start, cutting offsets past the end |
| JsoncPosition.LineShortfall | config/parse.go:172-186 | the reported line is short by exactly the block-comment newlines before the offset |
| JsoncPosition.ColumnExactIff | config/parse.go:172-186 | the reported column is right exactly when the offset's line does not start after a block-comment newline |
| JsoncPosition.PositionExactIff | config/parse.go:172-186 | all positions are right exactly when no block comment holds a newline |
| JsoncPosition.BlockNewlineExample | config/parse.go:172-186 | behind a block comment that is one newline the line is short by one and the column too large |
| Expansion.ExpandFirst | config/subst.go:148-160 | a pass replaces the leftmost reference in place, keeps it if deferred or fails on it, goes on behind it, and does not look at the inserted text |
| Expansion.BaseOfPath | config/subst.go:171-176 | the base name of a folder is its last path element, whatever slashes follow |
| Expansion.EnvReference | config/subst.go:179-206 | a set variable wins over its default, an unset one takes the default, later colons included |
| Expansion.ExpandNone | config/subst.go:142-146 | text without a reference, and one that is never closed, is left alone |
| Expansion.BaseOfOthers | config/subst.go:171-176 | the base name of an empty path, of slashes only, and of a single element |
| Expansion.LocalFolderReference | config/subst.go:168-171 | `${localWorkspaceFolder}` becomes the host folder |
| Expansion.LocalBaseReference | config/subst.go:172-173 | `${localWorkspaceFolderBasename}` becomes the last element of the host folder |
| Expansion.ContainerFolderReference | config/subst.go:174-175 | `${containerWorkspaceFolder}` becomes the container's folder |
| Expansion.ContainerBaseReference | config/subst.go:176-177 | `${containerWorkspaceFolderBasename}` becomes the last element of the container's folder |
| Expansion.DevcontainerIdReference | config/subst.go:178-179 | `${devcontainerId}` becomes the id |
| Expansion.EnvReferenceAlone | config/subst.go:180-206 | `${localEnv:NAME}` becomes the value or the empty text |
| Expansion.EnvReferenceDefault | config/subst.go:180-206 | `${localEnv:NAME:default}` becomes the value or the default |
| Expansion.DeferredReference | config/subst.go:193-195 | a containerEnv reference stays |
| Expansion.UnknownReference | config/subst.go:168-200 | a reference fails exactly when it is of none of the seven kinds |
| Expansion.FailsIffUnknown | config/subst.go:146-166 | a pass fails exactly when some closed reference names an unknown variable |
| Expansion.OnlyDeferredFixed | config/subst.go:142-165 | a string whose closed references are all deferred, or that has none, is left alone in every context |
| Expansion.ExpandIdempotent | config/subst.go:142-206 | if the replacements that occur in a string are clean and non-empty, one pass reaches its fixed point, and what it leaves closed is deferred |
| Expansion.CleanInputs | config/subst.go:168-206 | replacements are clean when the folders, base names, id, variables and defaults that the string refers to are |
| Expansion.EmptyReplacementFormsReference | config/subst.go:148-160 | an empty replacement can join its neighbours into a new reference |
| Expansion.UnsetIsEmpty | config/subst.go:185-191 | an unset variable without a default is such an empty replacement |
| Expansion.BaseClean | config/subst.go:171-176 | the base name of a folder without a dollar sign is clean exactly when it does not start with a brace |
| StringTree.SubstituteValue | config/subst.go:74-138 | one pass fails exactly when some string is rejected, else rewrites every string; the changed flag is exact; map order is arbitrary |
| StringTree.SubstituteMap | config/subst.go:117-135 | entries are rewritten in an arbitrary order with the same result |
| StringTree.SubstituteList | config/subst.go:109-116 | elements are rewritten in order; the changed flag is exact |
| StringTree.FollowRewritten | config/subst.go:74-138 | rewriting changes the string at the end of every path and adds none |
| Substitution.ExpandFolder | config/subst.go:42-53 | leaving the folder loop early gives the same context or failure as all three passes |
| Substitution.ExpandTree | config/subst.go:55-64 | leaving the tree loop early gives the same tree or failure as all three passes |
| Substitution.Substitute | config/subst.go:29-69 | tree and success are those of always running every pass and then checking for leftover references |
| Substitution.SubstituteIterates | config/subst.go:55-64 | every string ends as the three-fold iterate of one pass, wherever it sits |
| Substitution.SubstituteStable | config/subst.go:66-68 | a substituted configuration is unchanged by a further substitution in any context |
| Substitution.DeferredStringUnaltered | config/subst.go:71-73 | strings with only deferred references are never altered by any number of passes |
| Substitution.SubstituteSucceedsIff | config/subst.go:42-69 | the substitution succeeds exactly when the folder settles and each string by itself passes three times and ends with deferred references only |
| Substitution.CleanFolder | config/subst.go:42-53 | a folder whose occurring replacements are clean settles after one pass, or fails in it |
| Substitution.CleanNeedsOnePass | config/subst.go:42-69 | when the replacements that occur are clean, the whole substitution equals one pass over the folder and one over the rest, failures included |
| Substitution.SettledIff | config/subst.go:42-53 | the settled folder is the end of a chain of three passes, each in the context that the one before left |
| Substitution.SubstitutedAt | config/subst.go:55-64 | a string anywhere in the configuration that one pass turns into text without further references ends as that text |
| Substitution.LocalFolderSubstituted | config/subst.go:55-64 | wherever a successful substitution meets the host folder's reference it leaves the host folder |
| Substitution.ContainerFolderSubstituted | config/subst.go:42-64 | wherever it meets the container folder's reference it leaves the expanded workspace folder |
| Substitution.UnknownRejected | config/subst.go:55-69 | one reference of no known kind anywhere fails the substitution |
| Lifecycle.Devc.RunLifecycleHooks | cmd/devc/hooks.go:60-120 | markers reset for another container or a rerun, hooks run in order unless marked, each success saved at once |
| Lifecycle.Devc.LoadProbe | cmd/devc/session_env.go:46-64 | a fresh cache is returned untouched, otherwise probe, version and container id are saved together, an empty probe as none |
| Lifecycle.Devc.RunPostUp | cmd/devc/up.go:82-96 | hooks, probe, provisioning and postAttach in order with early exits |
| Lifecycle.Devc.RunBringUp | cmd/devc/up.go:173-219 | the action table with its override for an asked recreation does what four plain cases say |
| Lifecycle.Devc.RunUpSingle | cmd/devc/up.go:172-240 | lookup, bring-up, bookkeeping, second lookup and post-up, with every error exit |
| Lifecycle.Devc.RunUp | cmd/devc/up.go:50-66 | initializeCommand comes first unless hooks are skipped, and its failure stops before any container work |
| Lifecycle.Devc.RunUpCompose | cmd/devc/up.go:109-150 | the compose path shares post-up for the container found, skips it when the workspace service was not requested, and fails when none is found |
| Lifecycle.FailureStays | cmd/devc/hooks.go:100-110 | after a failed create hook the later ones do not run and nothing more is saved |
| LifecycleResults.UpNilIff | cmd/devc/up.go:50-96 | an up of a single container returns nil exactly when every outcome that its case depends on is good |
| LifecycleResults.ComposeNilIff | cmd/devc/up.go:109-150 | the same for a compose up, with compose itself, the requested services and the service lookup |
| LifecycleResults.UpContainer | cmd/devc/up.go:183-219 | what becomes of the container, whatever fails |
| LifecycleResults.HashRecorded | cmd/devc/up.go:221-225 | the configuration hash is recorded by both kinds of up once there is a container |
| LifecycleResults.ProbeKept | cmd/devc/session_env.go:58-62 | a new probe is kept with version and identity, an empty one as none |
| LifecycleResults.HooksInOrder | cmd/devc/hooks.go:91-110 | onCreate, updateContent and postCreate run in this order, each if it is due and none before it failed |
| LifecycleSteps.HooksPartWay | cmd/devc/hooks.go:100-110 | part way through the hooks, exactly those needed with no needed failure before are marked, and the disk holds the old record with nothing newly succeeded or the record in memory |
| LifecycleSteps.PostUpHistory | cmd/devc/up.go:82-96 | post-up adds exactly one success of each hook that runs in it, to this container only |
| LifecycleSteps.PostUpRecord | cmd/devc/hooks.go:60-120 | the identity and the markers that post-up leaves on disk, whatever fails |
| LifecycleSteps.PostUpProbe | cmd/devc/session_env.go:24-64 | which probe is used, cached and last taken, and that a failing hook leaves the cache or drops it with the identity |
| LifecycleRuns.StepSound | cmd/devc/up.go:82-96 | every step keeps: known ids, and a cache that is the last probe under its container's id or the name |
| LifecycleRuns.StepSuccesses | cmd/devc/hooks.go:100-110 | the exact number of successes of a hook in a container after any step |
| LifecycleRuns.AtMostOnceIff | cmd/devc/hooks.go:73-110 | over a run a hook succeeds at most once in a container between reruns exactly when no unforced up runs it there after a success while the record is for another identity or lacks its marker |
| LifecycleRuns.AtMostOnce | cmd/devc/hooks.go:57-59 | on every run a create hook succeeds at most once in a container between reruns, unless an up works there under the name, or after a success while another identity is recorded |
| LifecycleRuns.UnrecordedRepeatsHooks | cmd/devc/hooks.go:73-110 | under another identity than the recorded one every configured hook up to the first failing one succeeds once more, whether after a failed lookup or on a return |
| LifecycleRuns.RerunRunsAll | cmd/devc/hooks.go:75-76 | a forced rerun runs every configured hook up to the first failing one, whatever is recorded |
| LifecycleRuns.CacheValidIff | cmd/devc/session_env.go:38-64 | in every reachable state a cached probe was taken from the recorded container by the recorded version, exactly unless the record goes by the name |
| LifecycleRuns.SessionEnvIsOwnIff | cmd/devc/session_env.go:24-64 | the session environment overlays remoteEnv on the last probe of this devc version, which is the container's own exactly unless a failed lookup meets another's probe under the name |
| LifecycleRuns.ProbePredatesHookIff | cmd/devc/up.go:85-90 | the probe behind the environment is older than a create hook's success exactly when it comes from a fresh cache and this up or an earlier one has run a hook since it was taken |
| LifecycleMarkers.StepMarkers | cmd/devc/hooks.go:73-110 | one step keeps the markers valid exactly when it neither changes the identity while skipping hooks to one where a marked hook has not succeeded, nor runs a first hook under the name |
| LifecycleMarkers.MarkersValidIff | cmd/devc/hooks.go:60-120 | over a run every marker belongs to a success on the recorded container exactly when no step spoils them |
| LifecycleMarkers.NilMeansHooksDone | cmd/devc/hooks.go:91-110 | after a nil return of either kind of up a configured create hook has succeeded in its container exactly when its marker was not stale |
| LifecycleMarkers.NilMeansHooksDoneOnRuns | cmd/devc/hooks.go:57-59 | in a run in which no step spoils the markers a nil return means every configured create hook succeeded in the container that is up |
| LifecycleMarkers.AdoptionSkipsHook | cmd/devc/session_env.go:58-63 | after a skipping up the next up on that container passes over a marked hook, which has run there only if it had before |
| LifecycleMarkers.UpLeaves | cmd/devc/up.go:172-240 | success ends running, replaces exactly when asked, and has the wanted hash unless drifting |
| LifecycleMarkers.NewContainerHooks | cmd/devc/up.go:215-231 | in a new container a configured hook has run after success, exactly unless the lookup failed and the name carries its marker |
| LifecycleMarkers.UpRemovesOnlyIfAsked | cmd/devc/up.go:183-213 | whatever its outcome, an up removes an existing container only when recreate or rebuild was asked for |
| LifecycleExamples.FailedLookupRepeatsHook | cmd/devc/up.go:227-231 | a run of two ups in which a hook succeeds twice in one container |
| LifecycleExamples.ReturnRepeatsHook | cmd/devc/up.go:133-143 | a run of three compose ups with good lookups, for one service, another and the first again, in which a hook succeeds twice in the first one's container |
| LifecycleExamples.ForgottenMarkerRepeatsHook | cmd/devc/hooks.go:73-87 | a run in which a hook repeats in the recorded container because a return without the hook configured dropped its marker |
| LifecycleExamples.SkippedHookUnseenByProbe | cmd/devc/up.go:85-90 | a run of a skipping and a plain up in which the hook runs but the environment is the one probed before it |
| LifecycleExamples.FailedLookupServesForeignProbe | cmd/devc/up.go:227-231 | a run after which a recreated container gets the environment probed in the old one, and its hook never ran |
| LifecycleExamples.AdoptionRun | cmd/devc/session_env.go:58-63 | a run of a create and a recreation with skipped hooks, after which a plain up passes over a hook that never ran |
| Wire.CrashIff | agent/session.go:425-434 | reading a string slices out of range exactly on a wrapped end offset, never below four gigabytes |
| Wire.ReadIff | agent/session.go:425-434 | below four gigabytes reading yields a string exactly when the payload starts with its encoding, and the rest follows |
| Wire.PtyIff | agent/session.go:385-398 | a pty-req parses to given fields exactly when the payload starts with their encoding; no index is out of range |
| Wire.PtyRoundTrip | agent/session.go:385-398 | the full encoding, terminal modes included, parses to its fields |
| Wire.WindowChangeIff | agent/session.go:400-409 | a window-change parses to given fields exactly when the payload starts with their encoding |
| Wire.EnvIff | agent/session.go:411-418 | an env request parses to a name and value exactly when the payload starts with their encoding |
| Wire.DirectIff | agent/forward.go:241-260 | a direct-tcpip payload parses to given fields exactly when it starts with their encoding |
| Wire.ExecRoundTrip | agent/session.go:353-381 | an encoded command or subsystem name is read back |
| Wire.BigEndian | agent/session.go:425-434 | a uint32 is four bytes, most significant first |
| Wire.PtyLayout | agent/session.go:385-398 | a pty-req is terminal, columns, rows, width and height in this order |
| Wire.WindowChangeLayout | agent/session.go:400-409 | a window-change is columns, rows, width and height in this order |
| Wire.EnvLayout | agent/session.go:411-418 | an env request is name and value |
| Wire.DirectLayout | agent/forward.go:241-260 | a direct-tcpip payload is host, port, originator and its port |
| Wire.ExecIff | agent/session.go:353-381 | an exec payload is the string it starts with, or the empty one if it starts with none |
| SessionWire.DecodePtyIff | agent/session.go:112-124 | a request stores a terminal exactly when it is a pty-req that starts with its name and size |
| SessionWire.DecodeResizeIff | agent/session.go:136-142 | a request resizes exactly when it is a window-change that starts with the size |
| SessionWire.DecodeSpawnIff | agent/session.go:79-96 | a request is for a command exactly when it is shell, exec with that line, or the subsystem sftp |
| SessionWire.LoopAnswersIff | agent/session.go:70-98 | the loop says yes to env, signal and a pty-req that parses, and no to sizes, unknown kinds and subsystems and second commands |
| SessionWire.PublishedAre | agent/session.go:112-153 | on every run the published sizes are those of the pty and window-change requests past their publication, in order |
| SessionWire.TerminalSize | agent/session.go:136-167 | at rest the terminal has the size, in 16 bits, of the last request on the wire that carries one |
| SessionWire.StartTerminal | agent/session.go:112-124 | a command starts on a terminal of the kind that the last pty-req before its snapshot names |
| SessionWire.StartWithoutTerminal | agent/session.go:44-52 | without such a request it starts on none |
| SessionWire.StartedCommand | agent/session.go:79-110 | the command that starts is the one that the first request for any command asks for |
| SessionWire.RunningTerminal | agent/session.go:267-294 | a running command has an open terminal with a live applier exactly when it is no subsystem and started with a pty |
| SessionWire.CommandReply | agent/session.go:172-190 | the command's request is answered yes exactly when it was accepted |
| SessionWire.FailureCodes | agent/sftp.go:26-58 | the exit codes with which a command can fail to start, by stage |
| SessionRequests.DecodePty | agent/session.go:112-124 | an encoded pty-req sets exactly its terminal and size |
| SessionRequests.DecodeEnvIff | agent/session.go:126-134 | a request stores a variable exactly when it is an env request whose payload starts with the encoding of name and value |
| SessionProofs.SlotKept | agent/session.go:99-110 | the one command slot is claimed once, by the first spawning request |
| SessionProofs.OneCommand | agent/session.go:267-324 | under every interleaving at most one command starts, and a claimed slot yields one exit status on the channel, that of the command or 1 or 127 if none started, followed by its close |
| SessionProofs.ExitStatusDelivered | agent/session.go:65-68 | the exit status is sent before anyone closes the channel exactly when it is sent before the request loop, with its deferred close, ends |
| SessionProofs.ExitStatusLost | agent/session.go:65-68 | a run in which the requests end first and the exit status is sent on a closed channel |
| SessionProofs.OneReply | agent/session.go:68-110 | under every interleaving a request gets exactly one reply if it wants one and its handler is past it, otherwise none |
| SessionProofs.ReplyValues | agent/sftp.go:26-63 | replies have the values their requests call for, and a refused command never started anything |
| SessionProofs.StartParameters | agent/session.go:44-52 | a command starts with the pty and env state after a prefix of the requests that contains its own request |
| SessionProofs.StartEnvironment | agent/session.go:126-134 | on wire requests, a variable has a value at the start exactly when the last env request for it in that prefix encodes the value |
| SessionProofs.Mailbox | agent/session.go:144-167 | applied sizes are an in-order subsequence of published ones cut to 16 bits, the send never finds the slot full, and at rest the last published size has been applied, uncut exactly when it fits |
| SessionProofs.NoLateSetSize | agent/session.go:273-293 | no size is applied to a pty that is closed or not yet open |
| SessionProofs.CommandProgress | agent/session.go:267-294 | a claimed command never waits for the request loop |
| SessionProofs.RunsBounded | agent/session.go:267-324 | every step of every thread lowers a rank, so that no schedule is longer than the requests allow |
| SessionProofs.CommandFinishes | agent/session.go:267-324 | from any point of any run a claimed slot reaches its exit status and close by steps of the command and its applier alone |
| Forwards.ForwardKeyInjective | agent/forward.go:208-210 | different address and port pairs have different keys |
| Forwards.RemoteForwards.Start | agent/forward.go:94-133 | the table and the open listeners after a start, and the reply, which carries a port only for port 0 |
| Forwards.RemoteForwards.Cancel | agent/forward.go:177-196 | the table and the open listeners after a cancel, and the reply |
| Forwards.RemoteForwards.CloseAll | agent/forward.go:199-206 | every listener of the table is closed and the table emptied |
| Forwards.AlwaysConsistent | agent/forward.go:62-68 | however requests follow each other, the open listeners are exactly the table's values |
| Forwards.StartExact | agent/forward.go:105-130 | a start that can listen opens and registers exactly the listener it was asked for |
| Forwards.OpenIff | agent/forward.go:62-68 | over any request sequence a listener is open exactly when some start bound it and no later cancel names it |
| Forwards.StepsServe | agent/forward.go:94-196 | when nothing comes between, the steps of the request goroutine amount to serving the request |
| Forwards.CancelExact | agent/forward.go:185-192 | a cancel closes exactly the listener it names |
| Forwards.CancelUndoesStart | agent/forward.go:112-130 | cancelling the reported port right after the start restores the table and the open listeners, also for a port-0 request |
| Forwards.TearDownLeaves | agent/server.go:131-146 | once all is served after a teardown, a listener is open exactly when it was opened and unregistered then, or is bound by a request served later, and nothing after that cancels it |
| Forwards.TearDownLeaksIff | agent/server.go:131-146 | nothing is left open exactly when no such listener or start was in hand or queued |
| Forwards.QueuedStartLeaks | agent/server.go:131-146 | a run in which the request goroutine is idle at teardown and a queued start leaks its listener |
| Forwards.OpenedStartLeaks | agent/forward.go:105-128 | a run in which the teardown falls between listening and registering |
| ShellWords.SplitJoin | sshconf/render.go:107-133 | splitting the joined, quoted arguments by POSIX rules returns exactly the arguments |
| ShellWords.PlainRules | sshconf/render.go:107-110 | of the shell's rules: blanks separate, a backslash before a newline is nothing, quotes must be closed |
| ShellWords.SpecialRejected | sshconf/render.go:107-110 | of the shell's rules: it does more than split at an unquoted special character |
| ShellWords.ProxyCommand | sshconf/render.go:90-105 | a shell splits the generated line into the intended arguments, options only where set |
| ShellWords.BareIffSafe | sshconf/render.go:111-133 | an argument stays bare exactly when it is non-empty and has only letters, digits and the eight signs of paths and identifiers |
| ShellWords.NaiveSplitIff | sshconf/render.go:107-133 | a splitter that only looks for blanks recovers the arguments exactly when all are non-empty and safe |
| EnvFile.WriteEnvFile | container/cp.go:186-199 | the file is the only one that lists every key once in ascending order, and it reads back exactly when every entry is faithful |
| EnvFile.KeyListUnique | container/cp.go:186-199 | the key order, and with it the file, is a function of the map |
| EnvFile.RenderedLines | container/cp.go:186-199 | the file is one line per key: the key, an equals sign, the flattened value |
| EnvFile.FlattenedBytes | container/cp.go:186-199 | newlines in a value become blanks and every other byte stays |
| EnvFile.BeforeIff | container/cp.go:186-199 | keys are ordered by their first difference |
| EnvFile.ReadEnvFile | cmd/devc/serve.go:95-113 | lines are cut at the first equals sign, later ones win, an overlong line ends the reading, no file is an empty map |
| EnvFile.LineByLine | cmd/devc/serve.go:95-113 | lines are read one by one without a final carriage return, up to one of 65536 bytes |
| EnvFile.LineAdds | cmd/devc/serve.go:104-110 | a line is cut at its first equals sign, and one without is passed over |
| EnvFile.RoundTripIff | container/cp.go:186-199 | reading back gives the map with newlines as blanks exactly when every key, value and line is faithful |
| EnvFile.EqualsInKeyExample | container/cp.go:186-199 | a key with an equals sign is read back cut, its rest in the value |
| Inspect.Deduplicate | container/inspect.go:149-156 | every container is named once, in the order of first mention |
| Inspect.MentionOrder | container/inspect.go:149-156 | each id keeps the place of its first mention |
| Inspect.List | container/inspect.go:82-109 | labelled containers as they are, then one fresh row per compose workspace; no input object changes |
| Inspect.CollapseCompose | container/inspect.go:93-108 | rows updated through the map after being appended are those of collapsing on values |
| Inspect.CollapseMeaning | container/inspect.go:58-66 | exactly one row per devc compose workspace, running if and only if some container of its project is |
| Inspect.CollapseExact | container/inspect.go:91-109 | each row is named by the first container of its workspace, has the state of the first running one or of the first, and the rows come in that order |
| Inspect.WorkspaceIDIff | container/inspect.go:95-98 | the workspace's id is what follows devc- in the project name, and is not empty |
| Inspect.RunningIff | container/inspect.go:39-42 | a container runs when the runtime says so or its status is that word in any cases |
| Inspect.ServesIff | container/inspect.go:82-98 | a container belongs to a row by its compose project label unless it has a devc id label |
| Inspect.RowShown | container/inspect.go:112-123 | a row shows its container's id, its state and the workspace's id as its only label |
| Inspect.OrderIrrelevant | container/inspect.go:91-108 | the workspaces listed and their running state do not depend on the listing order |
| Inspect.LabelledCounts | container/inspect.go:82-85 | every labelled container is listed as often as it occurs, and nothing else |
| Inspect.LabelledInOrder | container/inspect.go:82-85 | labelled containers are listed in their order |

## Left out

- LifecycleSteps.Allowed: runs assume that container ids are never reused, never equal the container name, and that a compose service never bears that name.
- Concurrent ups sharing one state file, unreadable state files and failed saves.
- Lifecycle.Devc.RunUpCompose: what compose itself does to the project's containers is an arbitrary change that the runtime allows.
- StringTree.SubstituteValue: rewrites trees as values, so the half-rewritten configuration that a failing pass leaves behind is not described; which of several errors is reported is not either.
- Expansion.Classify: matches `filepath.Base` on slash-separated paths only.
- ShellWords.Split: aliases, reserved words and assignments in front of a command are not modelled; unquoted characters with any other meaning make the split fail.
- The remaining lines of the ssh Host block, its percent expansion and newlines in its paths.
- SessionRequests.Decode: the agent socket behind auth-agent requests is an arbitrary answer.
- SessionProofs.ExitStatusDelivered: a close by the client counts from the end of the request loop, not from its arrival.
- Copying between channels, ptys, pipes and sockets, signals, and the SSH transport.
- Forwards.MayBind: two spellings of one address are different addresses to the model.
- Wire.ParseDirectTCPIP: the texts of its four errors.
- Container and compose command lines, key generation, hashing, JSON decoding and encoding.
- Renaming, `down` without `--purge` other than as an outside change, `ps`, `list` printing, `doctor` and the other commands.
- Validation of the decoded configuration, path discovery and port parsing, which are settled branch by branch.
