# A verified model of the build auditor

The repository is a build auditor: a preloaded library watches every command of a
build, writes down which files it reads and writes, and sends that to one monitor
process. The monitor keeps a table of live commands, gathers commands into
aggregation groups, coalesces file actions and publishes each audit exactly once.
Around the monitor stand several self-contained algorithms. This project models the
monitor's protocol and those algorithms in Dafny and proves what they are for.

## What is modelled

**The monitor** (`AuditTable`, `AuditKeys`, `AuditLaws`, `AuditGroups`, `AuditOwners`, `AuditRuns`, `Monitor`).
`AuditTable` says what each record does to the table, as functions on values.
`Monitor` holds the classes that change audits, groups and the table in place, with
pointers and loops as the program has them; every method is proved equal to its
function. `AuditLaws` proves the table invariant over every record, `AuditGroups` which
patterns lead to which group, told from the tables before and after alone, `AuditOwners`
that every accepted record has one owner at all times, `AuditRuns` what follows for
whole streams: each command is live or published, never both and never twice, and
the actions published are exactly the actions accepted. The log of published bundles
is a multiset, so that publishing once is proved and not built in.

**The auditors** (`Handshake`, `Delivery`, `Endings`, `Protocol`, `Completion`,
`Skew`, `Outlived`). Processes send a start line and block,
collect actions, fork, flush before exec, flush and end at exit. Every interleaving
of their steps with the monitor's reading delivers lines in an order the monitor can
rely on, and `Delivery` proves that each line recorded arrives, once and in order, counted
from the events of the run. `Protocol` joins the two sides: in every interleaving the monitor's
invariants hold. `Endings` and `Completion` prove that nothing is stranded: once every
process has finished, which always stays possible, the table is empty, and everything accepted is in just one published
bundle. `Skew` says which lines the monitor refuses, and which record of the
stream is to blame; `Outlived` plays a run, from the first step of the first process
on, in which a command is refused its own end.

**Timestamps and file actions** (`Moments`, `Coalesce`). The rounding comparison on
64-bit numbers, durations, the order of the raw action set, and coalescing to one
action per path for any order of traversal, with the patterns of stamps for which that
is sound.

**Option parsing** (`Permute`, `GetoptSpec`, `GetoptLaws`, `GetoptWords`, `Getopt`). The exchange of
two blocks by gcd-many cycles, with the number theory it needs, and a class for the
scanning state whose whole run, in each of the three orderings of operands, is a
stable partition of the argument vector. `GetoptWords` says what each kind of word
means, by the characters of the option string and of the word alone.

**Paths** (`PathSpec`, `PathLaws`, `PathRewrites`, `PathCanon`). The five-state machine
writing in place, against a stack of components, and against the rewritings that lead
to the canonical form.

**Digests and identity codes** (`Octets`, `Sha1Spec`, `Sha1`, `Sha1Laws`, `Sha1Known`, `Archive`,
`DataCode`). The streaming digest against the definition of RFC 3174 and its worked
example, clearing the
stamps of an `ar` archive in place, and the code computed of both.

**Shopping** (`ShopSpec`, `ShopLaws`, `Shop`). The elimination of candidate builds with
its marks, skips and early exits, against the naive filter.

**Text** (`Radix`, `Wire`, `MomentText`, `RequoteSpec`, `RequoteLaws`, `Requote`, `Environ`). Numbers
in a radix, percent encoding, splitting records, timestamps as text, quoting an
argument vector for the shell, and the environment block of a child process.

**MurmurHash** (`Bits`, `Murmur`). The aligned and the octet-wise variant give the hash
of the plain one.

`Arith`, `Letters`, `Options`, `Sequences` and `Strings` hold what several modules share.

Taken as given, or as parameters: pattern matches (a record carries the result), clock
readings, hash tables and balanced trees (maps and sorted sequences), `qsort` (a small
verified sort), the comparison of one roadmap state with the file system, zlib's
checksum, and memory other than the buffers written.

## Where the code differs from its comments

- `moment_cmp` tests `d > 1`, so at nanosecond precision a time later by exactly one
  nanosecond compares as earlier (`Moments.CompareOrdersRounded`, exact condition).
  Coalescing then keeps the older of two such writes (`Coalesce.TwoWrites`), and the
  order of the raw set can run in a circle (`Coalesce.OrderIsTransitive`).
- Writes are compared by the time of the operation where both are stamped and by that of
  the file otherwise. With two stamped writes of a path and one that is not, in whatever
  order, the three can each be later than the next, and one is left that loses
  (`Coalesce.StampsDecide`, exact condition).
- `pa_cmp` is described as putting reads ahead of writes and unlinks ahead of other
  writes of the same instant; it does the opposite of both, and on two unlinks of the
  same instant it is not antisymmetric (`Coalesce.OrderOfWrites`,
  `Coalesce.AntisymmetricButForUnlinks`).
- A closed leader takes along members that are still running; their own end is then
  answered with an error (`Outlived.RunningMemberIsRefused`, a run in which it happens;
  `Skew.RefusedIffRemoved`, exactly when it does).
- Requoting promises that the shell gives back the original vector; a word with both a
  single quote and a newline loses its newlines (`RequoteLaws.QuotingRoundTrips`).
- An option that comes last without its argument takes the first operand when the
  sorted vector is parsed again (`GetoptLaws.SortedReparses`).
- The archive walk stops with an error at a member of size zero, although an empty
  member is legal; the rest keeps its stamps (`Archive.StampsDoNotMatter`).
- The message-too-long flag of the digest is set to 1, which the header names the code
  for a null pointer (`Sha1Laws.AnySplit`); the data length passes through an unsigned
  int, so from 4 GiB on the text hashed is not that of a git blob
  (`DataCode.HashedIsBlob`).
- The environment block is ended by a null pointer only if its memory was zeroed by
  the caller (`Environ.CustomEnv`).
- The canonicaliser fails on an empty path, because `strchr` finds the terminating NUL
  of its separators, and needs room for components that are going to vanish
  (`PathCanon.Canonicalise`, exact condition).
- Timestamps are formatted as unsigned numbers but read as signed ones, so those before
  the epoch do not come back (`MomentText.MomentRoundTrips`).

## Model

| member | source | states |
|---|---|---|
| Protocol.EveryInterleavingIsSafe | src/libcommon.c:593-640 | End to end: for every interleaving of auditor processes with the monitor, and any pattern matches and times, the table stays well formed and every accepted record keeps exactly one owner |
| Completion.NothingStranded | src/mon.c:553-626 | In every interleaving, under every style and for all patterns and times: once every process is gone no audit is left in the table |
| Completion.EveryCommandPublished | src/mon.c:171-216 | Then every command that was started is in exactly one published bundle, as its leader or merged into it, and that bundle was published once |
| Completion.EveryActionPublished | src/ca.c:599-659 | Then every action the monitor accepted is in exactly one published bundle, published once |
| Completion.ClosedIfEnded | src/mon.c:553-609 | At every point of every interleaving a live audit is closed exactly if its process has sent its end: the walk up the exec chain closes all images of the process, and no others |
| Skew.RefusedIffPublished | src/mon.c:518-531 | Of the lines the handshake lets through, the monitor answers with an error exactly the action and end lines of commands already published, alone or with their group |
| Skew.RefusedIffRemoved | src/mon.c:480-681 | That is, exactly if an earlier record took the command away: an end record whose chain held it unled or held its group's leader, or a start record that ended its group when it was closed |
| Skew.LeavesExactlyWhenRemoved | src/mon.c:393-626 | For every record and every live command: when it leaves the table, and when it stays |
| Skew.AbsorbedMemberIsSkew | src/mon.c:612-626 | A command is refused its own end after another process's end record exactly if that record closed its group's leader; the refused record changes nothing |
| Outlived.RunningMemberIsRefused | src/mon.c:518-531 | A run of two processes with the monitor, step by step from the start, after which the compiler is refused its own end because its parent led the group and ended first |
| Protocol.OrderedLinesAreOrderly | src/mon.c:284-345 | Lines in the order the handshake gives are records the monitor may accept: fresh keys, real process ids, no image announced after the one it exec-ed |
| Protocol.TableIsAnnounced | src/mon.c:337-340 | Every live audit is the one its own start record announced, at every point of every stream |
| Protocol.PredecessorIsParent | src/mon.c:301-331 | In every stream the handshake lets through, the three lookups find the command that ran the newcomer, whether it forked or was replaced, as long as that is live, and else at most a later image of the same process |
| Handshake.EveryInterleavingIsOrdered | src/libcommon.c:258-278 | In every interleaving an action or end follows its command's start, and a start follows its parent's start and every earlier image of its process |
| Handshake.StepOk | src/libcommon.c:699-831 | Each step of any process or of the monitor keeps the system invariant: what is in memory, in the temporary file and on the wire belongs to a started command |
| Handshake.HandleOk | src/unix.c:550-609 | The monitor may read the head of any open connection next: the line is in order and all processes stay consistent |
| Handshake.ForkOk | src/libunix.c:574-617 | A fork keeps the invariant: the child starts with a copy of the parent's memory, which is flushed before, and a file of its own |
| Handshake.ExecWorksOk | src/libunix.c:330-366 | An exec that succeeds leaves a process whose announcement will be in order, one level deeper |
| Delivery.NothingLost | src/libcommon.c:664-831 | At every point of every interleaving, what a process recorded is what the monitor read of it followed by what is still on the way, in order; no fork, exec or exit copies or drops a line |
| Delivery.EndIsLastOnWire | src/libcommon.c:752-772 | On no connection does anything follow an end line |
| Delivery.LinesAddUp | src/libcommon.c:664-831 | Each line was recorded by as many start, action and exit events as it was handled or is on a wire, in a file or in memory |
| Delivery.AllHandled | src/libcommon.c:664-831 | Once every process is gone the monitor has handled each action as often as it was done, and one end line for each exit |
| Endings.EveryInterleavingFinishes | src/libcommon.c:699-831 | In every interleaving an end line is about the last image of its process, comes once, and nothing of the process starts after it |
| Endings.CanAllFinish | src/libcommon.c:559-831 | No deadlock: whatever has happened, the auditors that wait are answered, and the run can go on until every process is gone |
| Endings.AllEnded | src/libcommon.c:699-831 | When all processes are gone the end of every process in which a command started has been handled |
| AuditRuns.RunKeepsAll | src/mon.c:253-700 | After every prefix of every orderly stream the table is well formed, fits the aggregation style, and every accepted record has one owner |
| AuditRuns.EveryCommandExactlyOnce | src/mon.c:221-242 | Every started command is in exactly one live audit or exactly one published bundle, as its leader or merged into it, never both |
| AuditRuns.EveryActionExactlyOnce | src/ca.c:599-659 | Every accepted action is in exactly one live raw set or one published bundle |
| AuditRuns.AllPublished | src/ca.c:756-836 | When no audit is left the published bundles hold exactly the accepted actions, each bundle was published once, and no two share a command or an action |
| AuditRuns.NeverPublishedTwice | src/mon.c:171-216 | A call of the callback is made once in the whole stream, and for a command that was neither published nor merged before |
| AuditRuns.LogGrows | src/mon.c:171-216 | What was published is never taken back or changed |
| AuditRuns.RunHistory | src/mon.c:643-681 | The records counted as accepted are exactly the start records and the actions that were not answered with an error |
| AuditRuns.ChainDurationsAddUp | src/mon.c:574-577 | The durations of the n images of one process add up to its elapsed time in whole milliseconds, less at most n-1 |
| AuditRuns.DisorderStrandsALeader | src/mon.c:553-609 | The ordering assumption is needed: a concrete disordered stream leaves a closed leader in the table for good |
| AuditLaws.StepKeepsTable | src/mon.c:253-700 | Every acceptable record keeps the table invariant: nothing processed or coalesced, leaders live and open, groups exactly their members and disjoint, every closed audit led |
| AuditLaws.SoaKeepsTable | src/mon.c:284-438 | A start record keeps the invariant through lookup, aggregation, disbanding and regrouping |
| AuditLaws.JoinOrBreakKeeps | src/mon.c:393-421 | Joining a group, or ending it and perhaps starting another, keeps the invariant |
| AuditLaws.LevelIsPossible | src/mon.c:424-429 | The two cases reported as impossible do not arise under a fixed aggregation style |
| AuditGroups.StartMeans | src/mon.c:345-432 | Under every style and for all patterns: whether the newcomer stays alone, leads a group of its own, strong or weak, or joins its predecessor's; whether that group ends; what is published then; and that nobody else changes |
| AuditLaws.EoaKeepsTable | src/mon.c:480-626 | An end record keeps the invariant |
| AuditLaws.EoaEffect | src/mon.c:553-626 | What becomes of every audit at an end record: which are closed, with which duration, which leave the table, and that all others are untouched |
| AuditLaws.EoaPublishes | src/mon.c:605-621 | Exactly which bundles an end record publishes: the unled images of the chain, and the whole group once its leader is closed |
| AuditLaws.CloseChainEffect | src/mon.c:553-609 | The upstream walk closes exactly the live exec predecessors with the same process id, each with the time its successor started |
| AuditLaws.TopIsInChain | src/mon.c:579-584 | The build's end is reported exactly when the chain closed contains the top-level command |
| AuditLaws.ChainLeader | src/mon.c:553-609 | The images of one process that have a leader share it |
| AuditLaws.DisbandEffect | src/ca.c:757-795 | After a disband the closed members are gone and the open ones stay, without a leader |
| AuditLaws.PublishPurge | src/ca.c:800-841 | Publishing a leader and cleaning up removes just its group |
| AuditLaws.MergedIsGroup | src/ca.c:600-641 | The bundle published for a leader holds the actions of its whole group and one entry for each member |
| AuditKeys.ComparisonIsEquality | src/ca.c:160-217 | For real process ids the comparison of keys is equality, so the table is a map; exactly which other keys it takes for equal |
| AuditKeys.ZeroMatchesAny | src/ca.c:208-210 | With a process id of zero it is no equivalence |
| AuditOwners.StepConserves | src/mon.c:253-700 | One record moves every earlier record's owner to exactly one owner |
| AuditOwners.PublishConserves | src/ca.c:800-841 | Publishing moves the records of a group into one bundle and loses none |
| AuditOwners.DisbandConserves | src/ca.c:757-795 | Disbanding publishes closed members one by one and loses nothing |
| AuditOwners.CloseChainConserves | src/mon.c:553-609 | Closing a chain keeps exactly one owner for every record |
| Monitor.AuditMonitor.RecordAll | src/unix.c:550-609 | Fed a whole orderly stream, the mutable monitor ends in the state of the specification and gives its reply to every record |
| Monitor.AuditMonitor.RecordLine | src/mon.c:253-700 | One line changes the heap of audits, groups and the table exactly as specified, keeps every pointer inside the table, and gives the specified reply |
| Monitor.AuditMonitor.StartAudit | src/mon.c:258-438 | The start branch in place equals its specification |
| Monitor.AuditMonitor.FindPredecessor | src/mon.c:301-331 | The three lookups find the specified predecessor |
| Monitor.AuditMonitor.BreakGroup | src/mon.c:404-421 | Disbanding, starting an own group and cleaning up, in this order, give the specified table and bundles |
| Monitor.AuditMonitor.JoinGroup | src/ca.c:693-713 | The newcomer is in the leader's group and points at it; nothing else changes |
| Monitor.AuditMonitor.LeadGroup | src/ca.c:674-685 | A new group whose only leader is the newcomer |
| Monitor.AuditMonitor.DisbandGroup | src/ca.c:757-795 | The scan that deletes while it goes leaves the specified audits, pointers and bundles |
| Monitor.AuditMonitor.PublishGroup | src/ca.c:800-841 | The merging scan leaves the leader with everything its members had, and publishes it once |
| Monitor.AuditMonitor.CleanUp | src/mon.c:222-243 | The deleting scan removes exactly the processed audits |
| Monitor.AuditMonitor.CloseUpstream | src/mon.c:553-609 | The loop, with its running end time and early clean-ups, closes the specified chain and ends |
| Monitor.AuditMonitor.EndAudit | src/mon.c:480-637 | The end branch in place equals its specification, and the leader remembered before the loop is still good after it |
| Monitor.AuditMonitor.CollectAction | src/mon.c:643-680 | An action goes to the audit its key names, or is answered with an error |
| Monitor.CmdAudit.Merge | src/ca.c:600-641 | The leader takes over the donor's raw set and keeps its header; the donor is left empty |
| Moments.CompareOrdersRounded | src/moment.c:171-207 | On 64-bit numbers the comparison orders rounded times, if and only if it is not asked at nanosecond precision about a left side later by exactly one |
| Moments.CompareFailsAtPrecisionNine | src/moment.c:201-206 | The input on which the comparison is wrong, both ways round |
| Moments.DurationIsElapsed | src/moment.c:228-239 | For ordered times the duration is the elapsed time in whole milliseconds |
| Coalesce.ActionSets.Coalesce | src/ca.c:508-593 | The loop empties the raw set and leaves the specified cooked set |
| Coalesce.CoalescingKeepsTheBest | src/ca.c:508-593 | For any order of traversal, if all writes of a path are stamped or no two are, one action is left of it, drawn from the raw set: the first read if there were only reads, otherwise the first of the latest writes, but for one later by the nanosecond compared wrongly |
| Coalesce.ChangesWin | src/ca.c:530-582 | What a path was only read or executed by gives way to anything that changed it, whichever came first; of two reads the first stays |
| Coalesce.SetMeans | src/moment.c:50-53 | A time counts as set from one second after the epoch on |
| Coalesce.TwoWrites | src/ca.c:540-559 | Of two writes of a path the later is left, if and only if it is not later by the one nanosecond compared wrongly |
| Coalesce.StampsDecide | src/ca.c:540-559 | Whatever the times, what is left of a path never loses against one of its writes, if and only if all of its writes are stamped or no two are |
| Coalesce.MixedStampsMayLose | src/ca.c:544-554 | Wherever two stamped writes of a path and one unstamped stand in the raw set, there are times at which what is left loses against a write that went before |
| Coalesce.AntisymmetricButForUnlinks | src/pa.c:103-149 | At any precision the order of the raw set is antisymmetric if and only if it is not asked about two unlinks of one instant, or two writes one nanosecond apart where nanoseconds count |
| Coalesce.OrderOfWrites | src/pa.c:103-149 | At any precision writes come before reads, earlier writes first, an unlink after the other writes of its instant; and where the converse comparison is wrong |
| Coalesce.OrderIsTransitive | src/pa.c:103-149 | At any precision the order is transitive, if and only if it is not asked about three writes within two nanoseconds that it puts in a circle |
| Coalesce.UnlinkYields | src/ca.c:530-582 | Coalesced in that order at any precision, an unlink is left of a path only if it is later than every other kind of write, or earlier by just the nanosecond compared wrongly: a rename leaves its creation |
| Permute.Gcd | src/bsd_getopt.c:113-126 | The remainder loop gives a common divisor that is a combination of both numbers |
| Permute.BezoutIsGreatest | src/bsd_getopt.c:113-126 | Such a divisor is the greatest |
| Permute.CycleDistinct | src/bsd_getopt.c:147-160 | Within a cycle of length (n1+n2)/gcd no place is met twice |
| Permute.CycleCovers | src/bsd_getopt.c:147-160 | Every place with the cycle's residue modulo the gcd is met |
| Permute.CycleResidue | src/bsd_getopt.c:147-160 | A cycle keeps to its residue, so cycles with different starts are disjoint |
| Permute.CycleCloses | src/bsd_getopt.c:147-160 | A whole cycle ends where it started |
| Permute.PermuteArgs | src/bsd_getopt.c:134-165 | The cycles of swaps exchange the two adjacent blocks, each in its own order, and touch nothing else |
| Getopt.ParseArguments | src/bsd_getopt.c:312-439 | A whole run, whether operands are permuted, reported or stop it, and with long options behind the letter W, reports what the specification reports and leaves options with their arguments first, then operands, both in order, with optind at the first operand |
| Getopt.Parser.Next | src/bsd_getopt.c:312-439 | One call makes the first report that is left, and keeps account of everything read, skipped and still to come |
| Getopt.Parser.SkipOperands | src/bsd_getopt.c:201-262 | The start loop steps over operands, exchanging blocks as it goes, until an option word or the end |
| Getopt.Parser.MeetOperand | src/bsd_getopt.c:214-231 | Where operands are not permuted, one is reported as it stands or ends the run there |
| Getopt.Parser.ReadViaLong | src/bsd_getopt.c:263-281 | A letter W takes the rest of its word or the next word for a long option, whose own argument follows; an empty next word ends the options |
| Getopt.Parser.MoveOptionsForward | src/bsd_getopt.c:237-244 | The permutation call puts the options read before the operands skipped |
| Getopt.Parser.ReadLetter | src/bsd_getopt.c:263-304 | One letter inside a word, with its argument from the word, from the next word, or missing |
| Getopt.Parser.FindLong | src/bsd_getopt.c:350-377 | The table loop finds the specified match |
| GetoptSpec.MatchMeans | src/bsd_getopt.c:350-377 | An exact name wins if at most one longer name precedes it; without one the only abbreviation; ambiguous exactly when two are seen first |
| GetoptWords.LetterByItself | src/bsd_getopt.c:253-304 | A letter alone in its word takes nothing, the next word, or nothing, as no colon, one or two follow it in the option string; a required word that is missing is reported |
| GetoptWords.LetterWithMore | src/bsd_getopt.c:282-302 | With more behind it in its word, that is its argument if a colon follows in the option string, and else the next letters |
| GetoptWords.UnknownByItself | src/bsd_getopt.c:253-262 | A letter that the option string does not have, or a colon, is reported as unknown |
| GetoptWords.OperandMeans | src/bsd_getopt.c:214-245 | An operand stops the parse, is reported in its place, or is kept for the end, as the sign in front of the option string and the environment say |
| GetoptWords.MarkerMeans | src/bsd_getopt.c:246-251 | Behind two dashes every word is an operand |
| GetoptWords.LongByName | src/bsd_getopt.c:342-430 | A long option by its name: a required argument is the next word, or is reported as missing |
| GetoptWords.LongWithValue | src/bsd_getopt.c:342-430 | A value behind an equals sign is the argument, or is refused if the option takes none |
| GetoptWords.LongBehindLetter | src/bsd_getopt.c:263-281 | What stands behind a letter W, or is the next word, is read as if behind two dashes |
| GetoptLaws.ScanIsStablePartition | src/bsd_getopt.c:172-305 | The options and the operands of a vector are a stable partition of its words |
| GetoptLaws.MergesAll | src/bsd_getopt.c:172-305 | Together they are all its words, with multiplicity |
| GetoptLaws.NothingMoves | src/bsd_getopt.c:214-231 | In the two orderings that do not permute, every vector is its options followed by its operands already |
| GetoptLaws.SortedReparses | src/bsd_getopt.c:312-439 | In every ordering, parsing the sorted vector again changes nothing, if and only if no option was left without its argument ahead of operands |
| PathCanon.Canonicalise | src/pn.c:275-359 | The machine writes the canonical form and a NUL for every path that is not empty, stays inside path length, ends for every input, and fails if and only if the path is empty or what is written after some part of it fills the buffer |
| PathCanon.DropLast | src/pn.c:338-349 | Stepping back stops just behind the slash before the last name, or at the buffer's start |
| PathCanon.NewPath | src/pn.c:93-134 | With a buffer of length plus one the canonical form of the absolute path always results |
| PathCanon.ReadsOn | src/pn.c:275-359 | Reading a path character by character keeps the stack of names and the component begun |
| PathCanon.CanonOf | src/pn.c:275-359 | From these the canonical form results where the path ends |
| PathLaws.CanonSplits | src/pn.c:275-359 | The components of a canonical path are the root, the proper names of its place and a final empty one if the last component vanished, and nothing else |
| PathLaws.CanonKeepsPlace | src/pn.c:275-359 | A canonical path leads where the path led |
| PathLaws.CanonIsIdempotent | src/pn.c:275-359 | Canonicalising twice is canonicalising once |
| PathLaws.CanonDecidesPlace | src/pn.c:275-359 | Two paths have one canonical form if and only if they start alike, lead to the same place and end alike |
| PathLaws.RelativeToDirectory | src/pn.c:99-116 | A relative path behind a directory leads down from that directory |
| PathRewrites.JoinedIsCanonical | src/pn.c:275-359 | Names joined by single slashes, with or without a slash at either end, are left as they are |
| PathRewrites.BackslashIsSlash | src/pn.c:118-127 | A backslash is as good as a slash |
| PathRewrites.NothingBetween | src/pn.c:275-359 | A doubled slash, and a dot between slashes, can be left out wherever they stand |
| PathRewrites.UpAgain | src/pn.c:338-349 | So can a name with two dots behind it |
| PathRewrites.UpFromRoot | src/pn.c:338-349 | Two dots at the root lead nowhere |
| PathRewrites.DotsAtStart | src/pn.c:275-359 | At the start of a relative path a dot, and two dots as well, are dropped |
| Sha1.Context.Input | src/sha1.c:185-236 | Any portion is absorbed: the counters, the buffer and the running hash stand for the whole message; too many bits or input after a result break the context with the right code |
| Sha1.Context.Result | src/sha1.c:128-163 | The digest of the whole message, the same again on every further call, or the error code |
| Sha1.Context.PadMessage | src/sha1.c:366-411 | One or two final blocks make the hash of the padded message |
| Sha1.ProcessBlock | src/sha1.c:256-341 | Schedule, four loops of rounds and the final additions equal the compression of section 6.1 of RFC 3174 |
| Sha1.CountersSplit | src/sha1.c:401-408 | The two 32-bit counters give the eight length octets |
| Sha1Laws.AnySplit | src/sha1.c:185-236 | However a message is cut into portions the digest is that of the whole; from 2^61 octets on there is none |
| Sha1Laws.LaterResults | src/sha1.c:128-205 | After a result, the same digest again until something is fed, and from then on only the state error |
| Sha1Laws.PadTellsMessages | src/sha1.c:366-411 | Different messages are padded differently |
| Sha1Known.DigestOfAbc | src/sha1.c:256-341 | The digest of "abc" is the one in section 7.3 of RFC 3174 |
| Sha1Known.RoundConstants | src/sha1.c:258-264 | The constants of the rounds are the integer parts of 2^30 times the square roots of 2, 3, 5 and 10 |
| Sha1Known.InitialHash | src/sha1.c:97-101 | The initial hash, octet by octet |
| Archive.ClearArchive | src/code.c:283-319 | Of every image the walk stays inside of, going forward, it leaves the specified image, and fails exactly if it meets a member of size zero |
| Archive.AtolAlone | src/code.c:296-300 | A size that ends inside its header is read as if nothing followed, although it is read with no end in sight but its own |
| Archive.SizeIsRead | src/code.c:296-300 | A size in decimal digits is read as that number, whatever but a digit follows |
| Archive.AtolStarts | src/code.c:296-300 | What may stand in front of the digits: blanks, one sign, and otherwise the size is zero |
| Archive.MemberCleared | src/code.c:304-319 | Of a member of even size, header written out, the name, 44 zeros and the data are left, and the members behind it are cleared in their turn, unless it is empty |
| Archive.ClearsJustStamps | src/code.c:304-309 | Exactly the header places behind the names of the members walked become zero |
| Archive.StampsDoNotMatter | src/code.c:283-319 | Archives differing in dates, owners, groups and modes become equal, if and only if they agree from the first empty member on |
| DataCode.HashToString | src/code.c:140-204 | The buffer holds the hexadecimal digest of a blob header and the data, or the checksum in radix 36, as the configured name says; a name that is neither ends the program |
| DataCode.CodeFits | src/code.c:201-202 | No code is empty, whatever is hashed, so the failure an empty one would signal never happens; none exceeds 40 characters |
| DataCode.HashedIsBlob | src/code.c:173-178 | The text hashed is the git blob if and only if the data is shorter than 4 GiB |
| DataCode.BlobsTellContents | src/code.c:169-176 | Different contents give different texts to hash |
| DataCode.HeaderReads | src/code.c:169-176 | The header is the word blob, a blank, the size in decimal and a NUL |
| DataCode.HexReads | src/code.c:184-186 | Every octet of the digest stands as its two lower-case hexadecimal digits, in its place |
| DataCode.AlgorithmNames | src/code.c:148-199 | The names sha1 and git mean the digest, none and any name that starts with crc the checksum, in letters of either case, and no other name either of them |
| DataCode.ChecksumReads | src/code.c:194-196 | The code of a checksum is read back in base 36 |
| DataCode.ArchiveStarts | src/code.c:206-210 | An archive is told by its first eight characters |
| DataCode.CodeFromBuffer | src/code.c:368-396 | The code of a file, an archive's stamps cleared before |
| DataCode.RebuiltArchiveHasSameCode | src/code.c:368-396 | Archives without empty members that differ in stamps only are hashed as the same data |
| ShopLaws.ShoppingIsNaive | src/shop.c:991-999 | Shopping finds the first command some candidate wins and the first such candidate in key order; it finds nothing exactly when no candidate wins any command |
| ShopLaws.EliminationIsNaive | src/shop.c:540-626 | Line-by-line elimination leaves exactly the candidates whose states match on every line that lists them, marked if some line does |
| ShopLaws.FirstContender | src/shop.c:170-200 | The winner is the first survivor in key order that some line lists |
| ShopLaws.TryIsNaive | src/shop.c:735-840 | One command yields its first contender, or leaves the survivors unmarked for the next command |
| ShopLaws.RangeMeans | src/shop.c:600-620 | A range is spoiled if and only if the state of some number from its first to its last, both included, does not match |
| ShopLaws.MarkMeans | src/shop.c:94-103 | A mark turns a capital first letter into a small one, and the winner is named with the capital again |
| Shop.Shopper.ComparePrereqs | src/shop.c:540-626 | Skipping lines without candidates and stopping early changes nothing |
| Shop.Shopper.ComparePathState | src/shop.c:452-533 | A mismatch that is not ignored deletes the listed candidates, with an early exit |
| Shop.Shopper.MarkLine | src/shop.c:573-583 | Every listed candidate still in play is marked; if there is none the line lists nobody |
| Shop.Shopper.Insert | src/shop.c:107-117 | A candidate enters in key order unless its index is taken |
| Shop.Shopper.ShopFor | src/shop.c:991-999 | The loop over commands gives the specified, and so the naive, outcome |
| Murmur.MurmurHashAligned2 | dbg/dcode.c:113-239 | For every key, seed and alignment the sliding window gives the hash of MurmurHash2 |
| Murmur.MurmurHashNeutral2 | dbg/dcode.c:247-289 | Reading octets gives the same hash |
| Murmur.MurmurHash2 | dbg/dcode.c:52-101 | The plain loop computes the hash defined on the whole key |
| Murmur.Window | dbg/dcode.c:156-158 | The octets held back, shifted down, with the next word's, shifted up, are the next word of the key |
| Murmur.XorOctets | dbg/dcode.c:84-91 | Mixing the last octets in one by one mixes in the number they make |
| Murmur.MixMeans | dbg/dcode.c:68-81 | Bit by bit what four octets do to the hash |
| Murmur.AvalancheMeans | dbg/dcode.c:96-98 | Bit by bit the last mixing |
| Bits.Disjoint | dbg/dcode.c:157-157 | "Or" and "exclusive or" of numbers whose bits do not meet are their sum |
| Bits.XorBits | dbg/dcode.c:73-77 | The exclusive or, on numbers, is that of their bits |
| Radix.FormatToRadix | src/util.c:1139-1166 | Filling from the right and copying down leaves the digits and a NUL, whenever they fit |
| Radix.ParseDigits | src/util.c:1139-1166 | Reading the digits gives the number back |
| Radix.NoLeadingZero | src/util.c:1139-1166 | Only zero starts with a zero |
| Radix.CharIs | src/util.c:1139-1166 | The digits are 0 to 9, a to z, A to Z |
| Wire.EncodingRoundTrips | src/util.c:1249-1270 | Decoding an encoded string gives it back; the encoding holds no comma and no newline |
| Wire.EncodeMinimal | src/util.c:1249-1270 | The copying loop gives the encoding that can be decoded |
| Wire.EscapeMeans | src/util.c:1382-1399 | A percent sign and two hexadecimal digits, with letters of either case, stand for the octet they number |
| Wire.PlainMeans | src/util.c:1382-1399 | Every other character, and a percent sign without two digits, stands for itself |
| Wire.UnescapeText | src/util.c:1371-1410 | The copying loop decodes any string, one that ends inside an escape included |
| Wire.RecordRoundTrips | src/util.c:1213-1237 | A record of encoded fields splits back into the fields, whatever they hold |
| Wire.Strsep | src/util.c:1213-1237 | The next field, ended by a NUL, and where the rest starts |
| Wire.AllFields | src/util.c:1213-1237 | Taking fields until there are none splits the record |
| MomentText.MomentRoundTrips | src/moment.c:246-281 | A formatted moment fits its buffer, and is read back if and only if neither of its numbers is negative |
| MomentText.WriteMoment | src/moment.c:269-281 | The caller's buffer holds both numbers in radix 36 with a dot between them, or as much of that as fits |
| MomentText.ReadMoment | src/moment.c:245-262 | The text is split at its first dot and both numbers are read as strtoll reads them; without a dot the moment is zero |
| MomentText.TextIsRead | src/moment.c:253-258 | Of any text: behind blanks and a sign, the base-36 digits up to the first character that is none, as near as 64 bits come to their number |
| RequoteLaws.QuotingRoundTrips | src/util.c:273-358 | The shell splits the quoted line into the argument vector, if and only if no word holds both a single quote and a newline |
| RequoteSpec.StyleMeans | src/util.c:298-317 | The words that are left bare, by their characters, and those that get double quotes |
| RequoteSpec.ShellMeans | src/util.c:298-317 | The shell used for this refuses special characters outside quotes and expansions inside double ones |
| Requote.RequoteArgv | src/util.c:273-358 | The loops write the quoted line inside the space set aside |
| Requote.LineFits | src/util.c:279-285 | The quoted line and its NUL fit the sum of 2*len+3 |
| Environ.CustomEnv | src/prop.c:1843-1934 | The block holds a sorted array of pointers to the entries, written inside the size asked for, strings behind the pointers, names cut to their buffer; the final pointer is the caller's |
| Environ.BlockSize | src/prop.c:1708-1760 | The two loops add up the room for every entry given and every property exported, with their pointers |
| Environ.BlockFits | src/prop.c:1708-1760 | That room is enough for the pointers and strings actually written |
| Environ.KeptIsFilter | src/prop.c:1213-1223 | The caller's entries kept are exactly those matching neither form of the prefix |
| Environ.MatchesMeans | src/prop.c:1213-1223 | An entry is the program's own if it is the prefix, or the prefix without its first character, and anything behind it |
| Environ.ExportedMeans | src/prop.c:1895-1913 | Just the properties with a value that are marked for export become entries, one by one and in order |
| Environ.NameMeans | src/prop.c:1362-1368 | The name of an entry, character by character: capitals, underscores for dots, at most 127 |
| Environ.EnvironmentIsStable | src/prop.c:1843-1934 | A child that passes its environment on passes on the same one |

## Left out

- Shopping's effect on a start record: the monitor's reply to a recycled or refused command, and the command's early exit, are not part of the protocol model.
- Inactive auditors, no-monitor mode, the monitor loop's completion flag, the exit status in an end line and the warning about pending members: they do not touch the table.
- Handshake: an end line carries no exit status, a process that dies without exiting sends nothing, and threads of one process are one sequence of steps.
- AuditTable: a published bundle holds the raw actions; their reduction to one action per path is modelled separately in Coalesce. The order in which one record publishes several bundles is not stated.
- Getopt: the messages printed, the character that stands for a report, and flag pointers of long options, which are the caller's variables.
- PathCanon.NewPath: project-relative paths and the offset of the project's base directory, whose prefix test does not look at component boundaries.
- Shop: collecting and downloading the winner's targets, the debugging entry by command key, and the text format of ranges; the comparison of one state is a fixed predicate, although the program's cache of the current state may not always compute the same fields.
- Shop.Shopper.ComparePathState: the states that match are also recorded with the command; shopping clears them again before it returns (src/shop.c:1018), so they are not part of the model.
- Archive.ClearArchive: an image whose walk leaves it, whose sizes run on past their headers, or whose sizes are negative; the program checks none of this and would read or write outside the data, or go back.
- DataCode.CodeFromBuffer: zip archives, whose layout header is not part of this model; and an archive that the walk of Archive.ClearArchive would leave.
- Environ.CustomEnv: the two views of the block, as pointers and as characters, are two arrays whose written parts do not overlap.
- Wire: the conversion of the whole command header to text, which does not preserve a literal `^J` or commas in every field.
- MomentText.ReadMoment: text longer than the buffer it is copied to, for which the program does not check.
- Radix.FormatToRadix: numbers whose digits do not fit, where the program's assertion comes one place too late.
- Radix.CopyDown: the program's strcpy may copy between overlapping regions, which C leaves undefined; it is modelled as the copy from front to back.
- Murmur: keys longer than a C int, and big-endian machines.
- Windows code, HTTP, sockets, file mapping, verbosity and option tables.
