# Verified models of the sub2api deployment tools

This project models the decision logic of the scripts under `deploy/` and proves what they are for. Commands,
sockets and files are steps that may succeed, fail or be cut off; everything decided around them is modelled as
the code decides it.

- **Nginx rewriter** (`Text`, `Shlex`, `Nginx*`). A character lexer cuts a configuration into statement events with
  byte offsets; a tree is built from the events, and the parser's flat lists with parent links are shown to be that
  tree's. A text edit between plain-code positions is then an edit of the event stream, and an edit of the event
  stream is an edit of the tree. `NginxResult.RewriteCommutes` puts the stages together: parsing the rewritten text
  gives the rewritten tree. `NginxOutcome.RewriteMeans` says the same of tokens and raw text alone, with none of the
  source's own tests, and `NginxExact.ReturnsIff` says for which texts the rewrite returns at all. `NginxReturns.RewriteAgain`
  follows the raw text of every kept block through all stages and shows that the rewrite accepts its own output and
  keeps its tree.
- **Maintenance cutover** (`Cutover*`). A host whose durable state survives crashes, a volatile controller, and any
  number of apply and recover runs in which every command may fail or be cut off before, after or half-way through
  its effect. Each command requires and keeps the write-ahead rule, so the rule holds in every state in which a run
  can end. The commands of a cutover are issued in the order of a plan, each only once the one before it has succeeded.
  The host logs what a rollback does about every legacy service. On a calm host, whose commands do what they are meant to
  do, a cutover completes, and a recovery brings the legacy services back from any state.
- **Locked snapshot stream** (`SourceDatabase`, `LockedStream`, `ControlLines`). Other clients and dying backends
  run between any two steps of the controller. A successful run has held the lock from its acquisition past the commit;
  whatever becomes of a run, it leaves no session, lock or open transaction of its own.
  The line reader is shown to be independent of chunking exactly up to its limit.
- **Redis migration** (`Redis*`). The wire encoding is injective and self-delimiting, every form of reply is read back
  from an encoder of its own, the prefix policy classifies every key at most once, and a rolled-back copy leaves nothing
  behind although replies may be lost.
- **Origin-pull control protocol** (`Aop*`), **data retirement** (`Retire*`). Durable records around remote writes and
  around irreversible deletions, over any sequence of interrupted runs.
- **Compose and environment editing** (`Lines`, `Compose*`, `LegacyEnv`), **TOTP seed decoder** (`Base32`).

Code that updates variables step by step is a method with loops, proved equal to a function of its input; the promises
of the source are lemmas about that function. Code that drives a host is a class whose methods change the state of
a world object, with nondeterministic outcomes.

Some promises turned out to need a condition, and the code is kept as it is:

- The target directories are emptied only when no migrated container exists: this fails when `docker inspect` fails on
  a container that exists, because every failing inspection is read as absence (deploy/maintenance-cutover.py:1743-1805).
  The world therefore keeps the set `hidden` of the identities that an inspection reported missing while they existed.
  Over any runs, a reset meets no container exactly if it meets none of these (`CutoverRuns.AnyRuns`,
  `CutoverWorld.ResetIffNoneHidden`). `CutoverRuns.MutedTargetSurvives` is a recovery run that reports success and has
  emptied the directories under an existing target whose inspections failed. The write-ahead rule speaks of the
  containers that are not hidden. Stable traffic and running legacy services at a reset do not depend on any of this.
- `read_line` does not depend on chunking for lines of at most 65536 bytes and always refuses lines of 69632 bytes or
  more; in between the cut decides (`ControlLines.CutDecides`).
- A replaced password parses back to the old environment exactly if the file has room for it: the file's size, less the
  old password, plus the new one, plus one for a missing last line feed behind the password, must be within the limit
  (`LegacyEnv.ReplacementParses`). `LegacyEnv.FullFileIsRefused` gives a file and a password for which it is not.
- The Compose file with the generated service is scanned again exactly if it has room for that service
  (`ComposeLimits.ScanCommutes`); otherwise the transformation refuses. `ComposeHardened.FullFileHasNoRoom` gives a file.

The parser drops unfinished text before a closing brace. A server body that ends in such text would swallow the
inserted location; the final verification then refuses the result, which is why no condition is needed there
(`NginxTheorem.UnfinishedIsNoLocation`).

## Model

| member | source | states |
|---|---|---|
| NginxLexer.StripComments | deploy/install-nginx-direct-v1.py:207-234 | the three-flag loop computes the comment-free text that the lexer specification `Strip` defines |
| NginxLexer.StripConcat | deploy/install-nginx-direct-v1.py:207-234 | stripping distributes over every cut when the second part starts in the state the first one leaves, so stripping per slice agrees with stripping the whole |
| NginxLexer.StripIdempotent | deploy/install-nginx-direct-v1.py:207-234 | stripped text contains no comment: stripping again changes nothing, and it ends in the same quote state |
| NginxLexer.FindCodeStart | deploy/install-nginx-direct-v1.py:253-278 | the scan returns the offset that `CodeStart` defines |
| NginxLexer.CodeStartFindsCode | deploy/install-nginx-direct-v1.py:253-278 | the offset is the end of the text exactly when the text is nothing but comments and whitespace |
| Shlex.SplitWords | deploy/install-nginx-direct-v1.py:237-241 | joining plain words with spaces and tokenising gives back exactly the words |
| Shlex.WordsAfterText | deploy/install-nginx-direct-v1.py:237-241 | whatever stands before two spaces and plain words, the token list ends with those words, and is longer if anything but whitespace stood there |
| ShlexWords.SplitWritten | deploy/install-nginx-direct-v1.py:237-241 | words written from bare, backslashed, single-quoted and double-quoted pieces, with any whitespace between them, tokenise to what the pieces mean |
| ShlexWords.SplitUnclosed | deploy/install-nginx-direct-v1.py:237-241 | a text that ends in an open quotation or a lone backslash is refused, whatever was spelled before |
| NginxOffsets.MarksArePlaced | deploy/install-nginx-direct-v1.py:281-353 | every statement ends at a cutting character in plain code, and its recorded start is a plain-code position with nothing unfinished before it |
| NginxParseConfig.ParseConfig | deploy/install-nginx-direct-v1.py:281-353 | the pass with flags, stack and `close_index` updates raises exactly where the specification refuses, and else returns fresh, distinct block objects and directives whose fields and parent references are those of the specification |
| NginxParserTree.ParseIffTree | deploy/install-nginx-direct-v1.py:281-353 | a text is accepted exactly when its events form a balanced tree of headed blocks and nothing but whitespace, comments and closed quotes follow |
| NginxParserTree.ParseGivesTree | deploy/install-nginx-direct-v1.py:281-353 | the flat block and directive lists are those of the tree, in textual order, with every offset and parent |
| NginxLaminar.SpansAreLaminar | deploy/install-nginx-direct-v1.py:314-353 | any two block spans are nested or disjoint |
| NginxLaminar.ParentsAreInnermost | deploy/install-nginx-direct-v1.py:314-353 | the parent of every block and directive is its innermost enclosing block, and None exactly when there is none |
| NginxOffsets.BlockEndWithNewline | deploy/install-nginx-direct-v1.py:476-482 | the loop returns the end behind trailing blanks and one line feed |
| NginxOffsets.BlockEndBeforeNext | deploy/install-nginx-direct-v1.py:476-482 | a removal ends before the next statement starts, so removals cannot overlap |
| NginxSplice.ApplyDescending | deploy/install-nginx-direct-v1.py:533-539 | splicing in descending order computes `ApplyAll` |
| NginxSplice.DescendingIsSimultaneous | deploy/install-nginx-direct-v1.py:533-539 | splicing from the end equals one simultaneous edit that keeps every byte outside the intervals in order |
| NginxRewriteMethod.EditsAreDisjoint | deploy/install-nginx-direct-v1.py:497-539 | the removal intervals are pairwise disjoint, lie inside the server body and end at or before its closing brace, and the insertion comes last |
| NginxSplice.EditsCommute | deploy/install-nginx-direct-v1.py:533-539 | a list of text edits at clean positions does to the event stream exactly what the matching event edits do |
| NginxStages.DirectStage | deploy/install-nginx-direct-v1.py:497-539 | after the removals and the insertion the text parses to the tree without the removed children and with one block appended to the server |
| NginxStages.UpstreamStage | deploy/install-nginx-direct-v1.py:541-548 | prepending the upstream text prepends one block to the tree and leaves the rest as it is |
| NginxGates.GateStage | deploy/install-nginx-direct-v1.py:423-450 | the inserted lines are the first directive of exactly the ungated proxying children of the server |
| NginxTheorem.UnfinishedIsNoLocation | deploy/install-nginx-direct-v1.py:583-595 | behind any other unfinished text the inserted header is not a location, so the final verification refuses |
| NginxTheorem.ApprovedIs | deploy/install-nginx-direct-v1.py:485-496 | the block that satisfies the approval test in the tree is the one server that the flat-list search finds |
| NginxResult.RewriteCommutes | deploy/install-nginx-direct-v1.py:485-566 | whenever the rewrite returns, parsing its text gives the input's tree with exactly the selected children of the approved server deleted, the direct location as its last child, one upstream in front if there was none, and one gate include first in each ungated proxying child; nothing was left unfinished before the server's brace |
| NginxRewriteMethod.RewriteDirectV1 | deploy/install-nginx-direct-v1.py:485-566 | the loops return exactly for the texts that can be rewritten, and a returned text parses to the new tree: the one server for the host without its removable children, with the gates that the remaining ones lack, and with the direct location as its last child |
| NginxMeaning.RemovedIff | deploy/install-nginx-direct-v1.py:501-521 | a child is removed exactly if its header tokenises to `location p`, `location = p` or `location ^~ p` where p is /v1 or begins with /v1/, or to a location that by its raw body, its header or its path captures traffic; it is refused exactly if it cannot be read or is a regular-expression location with v1 in its path |
| NginxMeaning.ApprovedIff | deploy/install-nginx-direct-v1.py:356-386 | a block is approved exactly if it is a server, one of its directives has a certificate or listens on port 443, and one names the host |
| NginxMeaning.NoCapturesIff | deploy/install-nginx-direct-v1.py:244-250 | directives or headers pass exactly if all can be read and none is named as one that mirrors or runs Lua, in either case of letters |
| NginxMeaning.UngatedIff | deploy/install-nginx-direct-v1.py:409-440 | a location is given a gate exactly if it passes requests on and not exactly one of its directives is the gate include |
| NginxOutcome.RewriteMeans | deploy/install-nginx-direct-v1.py:485-566 | in terms of tokens and raw text: of the one server that terminates TLS for the host exactly the removable children are gone, the remaining ones stay in order and get the gate they lack, the direct location is the last child, and nothing else changes; no child was unreadable and none captured |
| NginxOutcome.OneV1Child | deploy/install-nginx-direct-v1.py:597-635 | after any returned rewrite exactly one child of the server has a literal /v1 header, the inserted last one, and every child that passes requests on has exactly one gate |
| NginxExact.ReturnsIff | deploy/install-nginx-direct-v1.py:485-656 | the rewrite returns exactly if one block is approved and all can be judged, every child of the server can be read, neither directives nor children nor includes capture, nothing is unfinished before the closing brace, every remaining location has at most one gate, and at most one upstream exists, a reviewed one |
| NginxDirect.DirectIsReviewed | deploy/install-nginx-direct-v1.py:609-625 | the inserted location has every line that the final verification requires and none of the words that it refuses |
| NginxMarkers.SameMarkers | deploy/install-nginx-direct-v1.py:505-513 | the gate include neither adds nor hides a capture marker in the raw body it is put into |
| NginxIdempotent.FirstRun | deploy/install-nginx-direct-v1.py:485-566 | after a rewrite no kept child would be selected for removal, judged by the raw text of the output, and the inserted location stands there letter by letter |
| NginxReturns.RewriteAgain | deploy/install-nginx-direct-v1.py:485-566 | a second rewrite of the output returns, and its text parses to the same tree |
| CutoverWorld.World.Switch | deploy/maintenance-cutover.py:1467-1520 | success means that file and running configuration select the stage; any failure leaves each at its old or its new stage |
| CutoverWorld.World.WriteRecord | deploy/maintenance-cutover.py:761-812 | the record on disk is the old or the new document as a whole, the new one on success, and only a document with unaliased identities is written |
| CutoverWorld.World.Clear | deploy/maintenance-cutover.py:827-844 | the record is gone on success and may be gone on failure, within the write-ahead rule |
| CutoverWorld.World.InspectTarget | deploy/maintenance-cutover.py:1743-1805 | an inspection that reports a container tells the truth; one that reports none has hidden exactly the existing container it was asked about, if there is one |
| CutoverWorld.ResetIffNoneHidden | deploy/maintenance-cutover.py:2709-2719 | a reset that keeps the rules meets no container exactly if no existing container was ever reported missing |
| CutoverRuns.MutedTargetSurvives | deploy/maintenance-cutover.py:2562-2719 | from a given host, with given command outcomes, recovery reports success, clears the record and has emptied the directories under an existing target |
| CutoverController.Controller.PersistRecoveryState | deploy/maintenance-cutover.py:1572-1618 | the record becomes exactly the controller's fields, and is untouched when the recovery identity is unavailable |
| CutoverController.Controller.RestoreRecoveryState | deploy/maintenance-cutover.py:1628-1658 | the fields become the record's exactly when release and legacy identities match; a changed private file makes the identity unavailable |
| CutoverRuns.PersistThenRestart | deploy/maintenance-cutover.py:1572-1658 | a persisted record loads and restores, in a later run of the same release, to the very fields it was written from |
| CutoverController.Controller.PinTargetIdentity | deploy/maintenance-cutover.py:1807-1824 | the pinned identity is the container's, and pinned identities stay pairwise distinct and disjoint from the legacy ones |
| CutoverController.Controller.Preflight | deploy/maintenance-cutover.py:2118-2244 | the flags are persisted before the first container of either kind exists, and nothing is changed before that; success means that the acts of the plan up to the rollback check were taken in order, and on a calm host where a cutover can begin it is certain |
| CutoverController.Controller.StopWriters | deploy/maintenance-cutover.py:2246-2261 | success means that the sync unit, still the known one, and the legacy application are down while PostgreSQL and Redis run and are healthy |
| CutoverController.Controller.ReplacePostgres | deploy/maintenance-cutover.py:2351-2401 | success means that the pinned PostgreSQL identity was replaced by another one, stopped and seen idle before it was removed, and recorded on the way |
| CutoverController.Controller.MigrateData | deploy/maintenance-cutover.py:2263-2443 | success means that all six commands succeeded one after the other, PostgreSQL is another container, and the nonce target serves without the migration ACL |
| CutoverController.Controller.SwitchAndCanary | deploy/maintenance-cutover.py:2480-2515 | success means canary traffic with every pinned target present, running and healthy |
| CutoverController.Controller.RequireTargetCleanupIdentity | deploy/maintenance-cutover.py:2543-2560 | passes only if every existing target is the pinned one or was reported missing, so an unpinned container that is seen fails closed |
| CutoverController.Controller.RequireTargetsAbsentAfterCleanup | deploy/maintenance-cutover.py:2562-2572 | passes only if every migrated target that still exists was reported missing |
| CutoverController.Controller.RequireAbsent | deploy/maintenance-cutover.py:2562-2572 | passes only if the inspections by the pinned identity and by name were both answered with a missing container |
| CutoverController.Controller.EnsureLegacyRunning | deploy/maintenance-cutover.py:2517-2541 | a service that is seen down has its start command issued, whatever the outcome; success means that it runs, and is healthy if that was asked, and that no start failed; on a calm host it succeeds |
| CutoverController.Controller.Rollback | deploy/maintenance-cutover.py:2574-2719 | a run that completes keeps to the decision table: its error list, the destructive steps it logs and the checks it passed are exactly those of the findings, each of which is tied to the host it leaves. In every run, also one that is cut off, exactly the services that were seen down had a start issued; if a recorded identity has changed nothing is taken down or emptied; on a calm host every legacy service runs behind stable traffic in the end, whatever was down, and if the targets are the pinned ones the error list is empty |
| CutoverRollback.NoErrorsIff | deploy/maintenance-cutover.py:2574-2719 | the error list of a run is empty exactly if PostgreSQL and Redis were seen healthy, all three probes passed, and a reset was logged and succeeded; the host is then taken back, and the downs that were due were logged before the reset and succeeded |
| CutoverRollback.ResetRunsIff | deploy/maintenance-cutover.py:2709-2719 | a run logs a reset exactly if nothing but the sync unit and the reset itself failed in it, and then traffic is stable and no container is left that was not reported missing |
| CutoverRollback.SyncDoesNotBlock | deploy/maintenance-cutover.py:2602-2640 | a run in which at most the sync unit failed has logged a successful reset and leaves stable traffic, empty directories and no ACL; without that error the sync unit is up and has answered |
| CutoverController.Controller.Execute | deploy/maintenance-cutover.py:2721-2766 | success means that every act of the plan was taken in order, canary traffic, writers down, all pinned targets healthy, PostgreSQL replaced, the migration ACL gone and the record cleared; every other end keeps the write-ahead rule, also when the final clear failed after unlinking. On a calm host a cutover that can begin completes, and one that raises has restored stable traffic and left the record absent or marked as incomplete |
| CutoverRuns.Apply | deploy/maintenance-cutover.py:2949-3021 | an apply run changes nothing while a recovery record exists; success means migrated traffic after the whole plan; on a calm host that is ready it succeeds |
| CutoverRuns.Recover | deploy/maintenance-cutover.py:2975-3019 | without an intact record, or with a changed private file or sync unit, recovery never runs a compose down or the reset and never touches the record; success means everything was taken back but for containers reported missing. On a calm host the legacy services carry the traffic in the end, whatever was down and whatever the record, and with an intact record and its own targets recovery succeeds |
| CutoverRuns.AnyRuns | deploy/maintenance-cutover.py:2721-3019 | over any sequence of runs with failures and crashes, whatever is under way is covered by a valid record until the final clear of a cutover that still stands; every destructive step met stable traffic and running legacy services; every compose down met only pinned targets besides those reported missing, and every reset no container exactly if it met none that had been reported missing; exactly the legacy services that were seen down were started |
| CutoverRuns.RunsOnFreshHost | deploy/maintenance-cutover.py:2721-3019 | the same for every host before its first cutover and whatever its commands do |
| ControlLines.Reader.ReadLine | deploy/locked-postgres-stream.py:377-400 | one call returns the line, the buffer and the unread chunks that the specification gives |
| ControlLines.ReadIff | deploy/locked-postgres-stream.py:377-400 | a call succeeds exactly if the stream has a newline and no chunk boundary before it leaves more than the limit unterminated; it then returns the stream's first line and leaves its remainder |
| ControlLines.StripCrIs | deploy/locked-postgres-stream.py:377-400 | exactly the carriage returns at the end of a line are dropped |
| ControlLines.ReadManyIsLines | deploy/locked-postgres-stream.py:377-400 | successive calls return the newline-split lines of the whole stream with trailing carriage returns removed |
| ControlLines.ChunkingIsInvisible | deploy/locked-postgres-stream.py:377-400 | two cuts of one stream give the same lines and the same remainder when the lines are within the limit |
| ControlLines.LongLineIsRefused | deploy/locked-postgres-stream.py:377-400 | a line of limit plus one read or more is refused under every cut |
| ControlLines.CutDecides | deploy/locked-postgres-stream.py:377-400 | for every line between these bounds there are two cuts of the same stream into reads, from an empty buffer, under one of which it is read and under the other refused |
| LockedStream.LockedStream.ClearSourceClients | deploy/locked-postgres-stream.py:747-760 | success means that nobody connected so far is connected any more or has written since the lock was taken |
| LockedStream.LockedStream.CommitTarget | deploy/locked-postgres-stream.py:840-844 | an acknowledged commit is one commit of the exported snapshot's rows; otherwise the target has its old rows or those |
| LockedStream.LockedStream.StopLockHolder | deploy/locked-postgres-stream.py:656-688 | an answer from the lock holder's session proves that the lock was held until then |
| LockedStream.LockedStream.Execute | deploy/locked-postgres-stream.py:872-912 | success means that the committed rows are the exported snapshot's and the source's at the commit, under a lock held since LOCK_READY, and that nobody connected at the client guard has written since; any failure leaves the target with its old rows or the snapshot's. Whatever the outcome, no lock or snapshot holder and no lock is left alive and no restored transaction open; if no session dies, no command fails and no client is connected, the run succeeds |
| RedisProtocol.EncodeCommand | deploy/migrate-redis-allowlist.py:128-149 | the loop builds the specified encoding |
| RedisProtocol.Reader.ReadReply | deploy/migrate-redis-allowlist.py:385-422 | reading consumes the stream as the reply grammar specifies, nested arrays and all refusals included |
| RedisReplies.ReplyRoundTrip | deploy/migrate-redis-allowlist.py:385-422 | from an encoder written apart from the reader: every reply, signed number, simple string, bulk string, null or array of replies nested to any depth, is read back with exactly the further bytes left; an error anywhere in it rejects it, and a size beyond the limits breaks it |
| RedisReplies.ReadLineIff | deploy/migrate-redis-allowlist.py:379-383 | a line is read exactly if the stream has one that ends in CR LF within the limit |
| RedisReplies.IntIsRead | deploy/migrate-redis-allowlist.py:393-412 | a signed decimal number with spaces around it and single underscores within is read as its value |
| RedisReplies.OnlyIntIsRead | deploy/migrate-redis-allowlist.py:393-412 | and nothing else is read as a number |
| RedisReplies.OtherMarkersAreBroken | deploy/migrate-redis-allowlist.py:385-422 | a line that begins with none of the five markers is refused |
| RedisProtocol.CommandRoundTrip | deploy/migrate-redis-allowlist.py:128-149 | reading an encoded command followed by any bytes returns exactly its parts and leaves exactly those bytes if it is within the size limits, and is refused if it is not |
| RedisProtocol.EncodingIsPrefixFree | deploy/migrate-redis-allowlist.py:128-149 | the encoding is injective, and no command is another one followed by more bytes |
| RedisProtocol.TooLongIsBroken | deploy/migrate-redis-allowlist.py:385-412 | every bulk string above the limit is refused, by its size or for the length of its size line |
| RedisPolicy.CheckDisjoint | deploy/migrate-redis-allowlist.py:294-303 | the pairwise loop decides whether any two prefixes overlap |
| RedisPolicy.DisjointIffUnique | deploy/migrate-redis-allowlist.py:294-303 | the pairwise check passes exactly if no key whatsoever starts with two of the prefixes |
| RedisPolicy.ClassesExclude | deploy/migrate-redis-allowlist.py:307-324 | under an accepted policy the allowed, discarded and forbidden classes exclude each other, so the order of the tests does not matter |
| RedisPolicy.AllowedIff | deploy/migrate-redis-allowlist.py:307-316 | under an accepted policy a key is copied exactly if it has 1 to 1024 bytes and stands under some rule and its pattern |
| RedisPolicy.DiscardedIff | deploy/migrate-redis-allowlist.py:318-324 | a key is dropped exactly if it has 1 to 1024 bytes and stands under some prefix of the list |
| RedisPolicy.AllowedHasOneRule | deploy/migrate-redis-allowlist.py:483-491 | every allowed key resolves to exactly one copy rule |
| RedisPolicy.ScanSourceKeys | deploy/migrate-redis-allowlist.py:445-480 | a scan succeeds exactly if a page with cursor zero comes within the page limit, every key up to it is copied or dropped and both counts are within theirs; it returns exactly the copied keys and the number of dropped ones |
| RedisCopy.RollbackTargetKeys | deploy/migrate-redis-allowlist.py:746-748 | completed chunks of one hundred remove exactly the given keys; the first chunk is sent in any case, and on reliable servers all are |
| RedisCopy.CopyNonces | deploy/migrate-redis-allowlist.py:796-819 | normal completion leaves exactly the keys that had not expired, each with the source's value and an expiry no earlier, and later by no more than the copy took; a failure sends the rollback, and if that completes the target is empty, also after a RESTORE whose reply was lost. On reliable servers the copy completes if every key is gone or expires within the limit; a live key that does not makes it fail on any |
| AopWorld.World.Write | deploy/configure-cloudflare-aop.py:948-988 | an unconfirmed directory sync leaves the new state visible but perhaps not durable; success makes it both |
| AopControl.Upload | deploy/configure-cloudflare-aop.py:1078-1183 | an existing record refuses a second upload without any effect; success leaves the created certificate recorded; every command of a run is followed by the one that its answer calls for, and on a calm host with nothing uploaded or associated the upload succeeds |
| AopControl.UploadSettles | deploy/configure-cloudflare-aop.py:1130-1183 | behind a POST, a run that was not cut off has recorded the created certificate, marked an unknown outcome, or removed the record after a refusal |
| AopControl.Poll | deploy/configure-cloudflare-aop.py:1195-1219 | an active answer was given by a GET for this certificate |
| AopControl.Associate | deploy/configure-cloudflare-aop.py:1286-1429 | a record of another zone, hostname or policy, or of an upload that is still in flight, ends the call without any request and leaves host and log as they were; success means a recorded association that a GET showed bound to the recorded certificate, enabled and active; every command of a run is followed by the one that its answer calls for, and on a calm host with an associable record it succeeds |
| AopControl.AssociateSettles | deploy/configure-cloudflare-aop.py:1373-1429 | a run that issued its PUT, for the requested identity and the recorded certificate, and was not cut off ends with the record of a confirmed association or with an attempt to mark it unknown |
| AopControl.AnyRuns | deploy/configure-cloudflare-aop.py:1078-1429 | over any interrupted runs every POST and PUT followed its durable record and the required GET, every PUT was issued for the identity on that record, at most one certificate was created, the recorded certificate and the identity behind a POST never change, and "associated" was confirmed by a GET of the recorded hostname |
| AopControl.RunsOnFreshHost | deploy/configure-cloudflare-aop.py:1078-1429 | a host without a record and without a POST is a valid start for any sequence of runs |
| RetirePaths.UnrelatedTreesAreDisjoint | deploy/retire-legacy-data.py:187-188 | two paths are unrelated exactly if no path lies below both |
| RetirePaths.AcceptedTreesAreDisjoint | deploy/retire-legacy-data.py:219-232 | nothing below an accepted directory is below the target root, the repository or another accepted directory |
| RetirePaths.AcceptedShapeIff | deploy/retire-legacy-data.py:191-216 | under the production policy a path is accepted exactly if it is normalized, has three names or more, does not begin in one of eight system trees, and shares no path below it with the target root or the repository |
| RetirePaths.AcceptedSetIff | deploy/retire-legacy-data.py:219-232 | the three data paths are accepted exactly if each is, none lies in the system logs, and no two share a path below them |
| Retire.World.DeleteExactDirectory | deploy/retire-legacy-data.py:947-980 | a directory goes only with its recorded identity, in its turn, with nothing mounted in it, and nothing outside its tree goes with it |
| Retire.RetireRecordedData | deploy/retire-legacy-data.py:1003-1126 | progress only grows; only due directories go; a run refuses and touches no directory if its arguments are not acceptable or not the recorded ones, a gate is closed or unconfirmed, or a due directory is missing, changed, moved or has a mount in it; success means complete; where every command succeeds, a run completes exactly if it need not refuse |
| Retire.AnyRuns | deploy/retire-legacy-data.py:1003-1126 | over any interrupted runs every removal was recorded, accepted, had its recorded identity and went in the order of deletion; every record validates and claims only real progress, and "complete" means all three removed and every distinct filesystem trimmed |
| Compose.ReadUnparse | deploy/harden-legacy-redis.py:520-562 | a well-formed cut of a file is read back from its lines, so no file has two readings |
| Compose.ReadIff | deploy/harden-legacy-redis.py:529-536 | a file is refused here exactly if it has no or several services sections |
| ComposeMeaning.KindIff | deploy/harden-legacy-redis.py:65-66 | a line is the services line, a top-level key or a service exactly if it is spelled so, and the name that the scanner reads is the one that stands there |
| ComposeMeaning.SafeLineIff | deploy/harden-legacy-redis.py:521-528 | a line is refused exactly if it holds a carriage return or a NUL or opens an include, a project name, an extension or a merge |
| ComposeMeaning.WidthIsUtf8 | deploy/harden-legacy-redis.py:521-522 | the size of a character is the number of bytes that RFC 3629 writes for it |
| ComposeScanner.ScanServices | deploy/harden-legacy-redis.py:520-562 | the size, encoding, include and merge refusals and the loops over line indices and offsets return the names, offsets and texts of the reading, or refuse where it does |
| Compose.ReplacementCommutes | deploy/harden-legacy-redis.py:755-783 | scanning the result gives the old services in order: the replaced one with the new text, every other one byte for byte, later offsets moved by one constant, and all text around unchanged |
| ComposeLimits.ScanCommutes | deploy/harden-legacy-redis.py:520-562 | with the refusals included, the result of a replacement is scanned exactly if its size, given by the file, the old block and the new one, is within the limit |
| ComposeHardened.HardenedIsBlock | deploy/harden-legacy-redis.py:700-752 | the generated text is one service block named redis, none of whose lines the scanner refuses |
| ComposeMeaning.HardenedIs | deploy/harden-legacy-redis.py:700-752 | the generated service begins with its image, its container name and the root user, and lists the networks in their order at its end, or has no such list |
| ComposeHardened.TransformCompose | deploy/harden-legacy-redis.py:755-783 | a result is returned exactly if the file is scanned, has both services and room for the generated one, and both reviews pass; it has the same services in the same order, the redis block equal to the generated text and every other block unchanged |
| ComposeHardened.FullFileHasNoRoom | deploy/harden-legacy-redis.py:520-562 | a file of full size is scanned, and refused once the generated service is in it |
| LegacyEnv.ParseEnvironment | deploy/harden-legacy-redis.py:837-872 | the loop returns the specified assignments or refuses where the specification does |
| LegacyEnv.ReadLineIff | deploy/harden-legacy-redis.py:846-870 | a line is skipped exactly if it is empty or a comment, and assigns exactly if it is an upper-case name that belongs to neither Compose nor Docker, an equals sign and a literal value |
| LegacyEnv.AdmittedIff | deploy/harden-legacy-redis.py:825-845 | a file is read exactly if all its characters are ASCII, none a NUL or a carriage return; a password is valid exactly if it has 32 to 4096 literal characters |
| LegacyEnv.ReplacementParses | deploy/harden-legacy-redis.py:875-889 | the output has the size that the file and the two passwords give, and parsing it gives the old values with only the password changed exactly if that size is within the limit |
| LegacyEnv.FullFileIsRefused | deploy/harden-legacy-redis.py:837-889 | a file of full size is accepted, and refused with a valid password one character longer |
| LegacyEnv.ReplacePassword | deploy/harden-legacy-redis.py:875-889 | the loop replaces the one password line and keeps every other line |
| Base32.DecodeTotpSeed | deploy/recover-worker-admin.py:732-744 | for n characters the loop emits floor(5n/8) bytes whose big-endian value is the value of the 5-bit digits divided by 2^(5n mod 8); the accumulator stays below 2^bit_count and bit_count below 8 |
| Base32.SameBytesIff | deploy/recover-worker-admin.py:732-744 | two seeds of one length decode equally exactly if they agree above the dropped tail bits |
| Base32.DecodeEncode | deploy/recover-worker-admin.py:732-744 | decoding the encoding of section 6 of RFC 4648 gives back the bytes |
| Base32.DecodeInput | deploy/recover-worker-admin.py:702-710 | an operator's input is decoded exactly if its trimmed upper-case form has the seed shape, to at least ten bytes |
| Base32.InputIff | deploy/recover-worker-admin.py:702-710 | an input is accepted exactly if it holds 16 to 128 letters and digits from 2 to 7 between whitespace; its letters are made capitals and nothing else changes |

## Left out

- Text.Lower, NginxMeaning.SameLetter, Base32.Upper: only ASCII letters are mapped; the source uses Python's full case mapping.
- Lines.SplitLines: "\n" is the only line separator; `str.splitlines` knows more.
- NginxRewrite.Verify: the host-name syntax check and the reading, ownership and locking of the configuration files are not part of the model.
- Retirement, cutover and protocol records: JSON syntax, field types and regular expressions of identities are not modelled, only the relations between fields.
- RedisProtocol.Reader: reads are complete; the source's unbuffered reader may return fewer bytes of a bulk string and then raises. Python's recursion limit on nested arrays is not modelled. Nor is its limit on the digits of `int()`.
- RedisPolicy.Rule: the key pattern is an arbitrary predicate. Value validation and the INFO and CONFIG checks of the migration are left out.
- CutoverWorld.World: time is not modelled; an expired deadline is one of the ways in which a command may raise. Legacy services do not die by themselves, and no command runs on after the controller has crashed.
- CutoverController.Controller.MigrateData: the six migration commands are steps without modelled effect on the data; the check modes, the locks and the authentication of the operator are left out.
- CutoverRuns.Recover: a crash between installing the migration ACL and persisting its flag leaves the ACL installed; nothing is claimed about it.
- LockedStream.LockedStream.Execute: the SQL text, the manifest queries and the death of the controller itself are left out; psql is taken to end with status 0 only if its session answered, and pg_dump to reproduce its snapshot. A session is taken to end when its psql is closed, terminated or killed. Clients that connect after the client guard may write once the lock is released.
- AopWorld.World.Post: the classes into which `request()` sorts replies are taken as correct, a refusal meaning that nothing was created; two runs do not overlap.
- Retire.RetireRecordedData: the creation of the record is left out; the Docker, Nginx and log gates and the interactive confirmation are one Boolean each. The test root of the path policy is left out.
- ComposeHardened.TransformCompose: the reviews of scalars, volumes, networks and commands before the edit, and of the generated service behind it, are one Boolean each; image and networks are parameters.
- Services around these cores (release-tree trust, subprocess handling, terminal input, TLS, HTTP, OpenSSL, the Worker, the Go and SQL parts) are not modelled.
- `deploy/harden-rpcbind.py` and `deploy/harden-legacy-sync-service.py` repeat the apply and rollback pattern of the cutover at a smaller scale.
