# Gatte, modelled and proved in Dafny

Gatte is a gateway between analysts and MCP tool servers. This project models
the parts of it that decide what an operator is shown, who may call what, and
what the audit trail says, and proves what they promise:

- what an operator is shown before approving a tool: the segments of untrusted
  text (`Utf8`, `Segments`), the lines of a definition (`Definition`), their minimal
  diff over a two-dimensional table (`LineDiff`), the page cut from it (`DiffHunks`),
  and all of it together (`ReviewPage`);
- the kill switch: blocks and their checks (`Blocks`), every interleaving of
  block, unblock, offboard and the expiry round as steps of a state machine with
  failures (`KillSwitch`), what those calls do not promise and exactly when they do
  (`KillSwitchLimits`), and the calls themselves over a store and a trail
  (`Service`, `BlockActions`, `Offboard`), which are runs of that machine (`BlockRuns`);
- accounts (`Accounts`, `AccountRuns`) and the approval of a review set
  (`ReviewSet`), with the accounting of their audit rows;
- who reaches what: roles and grants (`Access`), the policy and its deep copies
  on the heap (`PolicyHeap`), and what the review page says of it (`Coverage`);
- serve's maintenance loop: heartbeats (`Heartbeat`), reloads (`Reload`) and the
  operator's requests: one signal (`Control`), what an answer says of the trail
  (`Answers`) and whole runs of signals, restarts and abandonments (`ControlRuns`);
- `sign -all` and its manifest (`SignAll`), and the quoting of pasted commands
  (`ShellQuote`) against IEEE Std 1003.1-2017, Shell Command Language, sections
  2.2.1, 2.2.2, 2.3 and 2.6.7.

Where the source changes things step by step the model does too: classes with
the source's fields, arrays, loops, each proved against a specification function
or an exact new state. Ports that may fail take their failures from an arbitrary
function of the step (`Service.faults`), so a contract holds for every pattern of
failures; `Healthy` is the case of none. Functions the source calls and the model
leaves open are parameters of function type: which code points are hidden
(`visible.Hides`), `json.Indent`, hashes, Ed25519 and `signer.Canonical`, account
validation, password hashing, and the quota plan's validity.

`dafny verify dfyconfig.toml` verifies the project.

## What the code does not promise

Each of these is proved, with a concrete run or an exact condition:

- A description with CR LF line breaks counts one hidden code point a break that
  its `description` field (internal/admin/tools.go:103) does not mark: exactly so
  many (`Segments.CountedAgainstShown`), one for a single break
  (`Segments.ABreakIsCountedNotShown`). The lines of the same answer, and the
  review printed at a terminal, do mark the carriage return.
- `DiffHunks` with a negative width drops every change
  (`DiffHunks.NoChangeIsDropped` gives the condition both ways). Its only caller
  passes 1 (internal/admin/tools.go:160), and then it cannot happen
  (`ReviewPage.PageIsEmptyIffSame`).
- `Unblock` does not look at what the lift answered, so two unblocks of one block
  can both say changed (`KillSwitchLimits.AnUnblockMayLiftNothing`). A changed
  unblock lifted a block exactly when one was on the list at the lift
  (`KillSwitchLimits.ALiftAnswersChanged`).
- With two processes a lift can take a block placed after its row
  (`KillSwitchLimits.ALiftMayTakeALaterBlock`). It takes the block its row was
  written for exactly when that block has not left in between
  (`KillSwitchLimits.ARowIsForTheBlockThere`), and always when no other call acts
  on the subject between the read and the lift
  (`KillSwitchLimits.AnUndisturbedUnblockLifts`).
- A store that is not a `BlockReplacer` lets a replaced block go unnamed
  (`KillSwitchLimits.AReplacedBlockMayGoUnnamed`); being one is the exact condition
  (`KillSwitchLimits.NamedExactlyByAReplacer`). Every store of the repository is one.
- A request whose answer cannot be stored stays pending and is finished again, so
  an answer can say `recorded = false` of a request whose operator row is on the
  trail (`ControlRuns.ARowMayBeDenied`). A request serve answered has a row there
  exactly when the answer says recorded or a finish whose answer did not reach the
  store wrote one (`Answers.OnTrailUnlessLost`); so while no write to the control
  store fails, no answer denies a row (`ControlRuns.RunAll`).
- A grant's wildcard reaches every upstream whose name continues its key by a
  separator (`Access.SeparatorsBreakIsolation`,
  `Access.AWildcardReachesAnotherUpstream`). Such a name is refused where upstreams
  are registered (internal/registry/registry.go:217-235).
- A run of `sign -all` with an untrusted key signs the same entries again every
  time (`SignAll.RerunFindsNothing`).
- A review set whose rows were lost answers `recorded = false` and still carries
  the summary row as its audit row, when that one was written
  (`ReviewSet.Reported`).

## Model

| member | source | states |
|---|---|---|
| LineDiff.LcsIsLongest | internal/admin/review.go:195-217 | the specification the table is measured against: Lcs is the length of a common subsequence of the two lists, and no common subsequence is longer |
| LineDiff.GreedyIsOptimal | internal/admin/review.go:206-207 | taking equal heads greedily loses nothing: the longest common subsequence of two lists with equal heads uses them |
| LineDiff.CellIsLcs | internal/admin/review.go:204-212 | the greedy recurrence the table is filled by computes, on every pair of suffixes, the exhaustive Lcs |
| LineDiff.FillTable | internal/admin/review.go:200-212 | every cell [i][j] of the filled table is the longest-common-subsequence length of the suffixes from i and j |
| LineDiff.DiffIsScript | internal/admin/review.go:213-234 | for all inputs the script, without its additions, is a, without its deletions, is b, and has exactly Lcs(a, b) context lines |
| LineDiff.DiffIsMinimal | internal/admin/review.go:195-235 | no edit script from a to b has fewer additions plus deletions |
| LineDiff.ContextBound | internal/admin/review.go:195-235 | no script at all can have more context lines than the Lcs of the lists it turns into each other |
| LineDiff.AllContextIffEqual | internal/admin/review.go:195-235 | the script has no change if and only if the two lists are equal |
| LineDiff.Compute | internal/admin/review.go:196-235 | LineDiff over the array table: refused exactly above the cell limit, otherwise the script specified above |
| DiffHunks.LayoutIsRight | internal/admin/review.go:237-288 | for every script and width, the page never starts or ends with a gap nor puts two together, has a gap between two kept neighbours exactly when lines between them were left out, and shows exactly the lines selected |
| DiffHunks.IndicesAscend | internal/admin/review.go:256-266 | the lines of the page are each there once and in order |
| DiffHunks.NoChangeIsDropped | internal/admin/review.go:241-249 | a changed line is on the page if and only if the width is not negative; an unchanged one only within the width of a change; a negative width empties the page |
| DiffHunks.TrimIsExact | internal/admin/review.go:268-276 | trimming label lines from the laid page gives the same page as never selecting them |
| DiffHunks.Hunks | internal/admin/review.go:241-288 | the three passes over flag array, entries and trimmed entries give that page |
| Utf8.EncodeDecode | internal/admin/review.go:28-35 | the decoder Segments reads with (RFC 3629 sections 3 and 4): what it reads encodes back to the bytes read |
| Utf8.DecoderIsExact | internal/admin/review.go:28-35 | the decoder reads a code point exactly where the bytes start with its encoding |
| Segments.SegmentsAreLossless | internal/admin/review.go:15-50 | writing the segments back (text as is, hidden code points re-encoded, invalid bytes raw) gives the original bytes, for every byte string |
| Segments.SegmentsAreCanonical | internal/admin/review.go:24-50 | text segments are non-empty, maximal and free of hidden and invalid units; every other segment is one such unit under its own name |
| Segments.SegmentsShowUnits | internal/admin/review.go:24-50 | the segments, each read alone, show the code points and invalid bytes of the string in order |
| Segments.SegmentsAreTheOnlyOnes | internal/admin/review.go:24-50 | there is only one canonical segmentation that shows the string, and it is this one |
| Segments.SplitSegments | internal/admin/review.go:24-50 | the loop with its builder and flush computes those segments |
| Segments.MultilineIsNormalised | internal/admin/review.go:54-70 | writing multi-line segments back gives the input with every CR LF replaced by LF and nothing else changed |
| Segments.SplitMultiline | internal/admin/review.go:58-70 | the per-line loop computes them |
| Segments.CountedAgainstShown | internal/admin/review.go:96-103 | finding, as an equation: the hidden count of a description exceeds the marks of its description field by exactly its number of CR LF line breaks, when a carriage return is hidden |
| Segments.ABreakIsCountedNotShown | internal/admin/review.go:54-70 | the smallest such description, one CR LF: counted once, marked nowhere in that field |
| Definition.LinesReadBack | internal/admin/review.go:88-131 | the depth-marked lines of a definition parse back into its name, description and rendered schemas, so no content line passes for a label |
| Definition.ContentHoldsNoBreak | internal/admin/review.go:88-131 | no content line holds a line break, so none spills into a line of its own depth |
| Definition.DiffIsEmptyIffSame | internal/admin/review.go:88-131 | the diff of two definitions is all context exactly when names, descriptions and rendered schemas are equal |
| ReviewPage.PageIsEmptyIffSame | internal/admin/review.go:88-288 | diff and page together: for every width that is not negative, the page shown is empty if and only if names, descriptions and rendered schemas are equal |
| Definition.DefinitionLines | internal/admin/review.go:96-131 | the appending loops give those lines, and the hidden count summed per part |
| Blocks.ValidateSubject | internal/access/block.go:112-137 | accepts exactly the subjects with no outer space, no control and no invisible format character, within 256 bytes; the last is asked only of the others |
| Blocks.ValidateBlock | internal/access/block.go:139-161 | the accumulated errors are empty exactly for a valid block |
| KillSwitch.RunKeeps | internal/admin/access.go:139-267 | the invariant every interleaving of every number of calls and rounds keeps, with any step failing and any process stopping |
| KillSwitch.NoBlockLeavesUnrecorded | internal/admin/access.go:218-267 | over every run, a block lifted or expired has a row of its own, for its subject (and its end, for an expiry), on the trail before it left |
| KillSwitch.ReplacedBlocksAreNamed | internal/admin/access.go:149-191 | over every run on a store that says what it replaces, a replaced block is named in the row of its successor or the finished call answered recorded = false |
| KillSwitch.BlockedUntilItsEndOrALift | internal/access/block.go:56-70 | from its placement a block holds its subject blocked at every instant before its end, whatever fails and whoever runs, unless a lift took it after a recorded unblock |
| KillSwitchLimits.ALiftAnswersChanged | internal/admin/access.go:257-262 | a lift that does not fail answers changed and recorded whatever it takes; it takes a block if and only if one is on the list at that step, and then exactly that block, on its own row |
| KillSwitchLimits.ALiftTakesTheBlockItMeant | internal/admin/access.go:218-267 | from any state a run can be in where x is blocked, over any interleaving: a later lift of x takes that very block if and only if it has not left since |
| KillSwitchLimits.ARowIsForTheBlockThere | internal/admin/access.go:248-262 | the same from the step that writes the unblock row: the lift takes the block the row was written for if and only if that block has not left in between |
| KillSwitchLimits.AnUndisturbedUnblockLifts | internal/admin/access.go:218-267 | the condition a caller controls: if no other call acts on x between the read and the lift (one process, under its lock), an unblock that answers changed lifted the block it read, on its own row |
| KillSwitchLimits.AnUnblockLiftsABlockInForce | internal/admin/access.go:218-267 | with anything interleaved but another lift of x, the expiry round included, an unblock lifts the block it read if that block is still in force |
| KillSwitchLimits.AnUnblockMayLiftNothing | internal/admin/access.go:257-262 | finding, as a run from the empty gateway: two unblocks of one block both answer changed and recorded, and one departure is on record |
| KillSwitchLimits.ALiftMayTakeALaterBlock | internal/admin/access.go:248-262 | finding, as a run from the empty gateway: a lift takes a block placed and recorded after the unblock row it rests on |
| KillSwitchLimits.NamedExactlyByAReplacer | internal/admin/access.go:149-191 | over every run, for a replacement whose call answered recorded: the row of the successor names the replaced block if and only if the store says what it replaces; without that no row of the trail names any |
| KillSwitchLimits.AReplacedBlockMayGoUnnamed | internal/admin/access.go:161-167 | finding, as a run from the empty gateway without a BlockReplacer: a recorded call replaced a block and the whole trail names none |
| BlockActions.ValidateRequest | internal/admin/access.go:95-113 | refuses a request before anything is done; what it accepts is an attributable actor, a valid subject and note, and a future end |
| BlockActions.Place | internal/access/block.go:83-107 | the store port: refused while the subject is blocked, changes nothing then or on failure, names what it replaced when it can |
| BlockActions.PlaceBlock | internal/admin/access.go:139-204 | place first, record second: an error or an enforced block changes nothing; otherwise exactly this block is in force and the row naming what it replaced is written exactly when the answer says recorded |
| BlockActions.BlockSubject | internal/admin/access.go:115-137 | Block end to end, with success guaranteed when no port fails |
| BlockActions.UnblockSubject | internal/admin/access.go:215-267 | record first, lift second: changed exactly when the block left, with its row on the trail; every error keeps the block |
| BlockActions.ExpireBlocks | cmd/mcp-gateway/serve_blocks.go:45-78 | a round removes only ended blocks, each after a row of its own; the count is exact; with no failure no block that had ended remains |
| BlockRuns.PlacingIsARun | internal/admin/access.go:139-204 | whatever comes of an undisturbed PlaceBlock, blocklist and trail are as the state machine leaves them after some run of that one call's steps, with the same answer |
| BlockRuns.LiftingIsARun | internal/admin/access.go:215-267 | the same for UnblockSubject |
| BlockRuns.ExpiringIsARun | cmd/mcp-gateway/serve_blocks.go:45-78 | the same for ExpireOne, as what a round does with the first block it still has to deal with |
| BlockRuns.ServeAll | internal/admin/access.go:115-267 | any number of Block and Unblock calls from an empty blocklist, with any port failing, are a run from Init, so the theorems over all runs hold of them |
| Service.Service.Retry | internal/admin/service.go:229-253 | up to four attempts; all but the last were busy and wrote nothing, so at most one takes effect |
| Service.Service.Record | internal/admin/service.go:271-288 | recorded exactly when the row is on the trail; a failed row never turns the change into an error |
| Offboard.Offboard | internal/admin/offboard.go:47-174 | an error only when blocklist, users file and trail are unchanged; the exact new state otherwise; blocked in the answer exactly when a subject was named; recorded exactly when every row meant was written; with no failure the account ends disabled and the change recorded |
| Offboard.CompleteIffAllRows | internal/admin/offboard.go:103-117 | the rows listed number those meant exactly when none was lost |
| Offboard.RecordedIffNoRowIsLost | internal/admin/offboard.go:66-174 | changed exactly when blocklist or users file changed, and recorded exactly when the trail grew by every row meant (block, disable, summary) |
| Accounts.MappedGroups | internal/admin/accounts.go:134-150 | refused exactly when a group is unmapped; otherwise the same set, strictly sorted |
| Accounts.JoinedIsInjective | internal/admin/accounts.go:325-329 | comparing lists joined by NUL compares the lists, for names without NUL |
| Accounts.SameGroups | internal/admin/accounts.go:325-329 | nothing to change means the same groups, as often, whatever the stored order |
| Accounts.UnmanagedAreFrozen | internal/admin/accounts.go:107-132 | over any run of actions by actors other than root, an account with no group or an unmapped one is frozen from that moment on |
| Accounts.NoUnmappedGroupIsGained | internal/admin/accounts.go:134-150 | over any run, root's included, no account ever gains an unmapped group |
| Accounts.AddAccount | internal/admin/accounts.go:265-296 | a new name with mapped groups only, the exact new entry, the password handed over exactly when the account was created; exactly which requests succeed when nothing fails |
| Accounts.SetAccountGroups | internal/admin/accounts.go:312-338 | only in reach and to mapped groups; the exact new entry and row, or nothing |
| Accounts.SetAccountDisabled | internal/admin/accounts.go:340-364 | the flag alone, in reach alone; the row, or nothing changed |
| Accounts.ResetAccountPassword | internal/admin/accounts.go:367-395 | the hash alone, in reach alone; the password handed over exactly when it was stored |
| Accounts.DeleteAccount | internal/admin/offboard.go:14-34 | exactly that entry goes, in reach alone |
| AccountRuns.RunScript | internal/admin/accounts.go:198-242 | any script of these actions and offboards, with any port failing, keeps unmanaged accounts and gains no unmapped group |
| ReviewSet.Quarantine.ApproveReviewSet | internal/quarantine/quarantine.go:829-834 | the store port: one transaction on the set as it is by then, all of it approved if it still hashes to the manifest, none otherwise |
| ReviewSet.NothingWaitsAfter | internal/quarantine/quarantine.go:600-615 | after an approved set nothing of the backend waits for review |
| ReviewSet.ApprovalsAreExact | internal/quarantine/quarantine.go:600-615 | the approvals of the act are of exactly the entries that need review, each as approved at what it advertises, and no other entry is touched |
| ReviewSet.ApprovingNeverClears | internal/quarantine/quarantine.go:344-360 | approving alone makes a tool usable exactly when it is safe or was cleared at these very bytes |
| ReviewSet.ApproveToolSet | internal/admin/review_set.go:90-255 | all or none, and only when the set in the transaction hashes to the reviewed manifest; recorded and rows as reported; exactly when the act cannot fail; and, unless the hash collides on the two readings, an error only when nothing changed |
| ReviewSet.NoRowLostIffAllWrote | internal/admin/review_set.go:221-236 | rows listed and rows lost: their count tells whether any was lost |
| ReviewSet.RecordedIffNoRowIsLost | internal/admin/review_set.go:221-253 | recorded exactly when all n per-tool rows and the summary are on the trail |
| ReviewSet.WriteRows | internal/admin/review_set.go:219-236 | listed rows plus lost rows equal n, and the trail grew by exactly the listed ones |
| ReviewSet.OnlyKeptAreUsable | internal/admin/review_set.go:158-160 | of one set: the branch that calls an unusable approval a bug needs an empty fingerprint, which is never a kept definition; KeptCarriesOver and ApproveToolSet extend it from the set read to the set approved |
| Access.GrantsAreIsolated | internal/access/access.go:225-246 | for a validated role and an upstream without a separator, upstream.tool is allowed exactly when listed or when that very upstream's grant holds the tool or the wildcard |
| Access.SeparatorsBreakIsolation | internal/access/access.go:328-345 | finding, as an if-and-only-if for every validated role: no valid grant can name an upstream whose name holds a separator, and a tool of it is allowed exactly when listed or when there is a wildcard on the first segment of its name, whatever backend that is; registry.UpstreamServer.Validate refuses such a name (internal/registry/registry.go:217-235), so no registered upstream has one |
| Access.AWildcardReachesAnotherUpstream | cmd/mcp-gateway/serve.go:1282-1303 | such a role, validated: a wildcard on threatintel allows a tool of an upstream named threatintel.staging, which it does not grant and which no registry takes |
| Access.FirstSegmentIsTheOnlyCut | internal/access/access.go:336-345 | a key without a separator cuts a name only at its first segment |
| Access.GrantReachesIsExact | cmd/mcp-gateway/serve.go:1282-1329 | the finite probes decide an unbounded question: true exactly when the entry is the key or some non-empty tool of it is allowed, for a validated grant |
| Access.ValidateIds | internal/access/access.go:346-410 | no error exactly for a good id list |
| Access.ValidateGrants | internal/access/access.go:328-410 | no error exactly when every grant is good |
| Access.ValidateRole | internal/access/access.go:274-325 | no error exactly for a well-formed role |
| Access.UnregisteredGrants | cmd/mcp-gateway/serve.go:1265-1280 | role by role in the file's order, each grant that can address no registered upstream once, and nothing else |
| PolicyHeap.GroupsOnlyAdd | internal/access/access.go:513-532 | authorization depends on the set of groups alone and grows with it |
| PolicyHeap.NonReadIsNarrower | internal/access/access.go:594-620 | what AuthorizeNonRead accepts, Authorize accepts |
| PolicyHeap.ResolvedIsUnique | internal/access/access.go:513-532 | the resolved role list is determined by policy and groups, whatever the order maps are walked in |
| PolicyHeap.NewPolicy | internal/access/access.go:445-507 | refused exactly for ill-formed or repeated roles, bad groups, unknown roles; otherwise holds these roles and groups in objects of its own |
| PolicyHeap.RolesFor | internal/access/access.go:509-532 | sorted roles of the identity's groups, in objects the policy does not share |
| PolicyHeap.Authorize | internal/access/access.go:560-570 | accepts exactly what some role of the identity allows |
| PolicyHeap.AuthorizeNonRead | internal/access/access.go:594-620 | accepts exactly what a marked role of the identity names |
| PolicyHeap.AllowedTools | internal/access/access.go:622-648 | strictly sorted, exactly the advertised tools Authorize accepts |
| PolicyHeap.NoWriteReachesThePolicy | internal/access/access.go:453-462 | no sequence of writes to anything given to NewPolicy or returned by RolesFor changes the policy |
| PolicyHeap.AnswersDoNotChange | internal/access/access.go:453-648 | a policy is refused exactly for the reasons of NewPolicy; otherwise Authorize, AuthorizeNonRead and AllowedTools answer what the roles and groups as given say, before and after any such writes |
| Coverage.GrantReason | internal/admin/review.go:445-462 | the line shown decides, and one is found for every allowed name |
| Coverage.AllowedIffExplained | internal/admin/review.go:445-462 | a role allows a name if and only if some line of it can be shown as the reason |
| Coverage.OneExplanation | internal/admin/review.go:445-462 | of a validated role only one line explains, so the answer does not depend on map order |
| Coverage.CallableBy | internal/admin/review.go:382-399 | exactly the roles Allows accepts, in file order, each with a reason that decides |
| Coverage.ClearableBy | internal/admin/review.go:401-418 | exactly the marked roles that name the tool |
| Coverage.ReachableBy | internal/admin/review.go:420-435 | by class, and never a wildcard for a sensitive tool |
| Coverage.ClearableIsCallable | internal/admin/review.go:401-410 | clearable roles are always among callable roles |
| SignAll.StreamIsInjective | cmd/mcp-gateway/sign_all.go:143-175 | the hashed bytes determine the key and the whole ordered list of names, states and canonical bytes, for 64-bit lengths |
| SignAll.Manifest | cmd/mcp-gateway/sign_all.go:150-175 | the hash state fed field by field is fed exactly that stream |
| SignAll.BuildPlan | cmd/mcp-gateway/sign_all.go:210-238 | the plan: every entry not validly signed by this key, or nothing if a signature cannot be read |
| SignAll.RunSignAll | cmd/mcp-gateway/sign_all.go:177-315 | signatures stored and exit code, for every input and fault: only when the reviewed manifest matches and it is no dry run, up to the first fault |
| SignAll.TheFirstAreSigned | cmd/mcp-gateway/sign_all.go:252-285 | what was signed before a fault is exactly the first entries of the signable list, and the write that failed was the next one's |
| SignAll.OnlyTheReviewedPlanIsSigned | cmd/mcp-gateway/sign_all.go:177-184 | unless the hash collides, the plan signed is the plan reviewed: same key, entries, order, states, bytes |
| SignAll.WantsAgain | cmd/mcp-gateway/sign_all.go:215-228 | after a full run an entry is signable again exactly when it was and the key is not trusted |
| SignAll.RerunFindsNothing | cmd/mcp-gateway/sign_all.go:177-184 | a second run after a full one finds nothing if and only if the first found nothing or the key is trusted |
| Heartbeat.SuspensionsAreAnnounced | cmd/mcp-gateway/serve.go:961-968 | every unsuspended tick and the first tick of each suspension beat |
| Heartbeat.SuspensionsDoNotFlood | cmd/mcp-gateway/serve.go:223-232 | a suspension that lasts D emits at most 1 + D / refreshEvery beats |
| Heartbeat.SilenceIsShort | cmd/mcp-gateway/serve.go:938-968 | however long nothing beats, less than one cadence has passed since the last beat |
| Heartbeat.ConsecutiveBeatsAreClose | cmd/mcp-gateway/serve.go:958-968 | with ticks at most T apart, consecutive beats are less than refreshEvery + T apart |
| Heartbeat.Serve.Beat | cmd/mcp-gateway/serve.go:958-968 | one call, by its effect on lastBeat and beatSuspended |
| Heartbeat.Serve.BeatThrough | cmd/mcp-gateway/serve.go:938-968 | a run of calls sends exactly the beats those theorems count, so a suspension run through keeps the flood bound |
| Heartbeat.Serve.Round | cmd/mcp-gateway/serve.go:830-936 | a round beats unless the gateway closed, and rests short only for an unreadable registry |
| Reload.PolicyIsBuilt | cmd/mcp-gateway/serve_control.go:181-184 | the policy put in force holds exactly the roles and groups of the configuration |
| Reload.HeldIsTheLastApplied | cmd/mcp-gateway/serve_control.go:207-214 | over any run of reloads the keys that are not reloadable are boot's and the four reloadable ones, together, those of the last applied |
| Reload.Stack.ReloadConfig | cmd/mcp-gateway/serve_control.go:159-226 | all or nothing: refused leaves configuration, policy and gate as they were; applied keeps policy and gate those built from what is held |
| Reload.Stack.ReloadAll | cmd/mcp-gateway/serve_control.go:159-226 | the same over any sequence of applied and refused reloads |
| Control.CutAtARuneStart | cmd/mcp-gateway/serve_control.go:241-247 | cutting valid UTF-8 before a byte that starts a code point leaves valid UTF-8 |
| Control.CutsWell | cmd/mcp-gateway/serve_control.go:241-247 | a truncated reason is valid UTF-8 and at most three bytes short of the bound |
| Control.Truncate | cmd/mcp-gateway/serve_control.go:241-247 | the backwards scan finds that cut |
| Control.EachIsFinishedOnce | cmd/mcp-gateway/serve_control.go:87-119 | the two passes together finish every request exactly once |
| Control.AcceptedAreAnsweredAfter | cmd/mcp-gateway/serve_control.go:121-142 | an accepted redial is never answered before the round |
| Control.Serve.Finish | cmd/mcp-gateway/serve_control.go:228-281 | row first, then the answer: the row is written, and the answer stored, exactly when the last of at most four attempts met no fault; one stored answer at most, which says recorded and names the row exactly when this finish wrote it; an answer already there stands |
| Control.Serve.HandleControl | cmd/mcp-gateway/serve_control.go:68-144 | one signal over what is pending in the store: the exact order of finishes and of at most one round, the rest of the list left alone on a closed gateway, every request answered when nothing fails, no answer ever changed |
| Control.Serve.Announce | cmd/mcp-gateway/serve_control.go:44-61 | at start nothing without a control store; otherwise every pending request is finished once, in order, as superseded |
| Control.Serve.Abandon | internal/admin/control.go:94-98 | a requester that could not ring refuses its own request, unless it is answered already |
| Control.Serve.Submit | internal/control/sqlite/sqlite.go:108-131 | a request is filed, under a new id, exactly when it is one the store takes (a reload with no target or a redial with one, by a named actor) and the write does not fail |
| Answers.PendingAreUnanswered | cmd/mcp-gateway/serve_control.go:68-86 | what is pending is exactly what was filed and not answered, in the order of its ids |
| Answers.OnTrailExactlyWhen | cmd/mcp-gateway/serve_control.go:228-281 | finding, with its exact condition: a row of an answered request is on the trail if and only if the answer says recorded or a finish that gave no answer wrote one |
| Answers.RecordedExactlyWhenOnTrail | cmd/mcp-gateway/serve_control.go:228-281 | if every finish of a request is the one that answered it, its answer says recorded if and only if its row is on the trail |
| Answers.OnTrailUnlessLost | cmd/mcp-gateway/serve_control.go:228-281 | the condition on the failing branch: for an answer serve gave, a row of the request is on the trail if and only if the answer says recorded or a finish whose answer the store did not take wrote one |
| ControlRuns.RunAll | cmd/mcp-gateway/serve_control.go:44-281 | all of it over every run of filed and abandoned requests, signals and restarts with any port failing, in which no answer given is ever changed; and while no write to the control store fails, whatever happens to the rows, each answer serve gave says recorded if and only if a row of its request is on the trail |
| ControlRuns.ARowMayBeDenied | cmd/mcp-gateway/serve_control.go:274-279 | finding, as a run: a reload is filed and finished twice, the file not loading either time; the first finish writes the row and loses the answer, the second loses the row and stores recorded = false, and the row is on the trail |
| ShellQuote.QuoteRoundTrips | cmd/mcp-gateway/operator.go:104-113 | the shell reads a quoted string as exactly one word equal to it, if and only if it holds no NUL |
| ShellQuote.QuoteIsLiteral | cmd/mcp-gateway/operator.go:104-113 | whatever follows, a quoted string is read as that string into the current word |
| ShellQuote.CommandLineRoundTrips | cmd/mcp-gateway/operator.go:104-113 | a line of quoted arguments is read as those arguments |
| ShellQuote.CommandNamesTheFile | cmd/mcp-gateway/operator.go:94-102 | a hint pasted as shown is read as the program, the words of the subcommand, however many, and -config with the configuration file that was loaded |

## Left out

- Blocks.ValidateSubject: a subject is a sequence of code points, so byte strings that are not UTF-8 are outside the model.
- Blocks.ValidateBlock: the same, for subject and reason.
- Access.UnregisteredGrants: stated for validated roles, as the configuration loader hands them over.
- Access.GrantReachesIsExact: asks a validated grant, for the same reason.
- Control.Serve.HandleControl: what a request's row says in words (the change summary, the backend's cause) is a parameter; the live state read after the round is not modelled.
- Control.Serve.Submit: the time of a request, which the store asks for too, is not modelled.
- Control.Serve.Announce: recording the process id and start token is not modelled.
- Reload.Stack.ReloadConfig: the diff shown to the operator and the not-reloaded warning are not modelled; loading the file is an event with a configuration or none.
- Heartbeat.Serve.Round: credential drift, the backlog and the numbers a beat carries are not modelled; the expiry round is BlockActions.ExpireBlocks.
- BlockActions.PlaceBlock: the warning that a subject was never seen on the trail is not modelled.
- BlockActions.ExpireBlocks: takes the ended blocks in any order; KillSwitch reads them oldest end first, so BlockRuns speaks of ExpireOne and not of whole rounds.
- KillSwitch.RunKeeps: the second half of an offboard (disable and summary) is one step there; Offboard has it in full.
- ReviewSet.ApproveToolSet: the store lists entries in tool-name order, so the set is not sorted again; invalid statuses of a corrupt row are not modelled.
- Accounts.AddAccount: account validation is a parameter; one users file, replaced as a whole by each write, is a map.
- Service.Service.Retry: backoff times are not modelled; a deadline that passes while waiting is.
- SignAll.RunSignAll: loading the key and the registry is one input, present or absent; becoming the database's owner is not modelled. Names whose read, write or printing fails are given by functions of the name.
- SignAll.OnlyTheReviewedPlanIsSigned: assumes the hash does not collide on the two streams compared; SHA-256 is a parameter.
- Segments.SplitSegments: code points are numbers and text is bytes; what is hidden is a parameter.
- Definition.DefinitionLines: JSON indentation and the count inside JSON strings are parameters.
- Sorting: sort.Strings and slices.Sort are modelled by insertion, for what they return.
- Waiting for an answer (await in internal/admin/control.go) polls a row that Control and Answers already constrain; whether a request may be filed at all, and ringing the process, are not modelled.
- The quarantine's own transitions beyond approval, the quota counter, the audit trail's hash chain, the gateway's connections, SQLite adapters.
- Flag parsing, printing, JSON answers, messages, links, the web console, sockets, peer credentials, privilege drops, backups, TLS and OIDC.
- Actions whose backend was built without a store (the nil ports of internal/admin/service.go).
