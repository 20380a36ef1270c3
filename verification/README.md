# Masterchef: verified models of the configuration compiler and the control-plane stores

This project models the parts of Masterchef whose correctness is not evident from reading one function, and proves
properties of them for all inputs, all runs and all map iteration orders.

- **Configuration front end** (`ConfigModel`, `ConfigMerge`, `ConfigCompose`, `Sanitizing`, `MatrixWalk`,
  `MatrixExpand`, `ResourceExpand`, `Validate`, `ValidatePass`, `ConfigLoad`): recursive composition with cycle
  detection, override merging, matrix expansion by in-place backtracking, in-place validation, and the three
  together. The end result is `ConfigLoad.LoadedReloads`: a file that holds a loaded configuration can only load to
  that configuration.
- **Canonical JSON** (`JsonText`, `CanonicalJson`): the printer whose text is hashed, judged by an independent reader
  after sections 3 to 7 of RFC 8259: every printed text reads back as its document, so printing is injective.
- **Event log** (`EventLog`): a hash chain over a shifting window, tamper evidence, and exactly when verification
  holds.
- **Lifecycle state machines** (`BreakGlass`, `ExecutionLocks`, `AgentPki`, `DelegationTokens`): invariants over every
  run of the stores' operations.
- **Round trips** (`EncryptedVars`, `NodeInventory`): key rotation as a refinement of a store without a cipher, and
  inventory export and import.
- **Shared vocabulary** (`Wrappers`, `Text`, `Normalize`): optional values and results, trimming, lower-casing, ordering, sorting and the clean-up loops.

## How the model is built

Each store is a class with the fields of the original; each locked method is one atomic step, whose postcondition ties
the new state to a function of the old one. The properties are lemmas about those functions and about runs of them.
The clock is a parameter of every operation. Generated identifiers are the numbers in them, which
`Text.ItoaInjective` justifies. A loop over a map takes its keys in an arbitrary order; where the outcome depends on
the order, the specification is a relation (`Normalize.MapCleaned`, `MatrixExpand.Combinations`) or takes the order as
a parameter (`AgentPki.RenewRun`, with the visits the Go runtime may make while the loop inserts entries).

SHA-256 and AES-GCM are function parameters. `EventLog` assumes only hexadecimal digests (and, for the texts, that
times are written injectively) and concludes "or two of the texts hashed for these logs collide". `EncryptedVars`
assumes that opening undoes sealing up to JSON decoding (`Correct`) and, where it is stated, that no text sealed in the
run at hand opens under a different one of the passphrases tried in it (`Committing`).

## Where the code does less than one may expect

The model keeps the code as it is; the lemmas named give failing cases and the exact conditions.

- Renewal ends, and renews once, only for horizons below the 2160-hour certificate lifetime: `AgentPki.RenewExact`,
  `AgentPki.RenewUnbounded`.
- A log that has evicted an entry no longer verifies: `EventLog.VerifiesIffNothingEvicted`.
- Acquiring over an expired lock leaves its job in the index, so a release by that job can free another grant:
  `ExecutionLocks.StaleIndexFreesAnotherGrant`, `ExecutionLocks.IndexKeptIffSafe`.
- Matrix expansion depends on map order when two keys trim to the same name with different values:
  `MatrixExpand.OrderFreeIffAgreeing`. When they share several values every assignment is listed several times and ids
  repeat: `ResourceExpand.SharedNameRepeatsIds`, `ResourceExpand.AlnumIdsDistinctIff`. Dashes in values can make ids
  collide: `ResourceExpand.DashedValuesCanClash`, `ResourceExpand.IdsDistinctIff`.
- A matrix without keys, or with a key that has no value, has no assignment at all, not even the empty one:
  `MatrixExpand.CombinationsMeaning`. Expansion then falls back to a single instance.
- Rotation trims passphrases while reading and writing do not: `EncryptedVars.NewPassphraseReadsIffTrimmed`.
- A dry run miscounts on bad statuses and repeated new names, and a bootstrap item does not reset a node:
  `NodeInventory.DryRunPredictsIff`, `NodeInventory.ExportImport`.

## Model

| member | source | states |
|---|---|---|
| CanonicalJson.CanonicalJson | internal/control/canonicalization.go:71-138 | the recursive printer, collecting map keys in any order, returns the one canonical text of the tree, and that text reads back as the tree |
| CanonicalJson.ReadPrinted | internal/control/canonicalization.go:71-138 | an independent reader of JSON texts with ascending member names reads the printed text of every decoded document back as that document |
| CanonicalJson.PrintReads | internal/control/canonicalization.go:71-138 | the same for a value inside a larger text, and the reader stops exactly where the value ends |
| CanonicalJson.EscapeReads | internal/control/canonicalization.go:84-86 | every character reads back from its escape |
| CanonicalJson.EscapeIff | internal/control/canonicalization.go:84-86 | exactly quotation marks, backslashes, control characters and characters unsafe in HTML or JavaScript are escaped |
| CanonicalJson.PrintSafe | internal/control/canonicalization.go:71-138 | a printed text holds no control character and none unsafe in HTML or JavaScript |
| CanonicalJson.CanonicalArray | internal/control/canonicalization.go:87-101 | the array branch: element texts between brackets, separated by commas |
| CanonicalJson.CanonicalObject | internal/control/canonicalization.go:102-124 | the object branch: members by ascending key, whatever order the map yields its keys in |
| Normalize.SortKeys | internal/control/canonicalization.go:103-107 | the sorted key list depends on the set of keys only |
| CanonicalJson.PrintInjective | internal/control/canonicalization.go:71-138 | two decoded documents with equal text are equal: the text identifies the document |
| CanonicalJson.PrintCancel | internal/control/canonicalization.go:71-138 | a printed value followed by a delimiter can be cut off the front of a text in one way only |
| CanonicalJson.QuoteCancel | internal/control/canonicalization.go:84-86 | quoted strings are self-delimiting: the quoting is injective and ends where it says |
| CanonicalJson.EscapeCancel | internal/control/canonicalization.go:84-86 | the character escapes form a prefix code |
| CanonicalJson.NumberCancel | internal/control/canonicalization.go:80-81 | number literals followed by a delimiter are recognised unambiguously |
| ConfigMerge.MergeInto | internal/config/load.go:122-138 | the loop with its index map updates known keys in place and appends new ones (same code for hosts, resources and handlers) |
| ConfigMerge.MergeConfigInto | internal/config/load.go:109-177 | merging one document into another, field by field |
| ConfigMerge.MergeMeaning | internal/config/load.go:122-177 | a merged list keeps first-appearance order and last-written values, and its keys are unique |
| ConfigMerge.MergeAssociative | internal/config/load.go:122-177 | merging lists is associative, for all lists, with or without repeated keys |
| ConfigMerge.MergeConfigAssociative | internal/config/load.go:109-177 | merging documents is associative, for all documents, raw ones with repeated names included |
| ConfigMerge.MergeAllMeaning | internal/config/load.go:109-177 | a merge of any number of documents: hosts, resources and handlers in first-appearance order with last-written values |
| ConfigMerge.MergeAllScalars | internal/config/load.go:109-159 | version and execution settings are the last non-blank or non-zero ones; any fatal flag stays |
| ConfigMerge.MergeAllAppend | internal/config/load.go:109-177 | merging a concatenation is merging the two merges |
| ConfigCompose.Loader.LoadComposed | internal/config/load.go:29-76 | composed loading with a shared stack: terminates, restores the stack on every way out, returns the composition |
| ConfigCompose.Loader.LoadRefs | internal/config/load.go:44-75 | one loop over references: each child is composed and merged in turn, the first failure ends it |
| ConfigCompose.ComposeSucceedsIff | internal/config/load.go:29-76 | loading succeeds exactly when every reachable file exists and no reachable file lies on a cycle (shared files are fine) |
| ConfigCompose.ErrorNamesTheCulprit | internal/config/load.go:29-76 | a failed load names a reachable file that lies on a cycle, or a reachable file that is missing |
| ConfigCompose.ComposeIsMerge | internal/config/load.go:44-75 | a successful load equals one left-to-right merge over the flattened list of files |
| ConfigCompose.ComposedDocument | internal/config/load.go:44-75 | the result has unique names and ids, first-appearance order and last-written values over all files read |
| ConfigLoad.Load | internal/config/load.go:13-27 | compose, expand, validate: a result is one the three passes can deliver and is normal; a failure means one of them can refuse |
| ConfigLoad.LoadedIsNormal | internal/config/load.go:13-27 | whatever loads is normal and has nothing left to expand |
| ConfigLoad.LoadedReloads | internal/config/load.go:13-27 | a single file holding a loaded configuration loads, and can only load, to that same configuration |
| Sanitizing.SanitizeToken | internal/config/expand.go:256-279 | the character loop computes the sanitised token |
| Sanitizing.SanitizeGivesToken | internal/config/expand.go:256-279 | the output is never empty: alphanumeric runs joined by single dashes |
| Sanitizing.SanitizeFixes | internal/config/expand.go:256-279 | tokens are exactly the fixed points, so sanitising is idempotent |
| Sanitizing.SanitizeJoinsWords | internal/config/expand.go:256-279 | the output is the lower-cased words of the input joined by dashes, or "item" when there is none |
| MatrixWalk.Walker.Walk | internal/config/expand.go:111-131 | the backtracking walk appends every completion of the shared assignment and puts the assignment back |
| MatrixWalk.Walker.WalkValue | internal/config/expand.go:123-127 | one turn of the loop over values: set the key, walk on |
| MatrixWalk.ProductMembers | internal/config/expand.go:111-131 | the walk lists exactly the total assignments |
| MatrixWalk.ProductAscending | internal/config/expand.go:111-131 | in lexicographic order of keys and values, hence each once |
| MatrixWalk.ProductCount | internal/config/expand.go:111-131 | as many as the product of the value counts |
| MatrixWalk.ProductNoDupIff | internal/config/expand.go:111-131 | the walk lists no assignment twice exactly when every key that comes more than once has one value |
| MatrixExpand.MatrixCombinations | internal/config/expand.go:75-131 | cleaning keys and values in any map order, then walking |
| MatrixExpand.CombinationsMeaning | internal/config/expand.go:75-131 | with distinct trimmed keys: no assignment at all when there is no key or some key has no value, else every total assignment exactly once, in order, numbering the product of the cleaned counts |
| MatrixExpand.OrderFreeIffAgreeing | internal/config/expand.go:75-131 | the list is independent of map order exactly when some key has no value or keys with the same trimmed name agree |
| MatrixExpand.NoRepetitionIff | internal/config/expand.go:75-131 | no assignment is listed twice exactly when some key has no value or every name that several keys share ends up with one value |
| MatrixExpand.SharedSingleInEveryOrder | internal/config/expand.go:75-131 | that holds in every map order exactly when each key that shares its name lists one value |
| ResourceExpand.ExpansionMatrix | internal/config/expand.go:50-73 | the matrix with the loop folded in under its variable, and whether there is anything to expand; what that means for the instances is stated by LoopIsARow and IdleLoop |
| ResourceExpand.LoopIsARow | internal/config/expand.go:50-73 | a loop expands exactly as a matrix row under its variable, "item" by default, would |
| ResourceExpand.IdleLoop | internal/config/expand.go:50-73 | an empty loop, or one whose variable the matrix has, changes nothing |
| ResourceExpand.InstanceCount | internal/config/expand.go:20-73 | without a condition and with distinct names: one instance, or the product of the cleaned value counts with the loop as one factor |
| ResourceExpand.AppendMatrixSuffix | internal/config/expand.go:241-254 | the id followed by the sanitised keys and values in key order, joined by dashes |
| ResourceExpand.InstanceIdExact | internal/config/expand.go:33-45 | the id of an instance: tokens replaced, and the suffix appended exactly when something was expanded and the template left the id alone |
| ResourceExpand.ExpandResource | internal/config/expand.go:24-46 | one resource: an instance for each assignment that its condition lets through |
| ResourceExpand.ExpandCollection | internal/config/expand.go:20-48 | all resources in turn, each for the order its matrix was visited in |
| ResourceExpand.ReplaceTokenFree | internal/config/expand.go:178-239 | a text without a template token is left as it is |
| ResourceExpand.TokenReplaced | internal/config/expand.go:178-193 | a token becomes its variable's value, or nothing, and the text around it stays |
| ResourceExpand.VarsReachEveryText | internal/config/expand.go:178-239 | every templated text and list entry is replaced in its own place, and nothing else changes |
| ResourceExpand.ComparisonHolds | internal/config/expand.go:133-160 | a condition with == holds exactly when its operands are equal, one with != when they differ |
| ResourceExpand.OperandMeaning | internal/config/expand.go:162-176 | quoted operands are literal, variables stand for their values, anything else for itself |
| ResourceExpand.IdsDistinctIff | internal/config/expand.go:241-279 | with no dash in the value tokens of any key but the last, generated ids are pairwise distinct exactly when no key has two values with the same token |
| ResourceExpand.SharedTokensCollide | internal/config/expand.go:241-279 | dashes or not, a key with two values of the same token makes ids collide |
| ResourceExpand.AlnumValuesGiveDistinctIds | internal/config/expand.go:241-279 | values of lower-case letters and digits always give distinct ids |
| ResourceExpand.DashedValuesCanClash | internal/config/expand.go:241-254 | a concrete matrix with dashes in its values whose tokens differ but whose ids collide |
| ResourceExpand.ExpandedIdsDistinct | internal/config/expand.go:20-48 | under the condition of ExpandedIdsDistinctIff all ids from expanding the resource are pairwise distinct, whatever its condition filters out |
| ResourceExpand.ExpandedIdsDistinctIff | internal/config/expand.go:20-48 | without a condition on the resource, and with dashes in the values of the last name at most, its ids are pairwise distinct exactly when some key has no value, or shared names have one value and no name has two values with the same token |
| ResourceExpand.DistinctIdsAreTellable | internal/config/expand.go:20-48 | dashes or not, ids are distinct only if some key has no value, or shared names have one value and no name has two values with the same token |
| ResourceExpand.AlnumIdsDistinctIff | internal/config/expand.go:20-48 | for values of lower-case letters and digits: distinct exactly when some key has no value or shared names have one value |
| ResourceExpand.SharedNameRepeatsIds | internal/config/expand.go:75-131 | the keys "a" and " a", both with the values x and y, give repeated ids in every map order |
| ResourceExpand.ExpansionIdempotent | internal/config/expand.go:20-48 | expanding an expanded collection changes nothing, whatever the map orders |
| ValidatePass.ConfigDocument.Validate | internal/config/validate.go:10-461 | the in-place pass succeeds exactly on acceptable configurations and leaves them normal |
| ValidatePass.ValidateHosts | internal/config/validate.go:36-130 | the host loop with its seen-set: accepts exactly unique, well-formed hosts and normalises each |
| ValidatePass.ValidateHost | internal/config/validate.go:38-129 | one host: transport, ports, capabilities, roles, labels, topology |
| ValidatePass.CleanCapabilities | internal/config/validate.go:69-90 | capabilities are refused unless known, and come out sorted without repetition |
| ValidatePass.ValidateItems | internal/config/validate.go:134-412 | the loops over resources and over handlers with their seen-sets |
| ValidatePass.ValidateItem | internal/config/validate.go:135-279 | one resource or handler, accepted exactly when well formed and placed on known hosts |
| ValidatePass.ValidateFile | internal/config/validate.go:164-193 | file resources: which fields are refused, checksum format, signature and key together |
| ValidatePass.ValidateCommand | internal/config/validate.go:194-220 | command resources: required command, non-negative retries, known back-off |
| ValidatePass.ValidateRegistry | internal/config/validate.go:221-240 | registry resources: required key, known value type with its default |
| ValidatePass.ValidateTask | internal/config/validate.go:241-259 | scheduled tasks: required name and command, default schedule |
| ValidatePass.CleanMatrix | internal/config/validate.go:463-494 | refuses exactly matrices with a blank key or a key without values, else trims, sorts and removes repetitions |
| ValidatePass.NormalizeLoop | internal/config/validate.go:496-529 | cleans the loop, defaults its variable, and refuses exactly non-simple or clashing variables |
| ValidatePass.CheckLinks | internal/config/validate.go:414-447 | every relationship resolves; collects the notified resources |
| ValidatePass.CheckRefreshOnly | internal/config/validate.go:448-459 | every refresh-only resource has a subscription or a notifier |
| Validate.AcceptedComesOutNormal | internal/config/validate.go:10-461 | success implies unique host, resource and handler ids, resolving references, triggered refresh-only resources and normal fields |
| Validate.AcceptedIff | internal/config/validate.go:10-461 | a configuration is accepted exactly when no matrix key is without values and what comes out is normal |
| Validate.ClosedMeans | internal/config/validate.go:132-459 | which names must be unique and what every host, relationship, handler and refresh-only reference must resolve to |
| Validate.KindOkMeans | internal/config/validate.go:163-262 | the rules for the four kinds, rule by rule |
| Validate.DigestMeans | internal/config/validate.go:531-542 | a checksum is sha256: and 64 hexadecimal digits, case and surrounding white space aside |
| Validate.HostOkMeans | internal/config/validate.go:38-90 | which hosts are well formed |
| Validate.ExecutionOkMeans | internal/config/validate.go:17-34 | which execution settings are accepted |
| Validate.LoopOkMeans | internal/config/validate.go:496-529 | a loop is accepted exactly when it is blank or runs under a simple name that no matrix key has |
| Validate.HostDefaults | internal/config/validate.go:46-49 | a host without a transport is local |
| Validate.ItemDefaults | internal/config/validate.go:156-259 | the defaults "item", "string" and "@daily", and that naming a user means becoming |
| Validate.NormalUnchanged | internal/config/validate.go:10-461 | a normal configuration is accepted and left exactly as it is |
| Validate.NormalIffFixed | internal/config/validate.go:10-461 | the configurations accepted unchanged are exactly the normal ones |
| Validate.ValidateIdempotent | internal/config/validate.go:10-461 | after success a second run succeeds and changes nothing |
| Validate.ItemComesOutNormal | internal/config/validate.go:135-279 | an accepted resource or handler comes out normal |
| Validate.HostComesOutNormal | internal/config/validate.go:38-129 | an accepted host comes out normal |
| EventLog.EventStore.constructor | internal/control/events.go:55-64 | an empty log, with the default limit when none is given |
| EventLog.EventStore.SealEvent | internal/control/events.go:236-247 | the next index, the previous hash, the hash over the content |
| EventLog.EventStore.Append | internal/control/events.go:66-86 | seals and appends, shifting the oldest entry out of a full log |
| EventLog.EventStore.Replace | internal/control/events.go:96-114 | starts a new chain over the latest entries given |
| EventLog.EventStore.VerifyIntegrity | internal/control/events.go:163-202 | reports on the stored entries |
| EventLog.Verify | internal/control/events.go:163-202 | valid exactly when every index, link and hash is right; the violations listed are exactly the faults |
| EventLog.HeadHashCommits | internal/control/events.go:163-202 | equal recomputed head hashes mean the same number of entries with the same content, unless two payloads digested for these two logs collide |
| EventLog.TamperEvident | internal/control/events.go:163-202 | two accepted logs with the same last hash agree at every position on content, hash and link, unless two payloads digested for them collide |
| EventLog.PayloadTextInjective | internal/control/events.go:249-261 | the JSON text that is hashed determines index, time, type, message, fields and previous hash |
| EventLog.HashedText | internal/control/events.go:249-261 | the hashed text reads as the object with the entry's index, time, trimmed type and message, fields and trimmed previous hash |
| EventLog.TextTamperEvident | internal/control/events.go:163-261 | down to the hashed texts: the same content at every position, or two different texts hashed for these logs have the same hash |
| EventLog.RunIsWindow | internal/control/events.go:66-114 | in every run the log is the latest window of the unbounded chain over what was handed in since the last replacement |
| EventLog.RetainedEntries | internal/control/events.go:66-114 | retained entries hold the latest inputs in order, with consecutive indices, adjacent links and the head hash |
| EventLog.VerifiesIffNothingEvicted | internal/control/events.go:163-202 | a reachable log verifies exactly when nothing was evicted since the last replacement or creation |
| BreakGlass.AccessApprovalStore.CreatePolicy | internal/control/access_approvals.go:92-114 | error cases and the new policy with its stages and times |
| BreakGlass.PolicyOutcome | internal/control/access_approvals.go:92-114 | a policy is stored exactly when it has a name and a stage, with the quorums and names handed in and their defaults |
| BreakGlass.AccessApprovalStore.CreateRequest | internal/control/access_approvals.go:137-180 | error cases and the new pending request |
| BreakGlass.CreateOutcome | internal/control/access_approvals.go:137-180 | exactly when a request is created, and that it waits at the first of exactly its policy's stages with each text in its own field |
| BreakGlass.AccessApprovalStore.ApproveRequest | internal/control/access_approvals.go:207-253 | error cases and the new state after expiry and approval |
| BreakGlass.AccessApprovalStore.RejectRequest | internal/control/access_approvals.go:255-290 | error cases and the new state after rejection |
| BreakGlass.AccessApprovalStore.RevokeRequest | internal/control/access_approvals.go:292-326 | error cases and the new state after revocation |
| BreakGlass.AccessApprovalStore.ExpireRequests | internal/control/access_approvals.go:338-348 | every active request at or past its expiry expires |
| BreakGlass.AccessApprovalStore.CountApprovals | internal/control/access_approvals.go:328-336 | the number of approvals recorded for a stage |
| BreakGlass.RunOk | internal/control/access_approvals.go:207-348 | in every reachable state: passed stages have exactly their quorum from different people, the current one fewer, later ones none |
| BreakGlass.PoliciesStand | internal/control/access_approvals.go:92-180 | in every run policies never change and every request has exactly the stages of its policy |
| BreakGlass.AccessMetEveryQuorum | internal/control/access_approvals.go:92-253 | active or expired access met, at every stage, exactly the quorum handed in with its policy, from different people |
| BreakGlass.TerminalForever | internal/control/access_approvals.go:255-348 | rejected, revoked and expired requests never change again, and no history is lost |
| BreakGlass.ApproveOutcome | internal/control/access_approvals.go:207-253 | an approval adds one record, moves on exactly when one was missing, and activates exactly at the last stage |
| BreakGlass.ApproveRefusedIff | internal/control/access_approvals.go:223-227 | a pending request accepts exactly those who have not approved its stage, case aside |
| BreakGlass.WithdrawOutcome | internal/control/access_approvals.go:255-326 | exactly when a request can be rejected or revoked, and what is put on record |
| BreakGlass.LookOutcome | internal/control/access_approvals.go:338-348 | time ends exactly the active requests whose time to live has passed, and touches nothing else |
| BreakGlass.StageNeverOutOfRange | internal/control/access_approvals.go:219-221 | the stage range error is unreachable |
| BreakGlass.NothingOverstays | internal/control/access_approvals.go:338-348 | after any look or decision no request is active past its expiry |
| BreakGlass.NormalStages | internal/control/access_approvals.go:350-370 | every stage asks for at least one approval |
| ExecutionLocks.ExecutionLockStore.AcquireLock | internal/control/execution_locks.go:49-88 | error cases and the new state |
| ExecutionLocks.ExecutionLockStore.Bind | internal/control/execution_locks.go:90-112 | error cases, the expiry side effect and the new index |
| ExecutionLocks.ExecutionLockStore.ReleaseLock | internal/control/execution_locks.go:114-141 | the released lock and the new state |
| ExecutionLocks.ExecutionLockStore.CleanupExpired | internal/control/execution_locks.go:143-166 | removes every overdue lock while ranging over the table, in any order, and reports them by ascending key |
| ExecutionLocks.HeldIffLive | internal/control/execution_locks.go:67-76 | a key is held exactly when some grant on record for it is live |
| ExecutionLocks.AcquireOutcome | internal/control/execution_locks.go:49-88 | granted exactly when no grant for the key is live; live from now for its time to live; other keys untouched |
| ExecutionLocks.ReleaseByKey | internal/control/execution_locks.go:114-141 | a release that names a key frees that key exactly when the table has it, whatever the job: the grant ends now, goes to the history, and the key can be acquired at once |
| ExecutionLocks.ReleaseByJob | internal/control/execution_locks.go:114-141 | a release that names only a job frees the key indexed under it exactly when index and table have it |
| ExecutionLocks.BindOutcome | internal/control/execution_locks.go:90-112 | binding succeeds exactly while a grant is live, and changes only its job and the index |
| ExecutionLocks.CleanupOutcome | internal/control/execution_locks.go:143-166 | clean-up takes exactly the overdue grants out of the table and puts them on record, in any order |
| ExecutionLocks.GrantsNeverOverlap | internal/control/execution_locks.go:49-166 | in every run with a nondecreasing clock, grants for one key are never live together |
| ExecutionLocks.NothingLost | internal/control/execution_locks.go:49-166 | every lock ever issued stays on record, and the history holds no active lock |
| ExecutionLocks.IndexKeptIffSafe | internal/control/execution_locks.go:67-166 | from an exact job index, a step keeps it exact exactly under a condition visible before the step |
| ExecutionLocks.ReleaseByJobFreesItsOwn | internal/control/execution_locks.go:114-141 | with an exact index, releasing by job frees the lock bound to that job or nothing |
| ExecutionLocks.DisciplinedRunsKeepIndex | internal/control/execution_locks.go:67-166 | one bind per grant and per job, and a clean-up at the clock value of each acquire and before it, keep the index exact in every run |
| ExecutionLocks.StaleIndexFreesAnotherGrant | internal/control/execution_locks.go:67-76 | without the clean-up, releasing by an old job frees another grant |
| AgentPki.AgentPkiStore.SetPolicy | internal/control/agent_pki.go:83-98 | the policy with its attributes cleaned and its update time |
| AgentPki.AgentPkiStore.SubmitCsr | internal/control/agent_pki.go:100-135 | the new request and, when the policy approves, the certificate |
| AgentPki.AgentPkiStore.DecideCsr | internal/control/agent_pki.go:158-186 | error cases and the decided request |
| AgentPki.AgentPkiStore.RevokeCertificate | internal/control/agent_pki.go:199-216 | marks the certificate revoked once |
| AgentPki.AgentPkiStore.RotateAgentCertificate | internal/control/agent_pki.go:218-242 | retires a latest active certificate, found in any map order, and issues its successor |
| AgentPki.AgentPkiStore.RenewExpiring | internal/control/agent_pki.go:270-296 | the loop over the map it inserts into, for any legal sequence of visits; it reports exactly the new certificates in order, which below 2160 hours are active and the successors of the ones due |
| AgentPki.AgentPkiStore.IssueCertificate | internal/control/agent_pki.go:298-311 | the next number, active, valid for 90 days |
| AgentPki.AgentPkiStore.MatchesPolicy | internal/control/agent_pki.go:313-320 | every required attribute is present with its value |
| AgentPki.RunsKeep | internal/control/agent_pki.go:100-311 | in every run rotation links lead to later certificates of the same agent and never change; issued requests name distinct certificates of their own agent |
| AgentPki.Tip | internal/control/agent_pki.go:218-296 | following rotation links from any certificate ends at an unrotated one of the same agent |
| AgentPki.CertificatesAccountedFor | internal/control/agent_pki.go:100-311 | in every run no certificate has two origins, and certificates number exactly the granted requests, the set successors and the rotations of nothing |
| AgentPki.SubmitOutcome | internal/control/agent_pki.go:100-135 | a certificate for 90 days is issued on submission exactly when the policy approves by itself and every required attribute matches |
| AgentPki.DecideOutcome | internal/control/agent_pki.go:158-186 | exactly when a decision is taken; approval issues one certificate to the requesting agent, rejection notes the reason |
| AgentPki.RevocationIsFinal | internal/control/agent_pki.go:199-216 | a revoked certificate stays revoked, as of its first revocation, in the rest of every run |
| AgentPki.RotateOutcome | internal/control/agent_pki.go:218-242 | rotation replaces the latest active certificate by exactly one new one |
| AgentPki.RenewExact | internal/control/agent_pki.go:270-311 | below 2160 hours: each qualifying certificate is renewed exactly once, active counts stay, none expiring is left, in every map order |
| AgentPki.RenewReportsSuccessors | internal/control/agent_pki.go:270-296 | below 2160 hours the numbers added are exactly the successors of the due certificates, all active |
| AgentPki.RenewBounded | internal/control/agent_pki.go:270-296 | below 2160 hours the loop ends, with at most two visits per certificate |
| AgentPki.RenewUnbounded | internal/control/agent_pki.go:270-296 | at 2160 hours or more the runtime may make it run for any number of visits |
| DelegationTokens.DelegationTokenStore.IssueToken | internal/control/delegation_tokens.go:76-133 | error cases and the new delegation |
| DelegationTokens.DelegationTokenStore.RevokeToken | internal/control/delegation_tokens.go:160-176 | revokes once |
| DelegationTokens.DelegationTokenStore.ValidateAt | internal/control/delegation_tokens.go:182-214 | the verdict and the counted use |
| DelegationTokens.DelegationTokenStore.SweepExpired | internal/control/delegation_tokens.go:216-226 | every delegation past its expiry is revoked as of its expiry |
| DelegationTokens.UsesAreCounted | internal/control/delegation_tokens.go:76-226 | in every run the allowed validations of a delegation number exactly its use count, within its maximum |
| DelegationTokens.UsesOfToken | internal/control/delegation_tokens.go:76-226 | with distinct token hashes these are exactly the allowed uses of its token |
| DelegationTokens.NeverAllowedAgain | internal/control/delegation_tokens.go:135-226 | once revoked, or once a validate, list or get call saw its expiry, never allowed again, even at earlier times |
| DelegationTokens.RevokedForever | internal/control/delegation_tokens.go:160-226 | a revoked delegation never changes again |
| DelegationTokens.AllowedMeans | internal/control/delegation_tokens.go:182-214 | what an allowed validation establishes; the separate expiry test never fires |
| DelegationTokens.IssuedTokenWorks | internal/control/delegation_tokens.go:76-133 | a fresh token is allowed exactly before its expiry and for granted scopes |
| DelegationTokens.IssueOutcome | internal/control/delegation_tokens.go:76-133 | exactly when a delegation is issued, and each of its fields |
| DelegationTokens.RevokeOutcome | internal/control/delegation_tokens.go:160-176 | revoking marks one delegation as of its first revocation and touches nothing else |
| DelegationTokens.VerdictMeans | internal/control/delegation_tokens.go:182-226 | exactly when each verdict is given, in terms of the store before the call, and what the call leaves behind |
| DelegationTokens.ScopesAreLowered | internal/control/delegation_tokens.go:76-133 | granted scopes are lower-case and trimmed |
| EncryptedVars.EncryptedVariableStore.UpsertData | internal/control/encrypted_vars.go:66-99 | error cases and the new file at the current version |
| EncryptedVars.EncryptedVariableStore.GetData | internal/control/encrypted_vars.go:101-120 | error cases and the data read |
| EncryptedVars.EncryptedVariableStore.DeleteFile | internal/control/encrypted_vars.go:122-133 | removes the file, reports whether there was one |
| EncryptedVars.EncryptedVariableStore.ExportFiles | internal/control/encrypted_vars.go:157-166 | all files by ascending name |
| EncryptedVars.EncryptedVariableStore.UpsertEncryptedFile | internal/control/encrypted_vars.go:168-215 | error cases, defaults and the raised current version |
| EncryptedVars.EncryptedVariableStore.RotateKey | internal/control/encrypted_vars.go:226-268 | builds the new files aside and installs them only when every old one opened |
| EncryptedVars.RotateSucceedsIff | internal/control/encrypted_vars.go:226-268 | after any run, rotation succeeds exactly when both passphrases are given and every value was last written or rotated under the old one; then every value reads under the new one, otherwise nothing changes |
| EncryptedVars.RotateKeepsValues | internal/control/encrypted_vars.go:236-258 | rotation keeps names and values and puts every file at the new current version |
| EncryptedVars.UpsertOutcome | internal/control/encrypted_vars.go:66-99 | a file is written exactly when name and passphrase are given, at the current version, leaving others alone |
| EncryptedVars.ImportOutcome | internal/control/encrypted_vars.go:168-215 | an encrypted file is taken over exactly when it has a name and base64 texts; how versions and times default |
| EncryptedVars.NewPassphraseReadsIffTrimmed | internal/control/encrypted_vars.go:226-232 | after rotation the passphrase as given reads a file exactly when it has no surrounding white space |
| EncryptedVars.PaddedPassphraseBlocksRotation | internal/control/encrypted_vars.go:226-245 | a value written under a padded passphrase reads back but can not be rotated with it |
| EncryptedVars.RunsKeep | internal/control/encrypted_vars.go:66-268 | in every run each version lies between 1 and the current one, and files are filed under normalised names |
| EncryptedVars.ReadsAreFaithful | internal/control/encrypted_vars.go:66-268 | over any run the store reads exactly like a store of plain values guarded by the passphrase last written or rotated to, if no text sealed in the run opens under another passphrase tried |
| EncryptedVars.ExportImportRoundTrip | internal/control/encrypted_vars.go:157-215 | exporting and importing into an empty store rebuilds every file |
| NodeInventory.Settle | internal/control/node_lifecycle.go:60-100 | what normalising the settings of a node can give |
| NodeInventory.SettledIsSettled | internal/control/node_lifecycle.go:184-224 | normalised settings are exactly those that normalising leaves alone |
| NodeInventory.CloneNode | internal/control/node_lifecycle.go:175-182 | handing out a stored node changes nothing |
| NodeInventory.NodeLifecycleStore.EnrollNode | internal/control/node_lifecycle.go:60-101 | enrols or updates; the status of a known node stays |
| NodeInventory.NodeLifecycleStore.SetNodeStatus | internal/control/node_lifecycle.go:129-156 | error cases, the new status and its history entry |
| NodeInventory.NodeLifecycleStore.HeartbeatNode | internal/control/node_lifecycle.go:158-173 | notes the time on a known node |
| NodeInventory.EnrollOutcome | internal/control/node_lifecycle.go:60-101 | what each field of an enrolled node is; a known node keeps status and history |
| NodeInventory.SetStatusOutcome | internal/control/node_lifecycle.go:129-156 | exactly when a status is set, and the change on record |
| NodeInventory.ExportContents | internal/control/inventory_variable_portability.go:54-97 | an export lists by ascending name exactly the nodes with the status asked for, with history exactly when asked |
| NodeInventory.NodeLifecycleStore.ExportInventory | internal/control/inventory_variable_portability.go:54-97 | the selected nodes by ascending name, or a refused filter |
| NodeInventory.NodeLifecycleStore.ImportSection | internal/control/inventory_variable_portability.go:144-222 | the import loop: verdicts, counts and the new store; a dry run leaves the store alone |
| NodeInventory.RunsKeep | internal/control/node_lifecycle.go:60-173 | in every run nodes stay normalised and a status is the last entry of its history |
| NodeInventory.ExportImport | internal/control/inventory_variable_portability.go:54-222 | importing an export into any store restores all settings, and the status exactly unless a bootstrap item meets a node in another status |
| NodeInventory.ExportImportRoundTrip | internal/control/inventory_variable_portability.go:54-222 | exporting all nodes and importing into an empty store rebuilds every node, all as new |
| NodeInventory.DryRunPredictsIff | internal/control/inventory_variable_portability.go:144-222 | a dry run predicts verdicts and counts exactly when no named item has a bad status and no new name repeats |
| Text.TrimSpaceCuts | internal/control/node_lifecycle.go:190-194 | trimming removes white space at both ends and nothing else |
| Text.ItoaInjective | internal/control/queue.go:656-668 | generated identifiers never collide |

## Left out

- File, HTTP and process I/O, YAML and JSON decoding, persistence of encrypted variables. Files are a finite map from
  resolved path to parsed content; how a reference resolves to a path is a parameter.
- Failures of encryption, of persisting and of random number generation.
- Concurrency inside methods: event subscribers and the sends outside the lock, and reads between two locked sections.
- Machine integers and duration overflow: numbers are unbounded. Lower-casing and case folding cover ASCII letters.
- Error texts. Stores report which error, validation and loading only that there is one; a configuration that fails
  validation is left in an unspecified partly normalised state.
- CanonicalJson.CanonicalJson: leaves out the float64 branch and the fall-back that marshals and decodes again; it covers
  decoded documents, whose numbers are literals. Invalid UTF-8 in strings is not part of this model.
- Queries, listings and their sort orders, other than the exports; subscriptions; the expiry report.
- Import and export of roles and environments, the dry run for encrypted files, and associations.
- Identifier parsing: a blank identifier counts as one that is not found.
- One time value stands for the several clock readings a single import, issue or rotation may make. Renewal has its own
  reading per certificate.
- Planner, executor, scheduler, queue, simulations, catalogs and plain list/get stores, which would add easy members.
- ResourceExpand.IdsDistinctIff: with dashes in the values of a key before the last, distinct tokens are necessary
  (`ResourceExpand.DistinctIdsAreTellable`) but not sufficient (`ResourceExpand.DashedValuesCanClash`); no exact condition is
  given for that case, nor in `ResourceExpand.ExpandedIdsDistinctIff`, which carries the same condition on dashes.
- NodeInventory.Settle: labels or topology keys that clean to the same key may keep either value, as in the original.
- ConfigLoad.Load: expansion and validation may depend on map order, so a failure says only that one order fails.
