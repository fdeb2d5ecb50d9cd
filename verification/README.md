# Verified models of the grid API's protocols

This project models the protocols of the grid API in which several steps, several requests or
several programs have to agree, and proves what they keep. `dafny verify dfyconfig.toml` checks
everything. Each module is one component:

* **AliasForest, Identities, Exchange, IdentityRuns, SubjectNames**: accounts, their logins and merges. The
  database is a value, its transactions are functions on it, and the sign-in handlers are methods whose
  contracts hold for every schedule of what other requests do at each await between two accesses to the
  database. SubjectNames follows the two names of an app subject over the runs of all of them.
* **InFlight, ChatHandler, Streaming, ToolCalls**: a text request from its slot and credit hold to the
  last chunk. InFlight is a machine whose steps are single Redis commands and service calls of any
  number of requests; ChatHandler runs the handler's and the generator's code against it.
* **JsonWalk**: the bounded walk over raw request bodies.
* **Archive, Bundle, Packaging**: packing, verifying and extracting a codec bundle. JSON and SHA-256 are
  parameters; where a result needs an injective digest it says so.
* **HordeCache**: the two-level cache, as a class over stores with expiry and as timed runs of many nodes.
* **ModelIndex**: the case-insensitive model index and its refresh. Lower-casing is a parameter.
* **ShadowRun**: the operator commands that prepare, start and finish a shadow run, each with a read
  that may be outdated by the time of its transaction.
* **CohortAlerts**: the edge-triggered alert loop.
* **PriceWindows**: the reviewed reward windows and the lookup for a payout period.
* **SiweText**: the sign-in message of ERC-4361 and the two patterns that read its nonce.

## What differs from the code's own words

The model follows the code. These results contradict a comment, a name or an expectation:

* An alias chain is read at most eight times, so the eighth onward merge leaves the tokens of the first
  account unresolvable (`IdentityRuns.OnwardLookup`).
* `exchange_wallet_identity` does not look at a conflict reported while attaching the wallet; the token is
  then for an account that does not have it (`Exchange.WalletRace`, exactly when in `Exchange.ExchangeProved`).
* `_resolve_service_app_identity` can return with the stable and the legacy name at different owners when
  somebody gives the stable name to another account between its lookups and its attach, and
  `exchange_service_identity` makes a second account when somebody makes the legacy name between its lookups and
  its creation (exactly when in `Exchange.ResolveServiceApp` and `Exchange.ExchangeService`). The sign-in of a
  bridge's user, which still makes legacy names, is such a request: `Exchange.NamesApart` runs it with two
  exchanges. Without it the names stay together over every run, since every handler gives out a stable name only
  when it has read that the legacy one is nobody's or of the same family (`SubjectNames`). A later exchange that
  finds both names merges their accounts.
* Resolving a subject a second time can fail: the first time may have merged away an account whose legacy name
  was already seven alias rows away (`IdentityRuns.ResolvedOnce`, exactly when in `Exchange.ResolveTwice`).
* An attach whose account was merged away after the lookup puts the login on a retired account, for good
  (`Exchange.StaleLink`, `IdentityRuns.LiveRowsRun`).
* The role chunk is sent before the generator's `try`: a generator dropped there never releases its slot
  (`InFlight.SlotReleasedOnce`).
* `acquire` can refuse although no slot is owned (`InFlight.RefusedWithoutOwners`), and the counter's expiry
  is harmless only for an idle account (`InFlight.ExpiryKeeps`); it heals leaked slots
  (`InFlight.ExpiryRestores`).
* `release_job` swallows its own errors, so a hold stays behind without a job exactly when dispatch and release both fail
  (`InFlight.HoldAccounted` one way, `ChatHandler.HandleChat` the other).
* A worker that streams nothing and reports its output at the end gives a collected reply that a streaming
  client never sees (`Streaming.WorkerStreamAgrees`).
* A stream that ends in an error is observed all the same, in the `finally`; the collector then does not
  observe. A subscription that ends without DONE cancels the job in the passthrough and in the collector,
  not in the chat stream (`Streaming`).
* `timedelta(5)` is five days, where the comment says five seconds (`HordeCache.StaleForDays`).
* A file named exactly `bin` gets different modes from packer and verifier (`Archive.ModesAgree`); names that
  nest pass the verifier and cannot be extracted (`Packaging.NestedRefused`).
* The manifest on disk is not digested again at extraction, so only the other files are known to be as verified.
* A refresh that finds no models clears the names and keeps the lookup (`ModelIndex.ModelReference.StaleWhenNothingLoads`).
* The configured default output budget is not checked against the range for explicit ones (`JsonWalk.BudgetStable`).
* `wallet_verify` reads the first nonce anywhere in the text; a URI may hold an earlier one (`SiweText.VerifyMisled`).
  The exchange reads a whole line, which a URI with a line break may hold too (`SiweText.ExchangeMisled`); the
  domain check drops line breaks before it looks.
* The cohort monitor does not look whether an alert was queued: a raise can be lost and its recovery delivered
  (`CohortAlerts.RecoveredOnly`).
* By the server clock a completed shadow run may have lasted five minutes less than 168 hours
  (`ShadowRun.ShortestRun`).

## Model

| member | source | states |
|---|---|---|
| AliasForest.CanonicalAccountId | grid_api/services/identities.py:84-106 | on an alias forest the bounded walk finds the live root when it is fewer than eight rows away and gives up otherwise; the cycle error never occurs; whatever it finds is live |
| AliasForest.OneHop | grid_api/services/identities.py:92-103 | one alias row keeps the root and comes one row closer to it; an account without a row is its own root |
| AliasForest.NoCycle | alembic/versions/0013_universal_accounts_promos.py:53-60 | in a forest no account is reached from itself at any distance |
| AliasForest.RootIsLive | grid_api/services/identities.py:84-106 | the root of any account is live, and resolving it again gives itself |
| AliasForest.Extend | grid_api/services/identities.py:361-512 | a merge of two live accounts keeps the forest, redirects exactly the family of the source, and moves each of its members one row further away |
| AliasForest.LadderDepth | grid_api/services/identities.py:92 | merging a live account onward is always possible and puts the first account as many rows away as there were merges |
| Identities.MergeFacts | grid_api/services/identities.py:361-512 | a merge decided on accounts looked up earlier keeps the invariant, puts both accounts in one family when it reports success, and otherwise changes nothing |
| Identities.JoinKeeps | grid_api/services/identities.py:361-512 | retiring one live account in favour of another keeps aliases, logins and credit sound and separates nothing |
| Identities.MoveMoneyKeepsLedger | grid_api/services/identities.py:361-512 | the credit of the source, bought part included, moves to the destination; every balance is still the sum of its ledger rows |
| Identities.CreditExact | grid_api/services/credits.py:578-600 | a valid top-up with a new reference adds exactly its amount and bought part to the live account, also for an account that was merged away, and touches no other; anything else, a repeated reference included, changes nothing |
| Identities.DebitExact | grid_api/services/credits.py:471-487 | a covered debit with a new reference takes exactly its amount, bought credit first, from the live account and no other; anything else, a repeated reference included, changes nothing |
| Identities.StepKeeps | grid_api/services/identities.py:84-512 | every transaction keeps the alias forest, the login table and the ledger sound, loses nothing and separates nothing that belonged together |
| Identities.RunKeeps | grid_api/services/identities.py:84-512 | the same for every sequence of transactions |
| Identities.ReachableInv | grid_api/services/identities.py:84-512 | every database reached from the empty one is a forest with sound logins and balances |
| IdentityRuns.NeverSplit | grid_api/services/identities.py:361-512 | two logins that belong to one account belong to one account after every later run |
| IdentityRuns.NoAliasCycle | grid_api/services/identities.py:84-106 | no run makes an account an alias of itself |
| IdentityRuns.LiveRowsStep | grid_api/services/identities.py:264-358 | a transaction leaves every login on a live account if and only if it is not an attach to an account that was retired after it was looked up |
| IdentityRuns.LiveRowsRun | grid_api/services/identities.py:264-358 | after any run every login is on a live account if and only if no attach of the run was such a one; a login on a retired account is never moved off it |
| IdentityRuns.StraySplits | grid_api/routers/accounts.py:609-653 | exactly which transactions split the two names of a subject: those that put one of them on an account outside the family of the other |
| IdentityRuns.LoginsResolve | grid_api/services/identities.py:162-210 | without such an attach every login of every run resolves at its first lookup |
| IdentityRuns.OnwardLookup | grid_api/services/identities.py:92 | a token for an account merged onward n times still resolves if and only if n is at most seven |
| IdentityRuns.MergeConserves | grid_api/services/identities.py:361-512 | a merge conserves the credit of the two accounts and the total of the ledger, and touches no other account |
| IdentityRuns.CreditSound | grid_api/services/credits.py:471-487 | over every run a balance equals its ledger rows, is never overdrawn, and is zero once the account was merged away |
| IdentityRuns.RefsRun | grid_api/v2/schema.py:662-690 | over every run the ledger is only appended to and no two rows have one reference |
| IdentityRuns.ReplayIgnored | grid_api/services/credits.py:578-600 | a credit or debit repeated at any later time, for any account and amount, changes nothing |
| IdentityRuns.SpentAtMostIssued | grid_api/routers/accounts.py:54-97 | in every interleaving a nonce is accepted at most as often as it was issued |
| IdentityRuns.SingleUse | grid_api/routers/accounts.py:80-97 | a nonce minted once lets at most one caller through |
| Exchange.MergeAccounts | grid_api/services/identities.py:361-512 | two lookups and a transaction with other requests in between: success means one family; undisturbed, exactly the join of the two accounts, refused only for a busy account |
| Exchange.AttachIdentity | grid_api/services/identities.py:264-358 | the attach transaction applied to the account found by an earlier lookup; a conflict names the true owner |
| Exchange.AppKeyInjective | grid_api/routers/accounts.py:616-617 | application names of namespaces without a colon never coincide |
| Exchange.ResolveServiceApp | grid_api/routers/accounts.py:609-653 | under any interference: the owner of the stable name; the two names never end with different owners when the stable name has one at the first lookup or the legacy one has none, and in the remaining branch if and only if another request has not split them by the time of the attach, up to later merges; with others up to the attach only, the exact result; undisturbed: the exact result, an error only when an alias chain is too long, a refusal only for a busy account, and no change when the names already agree |
| Exchange.AttachPrimary | grid_api/routers/accounts.py:638-651 | the branch in which only the legacy name has an owner, with that condition |
| Exchange.MergeNamespaces | grid_api/routers/accounts.py:624-636 | the branch in which both names have owners: one account afterwards, found by a last lookup, under any interference |
| Exchange.ResolveTwice | grid_api/routers/accounts.py:609-653 | a second resolution changes nothing and returns the same owner; it fails if and only if the first one merged two owners and the legacy name was already seven alias rows from its own |
| IdentityRuns.ResolvedOnce | grid_api/routers/accounts.py:609-653 | a reachable subject that is resolved once and fails the second time |
| Exchange.ConsumeChallenge | grid_api/routers/accounts.py:63-97 | a challenge passes exactly when it was stored as expected, was signed, and is still there at the consuming read; a rejection changes nothing |
| Exchange.WalletVerify | grid_api/routers/accounts.py:310-383 | a token is for the owner of the wallet, whatever else runs; undisturbed, the outcome is exactly: denied, the known owner, or a new account |
| Exchange.LinkWallet | grid_api/routers/accounts.py:388-447 | an unknown nonce changes nothing; a linked wallet belongs to the account unless the reply reports a conflict; undisturbed it always links; and exactly what it leaves when other requests act between the lookup of the account and the attach |
| Exchange.StaleLink | grid_api/routers/accounts.py:439-446 | a run of the handler that leaves the wallet on an account retired meanwhile |
| Exchange.ClaimWallet | grid_api/routers/accounts.py:807-829 | for an unowned wallet: it ends with the app owner if and only if, when the attach runs, nobody else has it or somebody of the same family does |
| Exchange.WalletRace | grid_api/routers/accounts.py:760-870 | two complete exchanges of one wallet for two subjects, one running inside an await of the other: both get tokens, and the wallet is with the second only |
| Exchange.SettleWallet | grid_api/routers/accounts.py:806-838 | the four combinations of existing owners: the app owner takes the wallet under the same condition, else the wallet's owner, else a new account |
| Exchange.SettleSubject | grid_api/routers/accounts.py:799-838 | the subject is resolved and the wallet settled, with every await open to others |
| Exchange.ExchangeProved | grid_api/routers/accounts.py:799-870 | after the challenge is spent, under any interference: the app subject resolves to the account of the token; the wallet does if and only if the schedule does not give it to another family between its lookup and its attach, up to later merges; with others only between that lookup and the attach, the exact outcome for every owned subject, whatever its two names were; undisturbed the surviving account is determined and only a busy account refuses |
| Exchange.ExchangeWallet | grid_api/routers/accounts.py:760-870 | the whole exchange: rejected before consumption nothing changes, otherwise as above; and of app names it gives out only the subject's stable one, decided when the legacy name was nobody's or of the same family |
| Exchange.JoinSubject | grid_api/routers/accounts.py:919-942 | the app subject joins the account by merge or attach, or the reply is a conflict; undisturbed only a busy account refuses |
| Exchange.JoinNamed | grid_api/routers/accounts.py:910-942 | what the Google exchange and the binding share: resolve, then join; undisturbed, which account survives when the two names had different owners |
| Exchange.FindOrCreate | grid_api/routers/accounts.py:891-908 | the owner of the Google login, or a new account; a lost creation race is settled by reading again; undisturbed it conflicts exactly when the email is taken |
| Exchange.CreateOrFind | grid_api/routers/accounts.py:669-684 | under any interference: the new account exactly when none of its logins and not its identifier is taken by then, and otherwise the owner found by a second read, or a conflict exactly when that finds none |
| Exchange.ExchangeGoogle | grid_api/routers/accounts.py:875-958 | the Google login and the app subject both resolve to the account of the token, under any interference at every await; undisturbed, exactly when a token is given and for whom, whatever the two names were |
| Exchange.ExchangeService | grid_api/routers/accounts.py:658-696 | the app subject resolves to the account of the token, under any interference; for a subject without owner a new account, apart from the legacy name if and only if somebody made that one between its lookup and the creation; otherwise together or apart as the resolution leaves them; undisturbed, which account it is |
| Exchange.BridgeSignIn | grid_api/services/accounts.py:344-387 | the sign-in of a bridge's user: the app subject in the namespace of the bridge's account resolves to the answer's account, which always exists; undisturbed, the known account or a new one |
| Exchange.NewIsApart | grid_api/services/accounts.py:366-374 | a new account for one name of a subject is apart from the other name if and only if that one exists |
| Exchange.NamesApart | grid_api/routers/accounts.py:658-696 | three complete sign-ins of one new subject that all succeed and leave its two names at different accounts |
| Exchange.BindService | grid_api/routers/accounts.py:965-1011 | the app subject ends with the account of the step-up token unless the reply reports a conflict; a token whose alias chain is too long fails and changes nothing; undisturbed, always a success, and the account that stands for the token afterwards |
| SubjectNames.TogetherExactly | grid_api/routers/accounts.py:609-653 | the two names of a subject are together at every point of a run if and only if no transaction of the run put one of them outside the family of the other |
| SubjectNames.StrayOnlyIfMade | grid_api/routers/accounts.py:638-651 | giving out the stable name, decided when the legacy one was nobody's or of the family of the account, takes the names apart only when another transaction made the legacy name after that |
| SubjectNames.NamesTogether | grid_api/routers/accounts.py:609-653 | in every run in which the stable name is given out only so and nobody makes the legacy name, the two names are never at different owners |
| SubjectNames.SignInApart | grid_api/services/accounts.py:355-374 | a bridge sign-in that makes the legacy name puts it at another account if and only if the subject already has the stable one |
| SubjectNames.OtherSubjects | grid_api/routers/accounts.py:616-617 | requests about other subjects or of other services deal with other names, as long as no service is called like an account |
| SubjectNames.OwnStray | grid_api/routers/accounts.py:609-1011 | a transaction of a handler takes the names apart only when somebody made the legacy name after the handler read that it was nobody's |
| SubjectNames.RequestAmongOthers | grid_api/routers/accounts.py:609-1011 | however a handler's moves interleave with the others: if their transactions give out names that way and none makes the legacy one, the names are together at every point |
| SubjectNames.HandlerAmongOthers | grid_api/routers/accounts.py:609-1011 | the same for every handler run with the promise of its contract |
| InFlight.ActionBalances | grid_api/services/concurrency.py:30-74 | each Redis command moves the count by exactly what the request does to its own slot, and a slot is gained only below the limit |
| InFlight.StepKeeps | grid_api/routers/openai.py:506-587 | every step of any request keeps the count equal to owned slots plus requests being refused, and the slots within the limit |
| InFlight.ExpiryKeeps | grid_api/services/concurrency.py:23 | the key's expiry is harmless if and only if none of the account's requests is counted at that moment |
| InFlight.SlotsBounded | grid_api/routers/openai.py:506-587 | over every interleaving: the count is the owned slots plus the refusals in progress, no account owns more than the limit, and no release has to lift a negative count |
| InFlight.LiveSlotsBounded | grid_api/services/concurrency.py:21-53 | the same for runs in which the counter expires while only leaked slots are counted: the count lies between the live owners and all owners, plus the refusals in progress, and live owners never exceed the limit |
| InFlight.ExpiryRestores | grid_api/services/concurrency.py:21-23 | right after such an expiry the count is exactly the live owners plus the refusals in progress, however many slots had leaked |
| InFlight.SlotReleasedOnce | grid_api/routers/openai.py:584-688 | a slot is released at most once, and exactly once unless its generator was dropped at its role chunk; nobody then releases that slot |
| InFlight.HoldAccounted | grid_api/routers/openai.py:517-542 | when a request is over there is no hold, a released one, or one whose job is queued; a hold without a job remains only when both dispatch and release failed |
| InFlight.RefusedExactlyWhenFull | grid_api/services/concurrency.py:30-53 | a request is refused if and only if owned slots and refusals in progress fill the limit |
| InFlight.RefusedWithoutOwners | grid_api/services/concurrency.py:30-33 | a run in which a request is refused although no slot is owned |
| ChatHandler.Dispatch | grid_api/routers/openai.py:538-542 | a failed submission is followed by exactly one attempt to give the hold back |
| ChatHandler.ReleaseSlot | grid_api/services/concurrency.py:56-74 | a release ends the request and counts once, with or without the floor at zero |
| ChatHandler.HandleChat | grid_api/routers/openai.py:506-587 | each outcome of the chat handler leaves the machine with the slot, the hold and the queue as that outcome demands, whatever other requests do at every await |
| ChatHandler.HandlePassthrough | grid_api/routers/_passthrough.py:264-313 | the same for the raw endpoints, which take no slot |
| ChatHandler.RunGenerator | grid_api/routers/openai.py:590-688 | a generator resumed past its role chunk releases the slot of its request exactly once, if it has one; one dropped there does not; only the former observes |
| ToolCalls.MergeToolCallDeltas | grid_api/services/chat_output.py:33-46 | the in-place merge computes the fragment-by-fragment merge |
| ToolCalls.MergeMeaning | grid_api/services/chat_output.py:33-46 | each index gets the concatenation of its own fragments and its last id and type, untouched by the others |
| ToolCalls.MergeAppend | grid_api/services/chat_output.py:33-34 | where the stream cut its chunks makes no difference |
| ToolCalls.SplitFragment | grid_api/services/chat_output.py:33-34 | cutting one argument text into two fragments gives the same calls |
| ToolCalls.InOrderExactly | grid_api/routers/openai.py:747 | the list made of the merged calls is the only one that holds exactly them in the order of their indices |
| ToolCalls.MergeIndexed | grid_api/services/chat_output.py:35-37 | merging files every call under its own index |
| Streaming.SendEnd | grid_api/routers/openai.py:618-652 | what follows the last event, and whether the client left during it |
| Streaming.RelayEvents | grid_api/routers/openai.py:653-672 | the relayed events and the output absorbed from them, up to the end or the client's departure |
| Streaming.SeenNext | grid_api/routers/openai.py:653-671 | what one event adds to the output seen so far: a delta its content, reasoning and fragments to the three in this order, an older event its text to the one it is for |
| Streaming.HeardOf | grid_api/routers/openai.py:653-672 | a client that puts the fields of its chunks together has the concatenated texts and merged fragments of as many events as it was sent |
| Streaming.StreamOpenAI | grid_api/routers/openai.py:590-688 | chunk by chunk: the role, then for each event in order a chunk with exactly its fields, then the closing chunks of the last event, the error with its type or finish, usage if due and the mark, as far as the client read; past the role chunk there is exactly one observation, of what those chunks put together say, one release of a given slot, and a cancel exactly when the last chunk being sent was neither the mark nor an error |
| Streaming.CollectResponse | grid_api/routers/openai.py:691-749 | content and reasoning are the assembled ones of the last event or else the fields of the deltas put together in order, the calls the assembled ones or else exactly the merged fragments in the order of their indices; the raised status, the observation and the cancel for every way a stream can end |
| Streaming.AssembledVersusRelayed | grid_api/routers/openai.py:717-747 | collected and streamed output agree if and only if every assembled field of the last event is absent or repeats the deltas; for calls that means the list of exactly the merged calls in the order of their indices |
| Streaming.ReadBothWays | grid_api/routers/openai.py:590-749 | whenever the last event is such a one, the reply collected is what a client puts together from the chunks it was sent, both readers count the same tokens and neither cancels |
| Streaming.WorkerStreamAgrees | grid_api/routers/worker_ws.py:2405-2444 | for every stream the worker connection publishes both readers agree, unless nothing was streamed and the worker reported output at the end, which is then the reply |
| Streaming.FramesNext | grid_api/routers/_passthrough.py:316-355 | each upstream event makes the next frame, under its name and with its data, and no other event makes one |
| Streaming.StreamPassthrough | grid_api/routers/_passthrough.py:316-355 | those frames up to the end or the departure and no more than the client took, one observation on every exit of the text of exactly these frames, and a cancel unless a DONE or an error ended the stream |
| JsonWalk.DepthVerdict | grid_api/routers/_passthrough.py:84-91 | the early cut-off never changes the comparison of the nesting depth with the cap: some path is deeper if and only if the count says so |
| JsonWalk.GuardVerdict | grid_api/routers/_passthrough.py:94-108 | a body passes if and only if it is no container, or fits the size and has no path deeper than the cap |
| JsonWalk.ChildrenAre | grid_api/routers/_passthrough.py:84-91 | what lies below a node: the items of a list, the values of an object, and nothing below anything else |
| JsonWalk.DeepSanitizeIs | grid_api/routers/_passthrough.py:111-127 | one level of the walk: a string is sanitized, each item of a list and each value of an object is walked one level deeper under its own key, and everything beyond the cap stays |
| JsonWalk.WalkSpec | grid_api/routers/_passthrough.py:111-127 | at every path: a string within the cap is sanitized, everything else keeps its text, length or keys |
| JsonWalk.GuardedBodyIsClean | grid_api/routers/_passthrough.py:94-127 | in every body the guard accepts, each string at any depth is sanitized and the structure kept |
| JsonWalk.CapExact | grid_api/routers/_passthrough.py:118-119 | the capped sanitizer equals the uncapped one if and only if no string beyond the cap would have been changed |
| JsonWalk.GuardMakesCapHarmless | grid_api/routers/_passthrough.py:94-127 | for a guarded body the capped sanitizer is the uncapped one |
| JsonWalk.NormalizeOutputBudget | grid_api/routers/_passthrough.py:49-76 | which field counts: its own, or for the other format the older one when its own is missing; the default for a missing or empty value, a rejection for one out of range or no integer, and the cap written back into the field of the format unless rejected |
| JsonWalk.BudgetStable | grid_api/routers/_passthrough.py:49-76 | normalizing again changes nothing if and only if the value is in range, which a configured default need not be |
| Archive.SplitInjective | deploy/media_codec_runtime.py:42-49 | distinct names have distinct parts |
| Archive.NamesOkAre | deploy/media_codec_runtime.py:42-49 | the accepted names are exactly those of at most 240 characters put together from parts without backslash that are neither empty nor dots |
| Archive.Confined | deploy/media_codec_runtime.py:205-208 | every accepted name leads strictly below the destination, with dots taken literally |
| Archive.NestedNamesAccepted | deploy/media_codec_runtime.py:42-49 | the name rule does not keep one accepted name from lying below another |
| Archive.ModesAgree | deploy/media_codec_runtime.py:118-165 | the packer's and the verifier's mode rules agree on a name if and only if it is not exactly bin |
| Bundle.CheckListing | deploy/media_codec_runtime.py:127-140 | the reading loop decides exactly the bounds and name rules on the entries |
| Bundle.CheckCommitments | deploy/media_codec_runtime.py:157-173 | the last loop decides exactly whether each file has the size, mode and digest of its entry |
| Bundle.AcceptedEntries | deploy/media_codec_runtime.py:127-156 | an accepted archive has 6 to 100 distinct plain files of acceptable name, at most 512 MiB together, and they are the manifest and exactly the files it lists |
| Bundle.AcceptedEntry | deploy/media_codec_runtime.py:141-173 | its manifest is at most 128 KiB and parses to the one returned, and every other entry has the size, digest and mode listed for it, the mode being that of its place |
| Bundle.AcceptedForOne | deploy/media_codec_runtime.py:144-156 | an archive accepted for one commit and lock file is refused for every other |
| Bundle.VerifyReader | deploy/media_codec_runtime.py:126-174 | a manifest is returned if and only if the archive is acceptable with it; it then names the requested commit, lock file, schema and platform, lists the required files, and holds the digest of every file |
| Packaging.Inventory | deploy/media_codec_runtime.py:104-115 | one entry with size, digest and frozen mode for each file |
| Packaging.Pack | deploy/media_codec_runtime.py:306-325 | the manifest of the package and its tar entries in order |
| Packaging.PackedIsAccepted | deploy/media_codec_runtime.py:126-174 | the packer's own archive is accepted if and only if the package respects the bounds |
| Packaging.Stage.MakeParents | deploy/media_codec_runtime.py:207 | parents are made exactly when none of them is a file |
| Packaging.Stage.CreateNew | deploy/media_codec_runtime.py:208-210 | a file is created exactly when nothing has its path |
| Packaging.LayNext | deploy/media_codec_runtime.py:205-212 | one more member is laid out if and only if its name does not nest with one before it and its bytes, unless it is the manifest, have the verified digest |
| Packaging.LayOut | deploy/media_codec_runtime.py:205-212 | all members are laid out if and only if no name nests in another and the bytes read back have the verified digests |
| Packaging.ExtractVerified | deploy/media_codec_runtime.py:199-213 | extraction succeeds if and only if the archive is accepted, no name nests and the bytes are unchanged, and then leaves exactly these files; an unacceptable archive writes nothing |
| Packaging.OnDiskAsVerified | deploy/media_codec_runtime.py:211-212 | with an injective digest each file on disk but the manifest is the verified one |
| Packaging.ManifestFixesFiles | deploy/media_codec_runtime.py:157-173 | with an injective digest two archives accepted with one manifest hold the same files |
| Packaging.PackAndExtract | deploy/media_codec_runtime.py:199-325 | packing a package within the bounds and extracting the archive gives the package back with its frozen modes |
| Packaging.NestedRefused | deploy/media_codec_runtime.py:126-213 | an archive with all required files and one below another is verified and cannot be extracted |
| Packaging.TermsOk | deploy/media_codec_runtime.py:154 | the codec bundles' own terms admit such an archive |
| HordeCache.HordeRedis.WriteAll | horde/horde_redis.py:51-55 | every server that is up holds the value, or no longer the key, and all else on it is as before; one that is down is as it was |
| HordeCache.HordeRedis.Set | horde/horde_redis.py:50-57 | the servers hold the value without expiry, the local store for ten days |
| HordeCache.HordeRedis.SetEx | horde/horde_redis.py:59-69 | the servers hold the value until its expiry, the local store for at most five days |
| HordeCache.KeepIs | horde/horde_redis.py:117-124 | how long a fetched value is kept locally: the seconds it has left, to the nearest, but at most five, and two when it has none left or no expiry |
| HordeCache.HordeRedis.Get | horde/horde_redis.py:105-126 | a visible local value is the answer; without one it is exactly what the server holds, kept locally for that long when found; raises exactly when it needs a server and none answers |
| HordeCache.HordeRedis.Delete | horde/horde_redis.py:137-144 | the key is gone from every server that is up and from the local store |
| HordeCache.Perform | horde/horde_redis.py:50-144 | the methods carry out exactly the steps of the shared timed model, whichever servers take a write or answer a read |
| HordeCache.ReadsAreExplained | horde/horde_redis.py:105-126 | over every timed run of any nodes, whichever servers miss writes: a value read is the answering server's current one, one that a server answered this node with less than five seconds before, or the reader's own last write within its local term |
| HordeCache.ReadsTheServer | horde/horde_redis.py:105-126 | after every run a connected node with nothing of its own reads exactly what the answering server holds, whoever wrote it |
| HordeCache.FetchedIsServed | horde/horde_redis.py:115-125 | a fetched value is then the node's answer as long as it is kept, whatever other nodes write and with every server down |
| HordeCache.ReadYourWrite | horde/horde_redis.py:50-69 | a node whose write reached the servers reads it until it expires on them or someone writes the key |
| HordeCache.ReadOthersWrite | horde/horde_redis.py:50-69 | and so does every other connected node that has nothing of its own; after the expiry it finds nothing |
| HordeCache.ReadYourDelete | horde/horde_redis.py:137-144 | a node whose delete reached the servers finds nothing until someone writes the key |
| HordeCache.StaleForDays | horde/horde_redis.py:65-69 | four days after another node replaced a value its first writer still reads its own |
| ModelIndex.ModelReference.Populate | horde/model_reference_blockchain.py:287-331 | the loop builds the case-insensitive index of the given models, in which the last of several models wins, and the three sets of names: those with an accepted baseline, those marked nsfw, and the controlnets |
| ModelIndex.ModelReference.Refresh | horde/model_reference_blockchain.py:249-285 | the chain's models when it has any, else those of a readable cache, else the legacy file's, each only when not empty, and the names of the accepted ones among them; with no source only the reference and the names are cleared; a saved chain result is what the cache then holds |
| ModelIndex.ModelReference.HasUnknown | horde/model_reference_blockchain.py:447-450 | some name is unknown, for every list including the empty one |
| ModelIndex.ModelReference.AgreesWithScan | horde/model_reference_blockchain.py:425-439 | normalizing a name equals a linear case-insensitive scan that prefers the exact name and then the last match; a name is known exactly when some offered model has it but for case |
| ModelIndex.ModelReference.NormalizeTwice | horde/model_reference_blockchain.py:425-435 | normalizing is idempotent |
| ModelIndex.ModelReference.StaleWhenNothingLoads | horde/model_reference_blockchain.py:277-280 | after a refresh without a source, names still resolve through the previous index, and the index agrees with the empty reference if and only if the previous load offered no model |
| ShadowRun.EligibleWhenNothingFails | grid_api/services/validator_shadow.py:246-275 | the start gate has no failing check if and only if all its conditions hold |
| ShadowRun.ReasonsAre | grid_api/services/validator_shadow.py:246-275 | each check of the start gate fails exactly for its own reason |
| ShadowRun.StartsMeans | scripts/manage_validator_shadow_run.py:116-168 | a run that was started: at least three operators, three participating, one group, a clear cohort, all four verifications and a collector at work, in both reads; a draft of this build for at least 168 hours under this policy, and nothing else running |
| ShadowRun.FinishesMeans | scripts/manage_validator_shadow_run.py:171-250 | a run that was closed: it was running and still the row that had been read; a completion came five minutes or more after the scheduled end, with an empty stream and a consumer group with nothing pending and no lag |
| ShadowRun.PrepareCommand | scripts/manage_validator_shadow_run.py:72-113 | a preview changes nothing and lists exactly the failing checks; an applied command creates the draft exactly under its conditions, or returns the existing run with the same inputs; each refusal with its cause |
| ShadowRun.StartCommand | scripts/manage_validator_shadow_run.py:116-168 | the run is started exactly when the row read, the row now, the gate seen twice and the transport allow it; success is otherwise reported only for a run that someone else has started since; each refusal with its cause, and each reason of a preview exactly when it is true |
| ShadowRun.FinishCommand | scripts/manage_validator_shadow_run.py:171-250 | the run is closed exactly when the row read is still the row, it is running, and a completion is past the grace with nothing left in the transport; a stream that is not empty, a missing group, pending entries or a lag refuse a completion for that reason; each refusal with its cause |
| ShadowRun.CommandKeeps | grid_api/services/validator_shadow.py:995-1442 | any command, whatever it read earlier, keeps one running run and well-formed windows, and moves rows only forward |
| ShadowRun.AtMostOneRunning | alembic/versions/0033_validator_shadow_single_run.py:20-28 | at most one run is running at any time of every run of commands with arbitrarily stale reads |
| ShadowRun.OnlyForward | grid_api/services/validator_shadow.py:995-1442 | statuses only go draft, running, one terminal status; frozen inputs and the window never change; nothing changes after the end |
| ShadowRun.OutdatedChangesNothing | scripts/manage_validator_shadow_run.py:100-205 | a preview, and an apply whose commitment is not that of the gate or row its transaction meets, change nothing |
| ShadowRun.MovedBy | scripts/manage_validator_shadow_run.py:72-216 | a row that is no longer a draft was left alone, started or closed by the command |
| ShadowRun.StartedBy | scripts/manage_validator_shadow_run.py:116-168 | every started run has the start command that started it |
| ShadowRun.FinishedBy | scripts/manage_validator_shadow_run.py:171-216 | every closed run has the finish command that closed it |
| ShadowRun.CompletedRan | scripts/manage_validator_shadow_run.py:171-250 | a completed run was started and later completed with an empty stream and a consumer group without pending entries or lag, a whole window and the grace apart by the commands' times, and by the server clock at least that less the two allowed skews |
| ShadowRun.ShortestRun | grid_api/services/validator_shadow.py:115-121 | a run that reaches this bound: five minutes less than 168 hours by the server clock |
| CohortAlerts.NextPass | grid_api/main.py:201-255 | what one turn emits and remembers: nothing without the lease, a failure alert and the old codes after an error, and after a report its new codes in its order and then the recoveries of those that are gone, with the report's codes remembered |
| CohortAlerts.EmitRaises | grid_api/main.py:227-236 | one call of emit for each code that is new |
| CohortAlerts.EmitRecoveries | grid_api/main.py:237-244 | one call of emit for each code that is gone |
| CohortAlerts.Emit | grid_api/services/alerts.py:148-165 | an alert is queued if and only if the queue has room |
| CohortAlerts.Monitor | grid_api/main.py:201-255 | the queue holds exactly those alerts of the passes for which it had room, and prior_codes is the last report's whether or not they were taken |
| CohortAlerts.PassBalanced | grid_api/main.py:227-245 | after one pass the emitted alerts alternate and the open codes are prior_codes if and only if the report repeats no new code |
| CohortAlerts.AlternatesWhenClean | grid_api/main.py:201-255 | the same for every run and every point of it |
| CohortAlerts.QueueAlternates | grid_api/services/alerts.py:148-165 | over every such run the alerts that reach the queue alternate if and only if each of them follows an even number of lost ones about its code |
| CohortAlerts.QueueMatches | grid_api/main.py:245 | and then the codes open in the queue are prior_codes if and only if no code has an odd number of losses |
| CohortAlerts.RecoveredOnly | grid_api/main.py:227-245 | a full queue at the raise and room at the recovery: the recovery arrives for a condition never raised |
| PriceWindows.Ordered | grid_api/config.py:263-271 | accepted windows come in strict order, each over before the next begins |
| PriceWindows.WindowAt | grid_api/config.py:263-271 | every instant of the span is in exactly one window |
| PriceWindows.HourInOneWindow | grid_api/config.py:33-39 | every UTC hour of the span lies wholly inside exactly one window |
| PriceWindows.LengthsAddUp | grid_api/config.py:263-271 | the lengths add up to the span |
| PriceWindows.SpanBounds | grid_api/config.py:263-271 | no accepted window begins before the cutoff, and n of them span at least n hours and at most n weeks |
| PriceWindows.DemandPolicy | grid_api/services/settlement/payouts.py:130-143 | the lookup: none before the first window, the first window that contains the period, or an error when none does |
| PriceWindows.PricedByOneWindow | grid_api/services/settlement/payouts.py:130-143 | a period gets a price if and only if one window holds all its instants, and then that window's |
| PriceWindows.AppendAccepted | grid_api/config.py:263-271 | a further window is accepted if and only if it is valid and begins where the last one ends |
| PriceWindows.AppendKeepsAnswers | grid_api/services/settlement/payouts.py:130-143 | appending a window leaves the answer for every period that ends by then as it was |
| SiweText.MatchesAreLines | grid_api/routers/accounts.py:771 | the anchored pattern matches only at a whole line of the form Nonce: and 32 hex digits |
| SiweText.ExchangeFinds | grid_api/routers/accounts.py:241-262 | which nonce the exchange's pattern captures, for any URI, one with line breaks included: that of the address, the statement or a line of the URI if that is a nonce line, the first such one, and else the minted one |
| SiweText.ExchangeFindsMinted | grid_api/routers/accounts.py:721-772 | for a hex address and the exchange's own statement it is the minted nonce if and only if the first nonce line inside the URI, if any, repeats it; always for a URI on one line |
| SiweText.ExchangeMisled | grid_api/routers/accounts.py:227-262 | for a URI with a line break and a nonce line after it, the digits of that line |
| SiweText.VerifyFirst | grid_api/routers/accounts.py:318 | the unanchored pattern first matches at the minted nonce if and only if domain, address, statement and URI hold no Nonce: with a hex digit |
| SiweText.VerifyFindsMinted | grid_api/routers/accounts.py:318-320 | and there it captures the whole minted nonce |
| SiweText.VerifyMisled | grid_api/routers/accounts.py:318-320 | for a URI that holds such a text, the digits captured are those of the URI |

## Left out

- Identities: subject digests, the migration of legacy digests, display hints, the legacy columns of the account table and unverified email rows are not modelled; a login is its kind and subject.
- Identities: the other tables a merge moves (keys, workers, promotions, payouts) and what makes an account busy are one set of busy accounts.
- Exchange.ExchangeGoogle: the welcome grant between account and subject is one await of other work.
- Exchange.ExchangeProved: the condition on the schedule is about the database in which the wallet is looked up, which the method names in its result; what other requests do before that lookup only shows in it.
- Identities.CreditExact: the reason and the model of a ledger row, refunds derived from earlier rows, and the error for a missing reference are not modelled.
- Identities.CreditExact: the two ledger rows of a merge have references of their own (`MergeOut`, `MergeIn`); in the code they are texts in the same unique column as the callers' references, such as `wallet-link:{nonce}:out`, which a caller could also use.
- Exchange.BridgeSignIn: the signature, the lifetime and the single use of an assertion are checked before and not modelled; the key of the bridge decides the namespace.
- Exchange.WalletVerify: the session and the key handed out with the answer, and the legacy sign-in switches, are not modelled.
- InFlight: a configuration without a limit, Redis failures (which let a request through) and cancellation inside an await are not modelled; a disconnect happens at a yield.
- InFlight: the x402 payment path and the settlement of a queued job by its worker are not modelled.
- ChatHandler.HandlePassthrough: the job queue either takes a job or raises; `collect_passthrough` is one step.
- Streaming: the JSON envelopes, usage figures reported by the worker and finish reasons are not modelled, and the token counter is a parameter.
- JsonWalk: the size of a serialized body is a parameter, and a cap below zero is not modelled.
- Bundle.VerifyReader: gzip and tar decoding with their own bound, and malformed JSON types, are behind the list of members and the parser.
- Packaging.PackAndExtract: the build of the binaries, `SHA256SUMS` and symbolic links in the package are not modelled; the destination is new and empty.
- HordeCache.Perform: a server that is down keeps its store, and the value and the time to live of one read come from the same moment.
- HordeCache.ReadYourWrite: the write must have reached every server; after one that did not, a read is described by `ReadsAreExplained` only.
- HordeCache: the local-only setters and the JSON wrappers are not modelled.
- ModelIndex.ModelReference.Refresh: text models, which are loaded from another source afterwards, are not modelled; the JSON of the cache file is read back as written.
- ShadowRun: observations, errors and reports of a run, the text of identifiers and times, and failures of Redis or the database are not modelled.
- CohortAlerts.Monitor: what the delivery worker does with a queued alert and its deduplication key is not modelled; the endless loop is taken up to any number of passes.
- PriceWindows: time zones and the parsing of dates are not modelled; times are UTC microseconds.
- SiweText: the pattern engine is replaced by the meaning of its leftmost match; fields other than the URI have no line break.
- The remaining routers (images, audio, video, pricing, health, oauth), the Web3 scripts, the Flask application and the SDKs are plumbing around services that are not modelled here.
