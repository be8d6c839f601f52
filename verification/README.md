# OmniRoute: a verified model of its small algorithms

OmniRoute routes requests of AI clients to many providers. Most of its configuration code is tables, but
inside them sit algorithms with state, loops and string arithmetic. This project models twelve of those
files in Dafny and proves what they are for. `dafny verify dfyconfig.toml` checks everything.

| file | models |
|---|---|
| `LoginProtocol.dfy`, `LoginManager.dfy` | the browser login: timers, cookie and storage reads, events of every window, timeout and cancel |
| `LoginSafety.dfy`, `LoginSuccession.dfy`, `LoginCredentials.dfy`, `LoginConduct.dfy` | what one login keeps in every interleaving, exactly when the login after it is undisturbed, what a success carries, and how long a login waits and what it says meanwhile |
| `TurnStateTable.dfy`, `CodexTurnState.dfy` | the provenance table of turn-state blobs, with lazy expiry and a sweep every 256 writes, against an unbounded log |
| `ServerReadiness.dfy` | the polling loop that waits for a starting server, against an arbitrary world |
| `FreeModelCatalog.dfy` | token budgets summed over a catalog in which rows share pools |
| `GlmProvider.dfy` | stripping and joining endpoint paths on user-configured URLs |
| `EmbeddingRegistry.dfy`, `RegistryUtils.dfy` | printing and parsing "provider/model" ids |
| `AnthropicHeaders.dfy` | merging the client's `anthropic-beta` tokens |
| `CliFingerprints.dfy` | ordering headers and body fields |
| `CodexIdentity.dfy` | UUIDs derived from digests, and the persisted seed behind them |
| `ToolCloaking.dfy` | removing `enumDescriptions` from tool schemas |
| `ProviderModels.dfy` | choosing a model by id across all catalogs |
| `Sorting.dfy`, `JsString.dfy`, `Basics.dfy` | sorting, string operations, options and records shared by the others |

Where the source changes state the model does too: `LoginManager.Manager`, `CodexTurnState.Provenance`,
`ServerReadiness.Host` and `RegistryUtils.IndexCache` are classes, and the loops of the source are loops
here. Each method is proved equal to a function on values, and the lemmas are about that function, for
every input and every run.

## How the world enters

* Clocks are parameters. The poller's clock moves only while something is awaited; timers may fire late,
  and answers and timers due at the same instant may come in either order.
* The event loop of the login is part of its state: which timers are armed, which reads are in flight, and
  every window opened so far with the handlers on it. Any event may come at any time; an event that is not
  pending changes nothing. A window closes some time after the manager asked it to, or never; the handler for
  request headers belongs to the window's session and is never removed, so it may run at any time.
* SHA-256 is any function from strings to 32 bytes. `randomUUID` is a value known to match the UUID pattern.
  `modelSupportsContext1mBeta` is any predicate on model names.
* JavaScript objects and Maps are insertion-ordered records with ordinary keys. Catalogs, registries,
  allow-lists and orders are arbitrary values, not the literal tables.
* White space is the set `trim` removes; letter case is ASCII.

## What turned out not to hold

The code is modelled as it is. Where a law one would expect fails, the lemma states exactly when it holds.

* Joining a Messages endpoint onto a GLM URL that already names one does not always replace it. On a base
  that ends in a doubled `/v1/v1`, or in an upper-case `/V1`, a second join gives another address than a
  single one (`ReplacementFailures`). `MessagesEndpointReplacedIff` gives the exact condition for every URL
  and path, `V1ModelsEndpointReplacedIff` that for `/v1/models`.
* A successful login carries every required key, but a storage entry that does not exist is delivered as
  null: `getItem` returns null and the key counts as found (`StorageLoginCompletesIff`). `NullFreeIff` has the
  exact condition over all runs: no success carries a null exactly when the login asks for no storage entry.
* A login can disturb the next one. `cancel`, the timeout and a success leave the window to close later, and
  a read in flight is never withdrawn; their callbacks look only at the one flag `isCompleted`, which the next
  login resets. The close handler of the old window then ends the new login (`StaleCloseEndsNextLogin`), and
  an old read can settle it with the old provider's name and credentials (`LeftoverCookiesSettleIff`,
  `LeftoverStorageSettlesIff`). `NextLoginSafeIff` has the exact condition over all next logins and all later
  events: no timer armed, no read in flight, every window silent. `EndDrainsIff` says which ends leave the
  manager so, `EndThenCloseSafeIff` what is left to wait for once the window has closed.
* Captured request headers outlive their login: the record is not reset at the start, and the old session's
  handler goes on filling it. `OwnValuesIff` says exactly when no success can carry another login's values.
* The event documentation promises a provider id in every status. The status of `cancel()` has none, because
  the id is cleared first (`NamelessIffCancelled`); all statuses of a run name the provider exactly when no
  cancellation finds the login in progress (`AllNameIff`).
* On a clock that goes back the provenance table may have forgotten what is live again
  (`BackwardClockForgets`); `AnswerFromLog` is exact for every clock.
* A save without OAuth credentials drops the persisted seed, so "preserved across updates" holds exactly
  along OAuth saves (`SeedSurvivesIff`).
* `stripEnumDescriptions` removes the key wherever it stands, also where it is the name of a tool's own
  parameter below `properties`.
* With an empty header order `orderHeaders` returns its input, so names that agree up to case survive then
  and only then (`HeadersDistinctIff`).
* A printed embedding id is not always read back as itself; `EmbeddingRegistry.RoundTripIff` has the exact
  condition.
* An extra field of a media registry's listing may replace the id or the provider of an entry
  (`RegistryUtils.EveryListedIdParses`).
* Without a positive poll interval the poller may spin at its starting instant for ever
  (`SpinsWithoutInterval`), when it is given a `sleepFn` that returns at once; the default one waits on a timer,
  which takes at least a millisecond. `EndsIff` gives the exact condition under which the poll ends in every
  world, which is the precondition of `WaitForServer`.

## Model

| member | source | states |
|---|---|---|
| LoginSafety.LoginIsSafe | electron/loginManager.js:73-108 | From a manager on which nothing is left over, every interleaving of a login's events keeps: while in progress, nothing settled, no final status, the overall timeout armed, exactly one of start timer, poll timer, cookie read and storage read pending, and the newest window its own; when over, one final status, emitted last, matching the one settlement, no timer armed, closing reported only of its own window, and every required key in the credentials of a success |
| LoginSafety.BeginSound | electron/loginManager.js:80-218 | A login whose window opens is in progress; one whose window or page fails to open is over at once, settled with that failure |
| LoginSafety.StepKeepsProgress | electron/loginManager.js:184-367 | Every single event keeps a login in progress or ends it properly |
| LoginSafety.SettledForGood | electron/loginManager.js:142-367 | After the end no event emits a status, settles the promise or arms a timer |
| LoginSafety.TimeoutEndsLogin | electron/loginManager.js:204-217 | While a login is in progress its overall timeout is armed, and firing it ends the login with the timeout failure |
| LoginCredentials.NullFreeIff | electron/loginManager.js:263-366 | Over all runs from a drained manager no success carries a null exactly when the login asks for no storage entry, also when the page returns just the entries it was asked for |
| LoginSafety.CookieLoginCompletesIff | electron/loginManager.js:243-366 | When the cookies arrive, a login that asks for a storage entry and whose window is open goes on to read storage, with exactly the keys captured from a header or found in the jar; any other ends in success exactly when it asks for something or has captured a header, and every key it asks for was captured or is in the jar |
| LoginSafety.CaptureKeeps | electron/lib/loginHeaderCapture.js:3-16 | A key is held afterwards exactly when it was held or is wanted and sent with a non-blank value; it then holds its trimmed request header, unless a non-empty value was there before, which stays |
| LoginSafety.StorageLoginCompletesIff | electron/loginManager.js:273-362 | A storage read completes its login, with what it brings laid over what was found, exactly when every key asked for was found before or is in the returned record, with a value or null |
| LoginCredentials.CookieMatchesIff | electron/loginManager.js:249-260 | A cookie serves a source exactly when the names agree and the wanted domain, with or without a leading dot, stands somewhere in the domain of the cookie |
| LoginCredentials.FindCookieIsFirst | electron/loginManager.js:253-260 | A source gets the value of the first cookie in the jar that matches, and nothing exactly when none does |
| LoginCredentials.WithCookiesIs | electron/loginManager.js:248-260 | Under each key stands the cookie of the last source that has one, else what was there before |
| LoginCredentials.HeaderValueIsLast | electron/lib/loginHeaderCapture.js:3-11 | Of the request headers that agree with a name up to case the last one counts |
| LoginConduct.TimersWellDelayed | electron/loginManager.js:83-217 | Over every run every timer a login arms has its delay: the caller's timeout, else the configured one, else 300000 for the whole; the configured wait or 5000 before polling; none before the first poll and the configured interval or 1000 before every later one |
| LoginConduct.StatusesAddUp | electron/loginManager.js:89-239 | Over every run the statuses add up: one start, one for the page it loads and one for each page it arrives at, one detection for each arrival at the place of success but on the first page, one notice for every thirtieth poll |
| LoginConduct.OpeningShows | electron/loginManager.js:89-108 | What an opening shows, in order, when it succeeds and in both ways it may fail |
| LoginConduct.EndReleases | electron/loginManager.js:403-425 | Whatever ends a login, nothing it held is held afterwards and none of its timers is armed |
| LoginSafety.NamelessIffCancelled | electron/loginManager.js:388-399 | Of all events that end a login a cancellation alone leaves the provider out of the final status |
| LoginSafety.AllNameIff | electron/loginManager.js:73-399 | All statuses of a run name the provider exactly when no cancellation finds the login in progress |
| LoginSuccession.NextLoginSafeIff | electron/loginManager.js:73-260 | Over all next logins and all later events, a login shows only its own progress and one proper end of its own exactly when at its start no timer is armed, no read is in flight and no earlier window can still act |
| LoginSuccession.EndDrainsIff | electron/loginManager.js:142-217 | Of all events that end a login only the closing of its own window, between two reads, leaves nothing behind |
| LoginSuccession.EndThenCloseSafeIff | electron/loginManager.js:142-217 | Whatever ended a login, once its window has closed every next login is undisturbed exactly when no read was in flight at the end |
| LoginSuccession.LeftoverCookiesSettleIff | electron/loginManager.js:241-366 | A cookie read left over from an earlier login settles the next one, with the earlier login's name and values, exactly when the earlier login asks for no storage entry and the jar and the captured headers deliver all it asks for |
| LoginSuccession.LeftoverStorageSettlesIff | electron/loginManager.js:288-366 | A storage read left over settles the next login exactly when with it every key of its own login is found |
| LoginSuccession.StaleCloseEndsNextLogin | electron/loginManager.js:184-196 | The close handler of any earlier window ends the next login as closed by the user, while that login's window is open |
| LoginCredentials.OwnValuesIff | electron/loginManager.js:128-136 | Over all next logins and all later events a success carries only values its own login received exactly when the manager starts with no captured header and no earlier window asked for headers |
| LoginManager.Manager.Deliver | electron/loginManager.js:141-425 | Delivering an event to the class is the transition the safety theorem speaks of |
| LoginManager.Manager.StartLogin | electron/loginManager.js:56-109 | Without a config or while a login is active the answer is an immediate failure and nothing changes; otherwise a login begins, with the caller's timeout if one is given, else the configured one; `LoginConduct.TimersWellDelayed` says which delays it gets |
| LoginManager.Manager.Cleanup | electron/loginManager.js:403-425 | Clears every timer whose handle is held, the window, the provider and the captured headers, and marks the login completed |
| TurnStateTable.GuardRefinesLog | open-sse/config/codexTurnState.ts:78-138 | On a clock that does not go back the guard answers, after any run of notes and queries, what the raw events say: the latest note for the trimmed session named another account and is less than two hours old |
| TurnStateTable.AnswerFromLog | open-sse/config/codexTurnState.ts:93-138 | For every run on any clock: the guard is true exactly when the log says so and no later event deleted the expired entry |
| TurnStateTable.CrossByLogIff | open-sse/config/codexTurnState.ts:118-138 | What the log says is what the raw events say: the latest note of the trimmed session is less than 7200000 milliseconds old and names another account than the one asked for |
| TurnStateTable.TableHoldsLog | open-sse/config/codexTurnState.ts:78-138 | After any run the table holds for each session exactly its latest note with its expiry, unless a later event deleted it |
| TurnStateTable.BackwardClockForgets | open-sse/config/codexTurnState.ts:130-137 | On a clock that jumps back the guard and the log can differ |
| TurnStateTable.TableSizeBound | open-sse/config/codexTurnState.ts:33-44 | At every reachable state there are at most as many entries as sessions live at the last sweep plus the writes modulo 256 |
| TurnStateTable.LastSweepIsLast | open-sse/config/codexTurnState.ts:108-111 | The sweep the bound counts from is a sweep, and none came after it |
| TurnStateTable.SweepLeavesLive | open-sse/config/codexTurnState.ts:78-112 | Right after a sweep only live sessions are left, and all of them when the clock does not go back |
| TurnStateTable.EchoPassesOrDrops | open-sse/config/codexIdentity.ts:258-267 | The echo is the first non-blank text, trimmed, under "x-codex-turn-state" in any case, or nothing; and nothing in its place exactly when the client sends a session id whose latest note is less than two hours old and names another account |
| TurnStateTable.ClientSessionIdIs | open-sse/config/codexIdentity.ts:239-247 | The client's session id is the first non-blank text, trimmed, under "session-id" in any case when it has at most 200 legal characters, else the same under "session_id", and there is none exactly when neither exists |
| TurnStateTable.NamedHeaderIsFirst | open-sse/config/codexIdentity.ts:145-158 | Reading a header by name gives the first non-blank text, trimmed, under that name in any case, and nothing exactly when there is none |
| CodexTurnState.Provenance.Note | open-sse/config/codexTurnState.ts:93-112 | Records account and expiry for the trimmed session, counts the write and sweeps on every 256th; the new state is the one the extended log leads to |
| CodexTurnState.Provenance.Sweep | open-sse/config/codexTurnState.ts:78-84 | Deletes exactly the entries expired at the given time |
| CodexTurnState.Provenance.IsCrossAccount | open-sse/config/codexTurnState.ts:121-138 | Answers what the raw events say and leaves the state the extended log leads to |
| CodexTurnState.Provenance.ResolveEcho | open-sse/config/codexIdentity.ts:258-267 | The same of the class: the first echo header passes unless the session the client names was last noted, less than two hours ago, for another account |
| CodexTurnState.Provenance.Bounded | open-sse/config/codexTurnState.ts:33-44 | However long the process runs, the live table obeys the size bound |
| ServerReadiness.WaitForServer | electron/lib/serverReadiness.js:14-56 | The loop with its deadline, capped attempts and capped sleeps ends with the outcome and the attempts of the specification, in every world |
| ServerReadiness.AttemptsOnClock | electron/lib/serverReadiness.js:24-55 | Attempt by attempt: one whose probe answers in time, positively or not, or is refused ends just then; any other lasts its cap, which is the smaller of the request timeout and the time left, plus the lateness of its timer. A positive one is the last; otherwise the next begins after the smaller of the interval and the time left, plus lateness, while time is left |
| ServerReadiness.ReadyIffAnswered | electron/lib/serverReadiness.js:25-43 | Ready is reported exactly when some attempt was answered positively before its cap; that attempt is the last and its end is the end of the poll |
| ServerReadiness.EndsByDeadline | electron/lib/serverReadiness.js:24-55 | The poll ends by start plus timeout, plus at most one late timer, and never gives up before the timeout |
| ServerReadiness.AttemptsRoundedUp | electron/lib/serverReadiness.js:25-52 | At most timeout divided by interval, rounded up, attempts are made |
| ServerReadiness.DetectsServer | electron/lib/serverReadiness.js:24-52 | A server that answers positively within d from some time on is found within one request timeout, one interval, d and two late timers of that time, when the deadline is later, whatever it did before |
| ServerReadiness.SpinsWithoutInterval | electron/lib/serverReadiness.js:25-51 | Without a positive interval, and with time left, a server that refuses at once is probed for ever: after any number of attempts the loop runs on and the clock shows the start |
| ServerReadiness.RunsOnIffAttempts | electron/lib/serverReadiness.js:25-51 | The loop runs on after exactly as many attempts as it makes, less the last |
| ServerReadiness.EndsIff | electron/lib/serverReadiness.js:25-51 | The poll ends in every world exactly when its interval is positive or it has no time at all |
| FreeModelCatalog.DedupedSum | open-sse/config/freeModelCatalog.ts:221-236 | The one-pass sum with a map of pool maxima is the loose rows plus, over the distinct pools, the largest amount of each |
| FreeModelCatalog.PoolMaxIsLeast | open-sse/config/freeModelCatalog.ts:231 | A pool counts with the least amount that is at least 0 and at least each of its rows |
| FreeModelCatalog.DedupedPermutation | open-sse/config/freeModelCatalog.ts:221-236 | The sum does not depend on the order of the rows |
| FreeModelCatalog.DedupedInsert | open-sse/config/freeModelCatalog.ts:221-236 | Adding a row anywhere adds exactly its own amount when loose, its excess over its pool when pooled, and never lowers the sum when the amount is not negative |
| FreeModelCatalog.DedupedRaise | open-sse/config/freeModelCatalog.ts:221-236 | Raising one row raises the sum, and by no more than the raise |
| FreeModelCatalog.SplitByGate | open-sse/config/freeModelCatalog.ts:256-267 | Open and gated figure together are the figure that ignores the gate plus, pool by pool, the smaller of the two sides |
| FreeModelCatalog.SplitLaw | open-sse/config/freeModelCatalog.ts:256-267 | The whole is between the larger of the two figures and their sum, and equals the sum exactly when no pool grants something on both sides |
| FreeModelCatalog.RowFeedsOneFigure | open-sse/config/freeModelCatalog.ts:258-282 | A row moves the one figure of its own bucket and its own side of the gate, by exactly its marginal amount, and no other |
| FreeModelCatalog.MarginalIs | open-sse/config/freeModelCatalog.ts:221-236 | The marginal amount of a row: all of it without a pool, in a pool only what it has beyond the largest row there, or beyond nothing |
| FreeModelCatalog.ComputeFreeModelTotals | open-sse/config/freeModelCatalog.ts:238-325 | Computes all figures of the counted rows, the sorted lists of providers, the rows by falling amount and the headline |
| FreeModelCatalog.FiguresByRegime | open-sse/config/freeModelCatalog.ts:256-285 | What one more counted row changes: a daily, monthly or keyless row everyone may use adds its marginal amount to steady and the two figures above it, a recurring credit to steady with credits and first month only, a one-time credit to first month only; behind a gate a steady row adds to the gated figure only, and other rows to none |
| FreeModelCatalog.ListsByRegime | open-sse/config/freeModelCatalog.ts:269-310 | What one more counted row changes beside the figures: it opens a pool, with its boost, exactly when it is a steady row everyone may use and the first of its pool; its provider joins the uncapped or the gated list by its regime |
| FreeModelCatalog.TotalsShow | open-sse/config/freeModelCatalog.ts:312-325 | With no rows all is 0 and empty; the rows are listed by falling monthly tokens, each as often as it counts; the headline names steady and first month |
| FreeModelCatalog.DisabledIsAbsent | open-sse/config/freeModelCatalog.ts:243-254 | A disabled or excluded row gives exactly the totals of its absence |
| FreeModelCatalog.TotalsPermutation | open-sse/config/freeModelCatalog.ts:250-310 | No figure and no list of providers depends on the order of the catalog, and the list of rows only among equal amounts |
| FreeModelCatalog.TotalsAreNested | open-sse/config/freeModelCatalog.ts:258-285 | Steady is at most steady with credits, which is at most first month; steady and gated bound the figure that ignores the gate |
| Sorting.SortedByIs | open-sse/config/freeModelCatalog.ts:322 | Sorting by a falling number permutes, puts the larger first and keeps the order among equals |
| Sorting.SortNames | open-sse/config/freeModelCatalog.ts:270-274 | Deduplicating and sorting names gives the ascending list of the set |
| Sorting.ListsUnique | open-sse/config/freeModelCatalog.ts:270-274 | There is one ascending list of a set of names |
| GlmProvider.SplitUrlUnique | open-sse/config/glmProvider.ts:277-281 | A URL splits at its first question mark or hash, and the split of base plus suffix is unique |
| GlmProvider.VersionTailUnique | open-sse/config/glmProvider.ts:417 | The anchored version pattern matches at most one suffix, and the model measures exactly that one |
| GlmProvider.StripKnownEndpoint | open-sse/config/glmProvider.ts:391-412 | Strips trailing slashes in a loop, then the one known endpoint suffix, and keeps query and fragment |
| GlmProvider.EndpointStripped | open-sse/config/glmProvider.ts:391-412 | In any letter case, an OpenAI endpoint at the end of a base is taken off whole, and a Messages endpoint together with the version before it |
| GlmProvider.TrailingSlashIgnored | open-sse/config/glmProvider.ts:391-425 | A slash at the end of the base, before query or fragment, makes no difference to the joined URL |
| GlmProvider.JoinKeepsSuffix | open-sse/config/glmProvider.ts:414-425 | Query and fragment of the URL are those of the joined URL, for every path without either |
| GlmProvider.JoinPlain | open-sse/config/glmProvider.ts:414-425 | On a base with no known endpoint, no trailing slash and no version the result is base, path and suffix, with one slash between |
| GlmProvider.JoinVersioned | open-sse/config/glmProvider.ts:417-425 | On such a base that ends in a version, a path that starts with that version, as a whole segment in any case, is joined without it |
| GlmProvider.OpenAiEndpointReplaced | open-sse/config/glmProvider.ts:391-425 | Joining any path after /chat/completions or /models gives what joining that path alone gives, for every URL |
| GlmProvider.MessagesEndpointReplacedIff | open-sse/config/glmProvider.ts:391-425 | For every URL and path, exactly when joining after a Messages endpoint gives what joining alone gives |
| GlmProvider.V1ModelsEndpointReplacedIff | open-sse/config/glmProvider.ts:391-425 | For every URL and path, exactly when joining after /v1/models gives what joining alone gives |
| GlmProvider.AnthropicEndpointReplacedIff | open-sse/config/glmProvider.ts:414-425 | Within the Anthropic endpoints replacement holds exactly for /v1/models, and for the Messages endpoints on bases that end in neither a doubled nor an upper-case /v1 |
| GlmProvider.ReplacementFailures | open-sse/config/glmProvider.ts:414-425 | Two configurable bases on which the replacement fails |
| EmbeddingRegistry.RoundTripIff | open-sse/config/embeddingRegistry.ts:454-485 | A registered model's printed id is read back as itself exactly when no alias rewrites it and: for a provider that goes by its own name, if the model's id carries that prefix, no dynamic provider took it over and the provider does not also list the id without it; for one registered under a name that stands for another, the model's id carries no prefix, and a dynamic provider has the name or the other provider is not registered and no earlier key matches |
| EmbeddingRegistry.PlainRoundTripIff | open-sse/config/embeddingRegistry.ts:502-540 | The same for ids that no alias rewrites |
| EmbeddingRegistry.RewrittenNeverBack | open-sse/config/embeddingRegistry.ts:445-464 | An id rewritten by the alias table is never read back as itself, whatever else is registered |
| EmbeddingRegistry.ModelAliasesAre | open-sse/config/embeddingRegistry.ts:445-464 | The omni family stands for its small model, bare and behind any prefix |
| EmbeddingRegistry.GoogleAliasesAre | open-sse/config/embeddingRegistry.ts:445-464 | The two models of the google name are those of gemini |
| EmbeddingRegistry.OtherIdsKept | open-sse/config/embeddingRegistry.ts:454-464 | No other id is rewritten |
| EmbeddingRegistry.ProviderAliasesAre | open-sse/config/embeddingRegistry.ts:434-468 | Three names stand for a provider of another name, every other name for itself |
| EmbeddingRegistry.BareIdParses | open-sse/config/embeddingRegistry.ts:542-601 | An id without a prefix, after the alias table, belongs to the first provider that lists it, and to none exactly when nobody does |
| EmbeddingRegistry.PrefixedIdParses | open-sse/config/embeddingRegistry.ts:502-540 | A prefix names the dynamic provider of that name first, then the registered provider, directly or by another name, with the model the rest means there; one that names nobody is taken as it stands |
| EmbeddingRegistry.EveryListedIdParses | open-sse/config/embeddingRegistry.ts:586-681 | With distinct, slash-free provider ids, exactly when a listed id is read back as its provider and registered model, whatever dynamic providers there are |
| EmbeddingRegistry.GetAllEmbeddingModels | open-sse/config/embeddingRegistry.ts:663-681 | The nested loops list every model of every provider once, in order, with its printed id |
| EmbeddingRegistry.ListingIsComplete | open-sse/config/embeddingRegistry.ts:663-681 | At the place counted from the providers before it stands each model of each provider, with its name and dimensions, and the listing has no more |
| RegistryUtils.RoundTripIff | open-sse/config/registryUtils.ts:52-66 | A printed id, in id or alias form, is read back as its provider and model exactly when no earlier provider answers to the prefix |
| RegistryUtils.EveryListedIdParses | open-sse/config/registryUtils.ts:52-107 | With slash-free, distinct ids and aliases every printed id is read back as its provider and model, and it is what the listing shows exactly when no extra field puts something else in its place |
| RegistryUtils.BareIdParses | open-sse/config/registryUtils.ts:52-76 | An id without a known prefix belongs to the first provider that lists it, and to none exactly when nobody does or that provider has an empty id |
| RegistryUtils.BuildIndex | open-sse/config/registryUtils.ts:35-43 | The first-wins index answers every model id as the linear scan does, absent ids included |
| RegistryUtils.IndexCache.GetRegistryModelIndex | open-sse/config/registryUtils.ts:31-46 | The index is built once for each registry, kept, and always right |
| RegistryUtils.IndexCache.ParseModelFromRegistry | open-sse/config/registryUtils.ts:52-76 | Whatever calls came before, parsing answers as it would with a linear scan |
| RegistryUtils.GetAllModelsFromRegistry | open-sse/config/registryUtils.ts:82-107 | Lists every model under its provider's id and alias, in order, with the extra fields laid over each entry |
| RegistryUtils.ListingIsComplete | open-sse/config/registryUtils.ts:82-107 | At the place counted from what is before it stands each model of each provider under each of its prefixes, with printed id, name and provider unless an extra field replaces one, and the listing has no more |
| RegistryUtils.PrefixesAre | open-sse/config/registryUtils.ts:88-100 | The prefixes of a provider are its id, then its alias, when they are not empty |
| AnthropicHeaders.MergeClientAnthropicBeta | open-sse/config/anthropicHeaders.ts:86-117 | The base tokens, then the client tokens that are allowed, not among the base and the first of their kind, in client order |
| AnthropicHeaders.MergeHomomorphism | open-sse/config/anthropicHeaders.ts:86-117 | Merging two client lists one after the other is merging their concatenation |
| AnthropicHeaders.MergeIdempotent | open-sse/config/anthropicHeaders.ts:86-117 | Merging the same client list again changes nothing |
| AnthropicHeaders.MergeAddsAllowedKinds | open-sse/config/anthropicHeaders.ts:71-75 | Base first and in order; the kinds of the result are those of the base and the allowed ones of the client, each new kind once |
| AnthropicHeaders.AppendedAreFirst | open-sse/config/anthropicHeaders.ts:105-116 | Each appended token is a client token as the client wrote it, the first of its kind, and they stand in client order |
| AnthropicHeaders.AllowSetIs | open-sse/config/anthropicHeaders.ts:92-104 | A kind may be forwarded exactly when the allow-list has it up to case and it is not the long-context beta for a model known not to take it |
| AnthropicHeaders.LongContextGated | open-sse/config/anthropicHeaders.ts:77-104 | The long-context beta is never added for a model known not to take it |
| AnthropicHeaders.TokensOfJoin | open-sse/config/anthropicHeaders.ts:92-116 | Reading back a printed token list gives the list |
| CliFingerprints.OrderHeaders | open-sse/config/cliFingerprints.ts:232-262 | The lookup table, the deletions and the two appending loops return the last entry of each kind of name once, those of the order first and in that order, the others by first appearance; with an empty order the input |
| CliFingerprints.OrderFields | open-sse/config/cliFingerprints.ts:206-226 | The fields are permuted: those of the order first and in that order, the others as they stood, also when the order names a field twice |
| CliFingerprints.OrderedKeepsLast | open-sse/config/cliFingerprints.ts:241-262 | The result has each kind of name once and carries the last entry of that kind |
| CliFingerprints.OrderedFollows | open-sse/config/cliFingerprints.ts:247-259 | Names of the given order come first and in that order, the rest in order of first appearance |
| CliFingerprints.OrderedPermutes | open-sse/config/cliFingerprints.ts:206-262 | Without two entries of one kind the result is a permutation |
| CliFingerprints.OrderedIdempotent | open-sse/config/cliFingerprints.ts:206-262 | Ordering again changes nothing |
| CliFingerprints.HeadersDistinctIff | open-sse/config/cliFingerprints.ts:236 | Names that agree up to case survive exactly when the order is empty and the input has them |
| CodexIdentity.DeriveStableUuidV4 | open-sse/config/codexIdentity.ts:62-74 | Overwriting bytes 6 and 8 of the buffer and printing its five slices gives the dashed form of the fixed 16 bytes |
| CodexIdentity.StableUuidIsValid | open-sse/config/codexIdentity.ts:45-74 | Every derived UUID is accepted unchanged by the validator |
| CodexIdentity.UuidKeepsDigest | open-sse/config/codexIdentity.ts:61-74 | Decoding it gives version 4 and the variant of section 4.4 of RFC 4122, and the digest's own bits everywhere else |
| CodexIdentity.SameUuidIff | open-sse/config/codexIdentity.ts:61-74 | Two digests give the same UUID exactly when their first 16 bytes agree on all but those six bits |
| CodexIdentity.LegacyUuidIsValid | open-sse/config/codexIdentity.ts:55-59 | The legacy layout is accepted too, and keeps all but two of the digest's first 32 digits |
| CodexIdentity.EnsureCodexFingerprintSeed | open-sse/config/codexIdentity.ts:120-143 | Stores under every other key what came in, under the seed key the existing seed or else, when the mode needs one, the random one, for OAuth saves only, and stores nothing exactly when nothing is left |
| CodexIdentity.InboundSeedIgnored | open-sse/config/codexIdentity.ts:109-127 | What a client sends under the seed key makes no difference |
| CodexIdentity.SavedKeepsFields | open-sse/config/codexIdentity.ts:120-143 | A save keeps every field other than the seed as it came in and adds none |
| CodexIdentity.SeedStored | open-sse/config/codexIdentity.ts:91-143 | Along any run of saves the stored seed is the one followed without the data around it |
| CodexIdentity.SeedSurvivesIff | open-sse/config/codexIdentity.ts:128-135 | A seed is there after later saves, whatever their modes, exactly when none of them lacked OAuth credentials |
| CodexIdentity.SeedOrigin | open-sse/config/codexIdentity.ts:132-141 | A stored seed was there from the start or is the random UUID of the one save that needed and lacked it, and only OAuth saves followed |
| CodexIdentity.SeedPresentWhenNeeded | open-sse/config/codexIdentity.ts:137-141 | After an OAuth save whose mode needs a seed there is one |
| CodexIdentity.IdsAreStable | open-sse/config/codexIdentity.ts:211-237 | Once a seed is stored the session id, and the thread id of every client session, stay the same along OAuth saves, whatever else changes |
| CodexIdentity.SessionIdIs | open-sse/config/codexIdentity.ts:211-222 | The session id is the UUID of the seed behind its prefix, or without a valid seed of the account behind another |
| CodexIdentity.ThreadIdIs | open-sse/config/codexIdentity.ts:224-237 | The thread id is the same with the client session behind it, and empty without one |
| CodexIdentity.AccountSeedIs | open-sse/config/codexIdentity.ts:76-88 | The account is the key at hand, else the first of connection, workspace, account and email that holds a text, else "default" |
| CodexIdentity.SeedOfIs | open-sse/config/codexIdentity.ts:90-95 | The seed is the trimmed text under its key when that is a UUID, and there is none otherwise |
| CodexIdentity.NeedsSeedIff | open-sse/config/codexIdentity.ts:171-185 | A save needs no seed exactly when the mode field, or when that is blank the legacy one, says "off" in any case |
| CodexIdentity.IsOAuthIff | open-sse/config/codexIdentity.ts:160-169 | Credentials are OAuth credentials exactly when one of the two tokens is a non-blank text |
| ToolCloaking.StripKeepsPaths | open-sse/config/toolCloaking.ts:15-30 | The result has exactly the places whose path avoids the key, each with the stripped tree that stood there |
| ToolCloaking.StripKeepsOrder | open-sse/config/toolCloaking.ts:22-27 | The keys that stay keep their order |
| ToolCloaking.StripIsClean | open-sse/config/toolCloaking.ts:15-30 | No object at any depth of the result has the key |
| ToolCloaking.CleanIffNoBannedPath | open-sse/config/toolCloaking.ts:15-30 | A tree is clean exactly when no place in it has a path through the key |
| ToolCloaking.StripFixesIffClean | open-sse/config/toolCloaking.ts:15-30 | Exactly the trees without the key are left as they are; stripping again changes nothing |
| ToolCloaking.SanitizeAntigravityToolPayload | open-sse/config/toolCloaking.ts:39-85 | The loops with their change flags compute the rewrite of every declaration's parameters, and nothing else |
| ToolCloaking.SanitizedByPath | open-sse/config/toolCloaking.ts:32-85 | Below a declaration's parameters the stripped tree; everywhere else the same scalars, lengths and keys in the same order |
| ToolCloaking.SanitizedParametersClean | open-sse/config/toolCloaking.ts:53-64 | Every declaration's parameters are free of the key |
| ProviderModels.GetGlobalModel | open-sse/config/providerModels.ts:107-146 | The three phases with their loops, sort and running best compute the specified choice |
| ProviderModels.GlobalModelIsBest | open-sse/config/providerModels.ts:107-146 | An exact match if there is one, else a basename match, each the earliest of the richest of the providers' first matches; else the earliest of the longest, then richest, prefixes of the basename |
| ProviderModels.EarliestBestUnique | open-sse/config/providerModels.ts:115-142 | There is one earliest best entry, so the choice is determined |
| ProviderModels.SortHead | open-sse/config/providerModels.ts:115-126 | The stable sort by falling richness is a permutation whose head is the earliest of maximal richness |
| ProviderModels.FindByIdIsFirst | open-sse/config/providerModels.ts:111 | A provider's match is its earliest model with that id, and there is none only when no model has it |
| ProviderModels.RichnessIs | open-sse/config/providerModels.ts:94-105 | What each capability of a model adds to its richness |
| ProviderModels.BasenameIs | open-sse/config/providerModels.ts:119 | The basename is what follows the last slash, and the whole id when nothing does |
| ProviderModels.ExactLookupAgrees | open-sse/config/providerModels.ts:158-171 | The exact lookup answers exactly when the choice need not guess by prefix, and then both name the same id; it gives the first match in catalog order, of the id if there is one, else of the basename |

## Left out

- Electron windows, tray, inter-process calls, updates and process spawning: operating-system plumbing.
- Durations of the login's timers are recorded but do not order events: every interleaving is allowed, which includes all timed ones.
- Exceptions thrown by status listeners, listeners that call back into the manager, and the rejected promise (`rejectPromise` is never used).
- Texts of the login's intermediate statuses are abbreviated; those of final statuses are exact.
- The page script of the login: what it returns is an arbitrary record, so which storage it reads is not modelled.
- FreeModelCatalog.Headline: the printing of amounts (rounding, "M" and "B") is a parameter.
- Token amounts are integers; floating-point rounding of amounts beyond 2^53 is not modelled.
- GlmProvider.JoinBaseAndPath: `addBetaQuery` and the URL builders around it rest on the WHATWG `URL` class and are not part of this model.
- EmbeddingRegistry.Parse: dynamic providers are given by their ids; dimensions conflicts and default parameters are lookups that add nothing hard.
- AnthropicHeaders: `normalizeAnthropicHeaderVariants` and `uniqueCommaValues`; context1m.ts is not part of this model, its predicate is a parameter.
- CliFingerprints: user-agent overrides, the fingerprint tables and the cache of enabled providers.
- CodexIdentity: installation ids, turn metadata and the functions that write ids into headers and bodies.
- TurnStateTable: a `Headers` instance is the special case of a record with distinct lower-case names.
- RegistryUtils: authentication headers.
- ProviderModels: alias tables, effort suffixes and the Proxy around the catalogs.
- Numeric and prototype keys of JavaScript objects, and letters and case outside ASCII.
