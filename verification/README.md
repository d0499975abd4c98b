# Router runtime: model and proofs

A Dafny 4.11 model of the event-sourcing router runtime of the Rust client and of the handler bodies
its attribute macros generate. `dafny verify dfyconfig.toml` checks the whole project.

A handler is data: a table of arms (a key, here a type URL or a rejection key, and a user method with
the decoder of its message), from which both the config the router reads and the body the handler runs
are derived. User methods and message decoders are arbitrary functions. A factory is its kind, its
config and what a fresh instance answers to a request, given the requests it saw before. A router is a
list of factories.

The loops of the source are methods with invariants, proved equal to a function of their inputs built
from five combinators (`FoldM`, `Traverse`, `Filter`, `FlatMap`, `FirstOccurrences`); the laws are then
proved about those functions, for all handlers, messages and lists.

| file | content |
|---|---|
| `Foundations.dfy` | Option, Result, the list combinators and their laws, arm tables |
| `Proto.dfy`, `Handlers.dfy` | wire messages, configs, requests, responses, errors, factories |
| `Rebuilding.dfy`, `CommandHandlers.dfy` | the `#[applies]` loop; command, rejection, fact and replay bodies |
| `CommandRouting.dfy`, `CommandSelection.dfy`, `ReplayRouting.dfy`, `Building.dfy` | command routing and rejection fan-out, which handlers they reach, replay and fact routing, `Router::build` |
| `Sagas.dfy`, `ProcessManagers.dfy`, `Projectors.dfy`, `Upcasters.dfy` | the four other routers and generated bodies |
| `OutputDomains.dfy`, `DestinationSequences.dfy`, `IdempotencyKeys.dfy` | probed domains, sequence stamping, idempotency and cache keys |
| `Retrying.dfy`, `Readiness.dfy` | backoff arithmetic and the two retry loops; the readiness protocol |
| `Metadata.dfy` | `collect_method_metadata` |

## What the proofs found

- **Checkpoints.** A replay returns a state meant to be used as a snapshot, but an empty `Any.value`
  is read as no snapshot. `CheckpointLaw` gives the exact condition: a replay may be cut at a state, for
  every continuation, if and only if that state encodes to at least one byte or is the initial state.
  `CheckpointCounterexample` is an aggregate with a `#[state_factory]` that breaks it;
  `DefaultInitialStateCheckpoints` shows that without one the law always holds.
- **Gates.** `supports_replay` and `supports_handle_fact` ask whether any handler opted in; dispatch goes to
  the first command handler. `ReplayRouting.Replay` states exactly when an open replay gate is followed by a
  refusal. The fact gate fails quietly: a fact is lost, alone or among others, if and only if the first
  command handler does not declare its type (`LostExactly`), so that no declared fact is lost if and only if
  it declares every type any of them does (`NoFactLostExactly`). `LaterFactIsLost` and `LaterOptInIsRefused`
  are routers that `build` accepts and whose two registration orders answer differently.
- **Keys.** Idempotency keys separate sources whose edition names hold no ':'. `KeyUniqueExactly` is the exact
  condition for a key to be unique among all sources: neither the edition nor the domain holds a ':'. For
  cache keys (`CacheKeyUniqueExactly`) a ':' that ends the domain is harmless, because what would follow it
  is empty and an empty domain is replaced by "unknown".
- **Upcasters.** A second dispatch of a successful result may change it (`ReversedRegistrationIsNotFixed`).
  `UpcastFixedExactly` gives the exact condition on the configs, `Settled`: no declared input type leaves the
  chain as a type that a handler of the domain still takes as input. It is a finite check a caller can make
  before building the router. Registration in version order suffices (`VersionOrderSettles`) and is not
  needed (`SettledOutOfVersionOrder`).
- **Rejections.** The fan-out keeps only `Events` results, so a `Revocation` adds no pages. The command's
  sequence is re-stamped only when prior events are present: without them the handlers get no sequence,
  and `Threaded` then only tracks the running value that ends up in the merged book.
  Generated handlers never read that sequence when they are rejected, so their fan-out is a plain merge and
  any registration order merges the same pages and ends at the same sequence (`RejectionAnyOrder`).
- **Rebuild.** Command, fact and process-manager dispatch never look at the snapshot of an event book;
  only replay reads one.

## Assumptions

- Factories are deterministic; `decode(encode(s)) == s` for state messages, as the predicate `RoundTrips`.
- `running_seq += len as u32` wraps modulo 2^32, as in a release build (a debug build panics instead);
  `ThreadingWithoutWrap` gives the plain sums while the total fits.
- The jitter scale is any real in [1/2, 1].
- `sync_targets` is a subset of `targets`, which the macro checks: `SyncTargetsDeclared`.
- The readiness protocol is safe with respect to `mark_bound`; on TCP that call precedes the actual bind.
  The statuses a new health reporter starts with belong to its library and are arbitrary in the model.
  `LossStep` stands for a panic in `run_kind` or for its future being dropped.

## Model

| member | source | states |
|---|---|---|
| Rebuilding.RebuildAppend | angzarr-macros/src/lib.rs:593-605 | Rebuild is a homomorphism over concatenation: two stretches of events, errors included, are the second on top of the first |
| Rebuilding.RebuildIgnoresOtherPages | angzarr-macros/src/lib.rs:275-297 | Rebuild depends only on the subsequence of event pages whose type has an `#[applies]` arm |
| Rebuilding.RebuildDecodesThenApplies | angzarr-macros/src/lib.rs:467-478 | The interleaved decode-and-apply loop equals decoding every applicable page with its first declared arm, then a plain left fold of the apply methods |
| Rebuilding.RebuildFailsAlike | angzarr-macros/src/lib.rs:283-291 | Rebuild fails only with a decode error, and from every starting state with the same one |
| CommandHandlers.DispatchCommand | angzarr-macros/src/lib.rs:558-688 | The generated command body: missing layers, rebuild, rejection arm or empty compensation, command arm or no-handler error |
| CommandHandlers.DispatchFact | angzarr-macros/src/lib.rs:459-499 | The generated fact body computes `RunFact`, whose meaning `FactsAreIndependent` gives |
| CommandHandlers.DispatchReplay | angzarr-macros/src/lib.rs:367-440 | The generated replay body: opt-out, base snapshot or initial state, apply loop, packed state |
| CommandHandlers.FactsAreIndependent | angzarr-macros/src/lib.rs:480-498 | Every fact is handled in the state the prior events leave; the result is the concatenation of what each emits alone, or the first fact's error |
| CommandHandlers.DeclaredFactRunsItsArm | angzarr-macros/src/lib.rs:331-355 | A declared fact alone in a request is decoded and handled by the first arm declared for its type in the rebuilt state: a decode error, a rejection, or a book of all the pages the method returned |
| CommandHandlers.OnlyDeclaredFactsMatter | angzarr-macros/src/lib.rs:483-495 | Facts without a `#[handles_fact]` arm might as well not be sent |
| CommandHandlers.OnlyApplicablePagesMatter | angzarr-macros/src/lib.rs:588-605 | Books agreeing on applicable pages are interchangeable for command, fact and replay dispatch, whatever snapshot or other pages they carry |
| CommandHandlers.OneRebuild | angzarr-macros/src/lib.rs:389-398 | Command, fact and snapshot-less replay stop with the same first decode error on the same applicable pages or go on from the same state |
| CommandHandlers.ReplayAnswer | angzarr-macros/src/lib.rs:400-420 | A replay is answered with the encoding of the plain fold over the decoded events, from the decoded snapshot or the initial state, under the state's type URL |
| CommandHandlers.BadSnapshot | angzarr-macros/src/lib.rs:377-384 | A snapshot state that does not decode ends the replay before any event |
| CommandHandlers.FallbackAnswers | angzarr-macros/src/lib.rs:666-688 | Without a matching arm a command gives the no-handler error and a rejection an empty compensation |
| CommandHandlers.CheckpointLaw | angzarr-macros/src/lib.rs:367-421 | Replaying xs, taking the returned state as snapshot and replaying ys agrees with replaying xs ++ ys for every ys, if and only if the intermediate state encodes to some bytes or is the initial state |
| CommandHandlers.FailedReplayStaysFailed | angzarr-macros/src/lib.rs:389-398 | A replay that fails on xs fails with the same error on every extension of xs |
| CommandHandlers.DefaultInitialStateCheckpoints | angzarr-macros/src/lib.rs:299-307 | With the all-default initial state every replay may be checkpointed anywhere |
| CommandHandlers.CheckpointCounterexample | angzarr-macros/src/lib.rs:377-385 | With a `#[state_factory]` the law fails: a state that encodes to no bytes is read back as the initial one |
| ReplayRouting.DispatchReplay | src/router/runtime.rs:736-756 | The first command handler answers the replay, whatever is registered after it; with none, an empty response |
| ReplayRouting.DispatchFact | src/router/runtime.rs:709-732 | The first command handler answers the fact request; with none, an empty book |
| ReplayRouting.FirstAnswerKinds | src/router/runtime.rs:719-753 | The first command handler's answer is passed on if it is of the right kind; its error, or an answer of another kind, is reported as such |
| ReplayRouting.SupportsReplay | src/router/runtime.rs:684-696 | The replay gate is open exactly when some command handler opted in |
| ReplayRouting.SupportsHandleFact | src/router/runtime.rs:669-679 | The fact gate is open exactly when some command handler declares facts |
| ReplayRouting.RefusedExactlyWhenOptedOut | angzarr-macros/src/lib.rs:422-440 | A generated aggregate gives the not-supported error exactly when it did not opt in |
| ReplayRouting.GeneratedHonoursOptIn | angzarr-macros/src/lib.rs:501-511 | A generated aggregate honours its own flag for every replay request |
| ReplayRouting.Replay | src/handler.rs:76-94 | Turned away exactly when nobody opted in; otherwise the first command handler answers, and if it honours its flag the request is refused behind the open gate exactly when only later handlers opted in |
| ReplayRouting.UndeclaredFactsVanish | angzarr-macros/src/lib.rs:480-498 | A generated aggregate given facts of undeclared types only rebuilds, then answers with an empty book |
| ReplayRouting.GeneratedSkipsUndeclared | angzarr-macros/src/lib.rs:480-498 | A generated aggregate answers every fact request as if the facts it declares no arm for had not been sent |
| ReplayRouting.HandleFact | src/handler.rs:55-74 | Turned away exactly when no handler declares facts; otherwise the first command handler answers, and if it skips undeclared facts, as generated ones do, its answer to any request, mixed or not, is that to the declared facts alone |
| ReplayRouting.LostExactly | src/router/runtime.rs:709-732 | A fact makes no difference to the router's answer in any request, whatever the methods of the first command handler do, if and only if that handler's config does not declare its type |
| ReplayRouting.NoFactLostExactly | src/router/runtime.rs:669-679 | No fact declared by some command handler is lost if and only if the first one declares every fact type any of them declares |
| ReplayRouting.FactGateIsAboutPages | src/router/runtime.rs:669-679 | The fact gate is open if and only if some page is declared by some command handler |
| ReplayRouting.LaterFactIsLost | src/router/runtime.rs:713-728 | In a router `build` accepts, both handlers declaring facts, the second one's fact comes back as an empty success, and with its page in the other order |
| ReplayRouting.LaterOptInIsRefused | src/router/runtime.rs:740-754 | In a router `build` accepts every replay is refused behind the open gate, and never refused in the other order |
| CommandRouting.Dispatch | src/router/runtime.rs:53-117 | Command dispatch is first match on (domain, type URL); a Notification goes to the rejection fan-out |
| CommandSelection.FirstDeclaringAnswers | src/router/runtime.rs:65-98 | A command is answered by the first factory with a handled entry for its first page's type URL and with the cover's domain ("" without a cover); its error, or an answer of another kind, is reported as such |
| CommandSelection.UndeclaredCommand | src/router/runtime.rs:100-117 | Without such a factory the error names the cover's domain, or "<missing>" |
| CommandSelection.IncompleteCommand | src/router/runtime.rs:248-276 | A missing book, page or command payload is reported, in that order |
| CommandRouting.DispatchRejection | src/router/runtime.rs:123-168 | The fan-out loop computes the monadic fold whose meaning `RejectionThreading` gives |
| CommandRouting.RejectionThreading | src/router/runtime.rs:126-168 | The fan-out succeeds if and only if the matched handlers have a threaded list of turns (turn k gets the start advanced by all earlier pages); pages and next sequence are then exactly those of the turns, in registration order |
| CommandSelection.RejectionTurnsByIndex | src/router/runtime.rs:133-167 | The turns belong to exactly the command handlers whose rejected list has the key at some place, in registration order, from the prior events' next sequence; the merged book holds their pages and a next sequence advanced modulo 2^32 |
| CommandSelection.DeclaredRejectionIsMerged | angzarr-macros/src/lib.rs:309-325 | A key at any place of a generated handler's rejected arms: the first arm for it ran on the notification, and its pages are in the merged book |
| CommandRouting.ThreadingWithoutWrap | src/router/runtime.rs:160 | While the total fits in u32 handler k receives the initial sequence plus the pages of all earlier turns, and the final one is initial plus all pages |
| CommandRouting.RejectionSplit | src/router/runtime.rs:133-167 | With prior events the run over A ++ B is A followed by B on the command re-stamped with A's result, pages concatenated, first error kept |
| CommandRouting.RejectionSplitWithoutEvents | src/router/runtime.rs:146-149 | Without prior events nothing is stamped: both halves run on the same command, pages concatenated, the sequence advanced by both |
| CommandRouting.GeneratedIgnoresSequence | angzarr-macros/src/lib.rs:607-678 | A generated handler answers a notification alike whatever sequence it is stamped with |
| CommandRouting.RejectionIsPlainMerge | src/router/runtime.rs:133-167 | With such handlers the threaded fan-out is a plain merge of their answers to the incoming command |
| CommandRouting.RejectionAnyOrder | src/router/runtime.rs:123-168 | With such handlers a permutation of a router that answers a notification answers too, with the same multiset of pages and exactly the same next sequence |
| CommandRouting.SameRejectionKey | src/router/runtime.rs:175-244 | The router's and the handler's separately written key extraction give the same key or the same error |
| CommandSelection.RejectionKeyByFields | src/router/runtime.rs:201-244 | From the fields: the rejected command's cover domain or "", and what follows the last '/' and '.' of its first page's type URL or ""; a payload that does not decode is reported as such |
| CommandRouting.SelectedHandlerRunsItsArm | angzarr-macros/src/lib.rs:244-273 | A handler selected for a command, past rebuild, decodes and runs the first arm declared for the URL with the prior next sequence; its no-handler fallback is unreachable |
| CommandRouting.SelectedRejectionRunsItsArm | angzarr-macros/src/lib.rs:309-325 | A handler selected for a rejection key runs its first arm for that key on the decoded notification; the empty-compensation fallback is unreachable |
| CommandRouting.EntryFiresExactlyUnqualified | src/router/runtime.rs:233-242 | A `#[rejected]` entry is the key of some notification exactly when its command name holds neither '.' nor '/'; any other entry is the key of none |
| Handlers.AfterLastSplits | src/router/runtime.rs:234-239 | The suffix taken by `rsplit(..).next()` is what follows the last separator |
| Building.Router.constructor | src/router/builder.rs:44-49 | A new builder holds no factories |
| Building.Router.WithHandler | src/router/builder.rs:63-73 | Registration appends |
| Building.Router.Build | src/router/builder.rs:87-166 | Build succeeds if and only if the list is non-empty, of one kind and, for command handlers, all (domain, type URL) keys across handlers are distinct; each error names the first offender |
| Building.NoDuplicateKeysByFields | src/router/builder.rs:116-142 | The keys are distinct if and only if no two places in the configs declare the same domain and type URL |
| Building.BuildableAnyOrder | src/router/builder.rs:99-142 | A permutation of an accepted list is accepted, with the same kind |
| Building.DispatchIsLookup | src/router/runtime.rs:74-98 | With distinct keys, dispatch is answered by the one handler that has the key |
| Building.CommandDispatchAnyOrder | src/router/builder.rs:113-142 | Every permutation of an accepted command-handler list dispatches every non-Notification command to the same result |
| Building.SharedKeyFollowsOrder | src/router/runtime.rs:74-98 | Of two handlers sharing a key the first registered answers, so without the check order would show; build rejects the pair |
| Sagas.Dispatch | src/router/runtime.rs:293-355 | The merging loop equals: the answers of the subscribed sagas in order, merged component-wise, or the first error |
| Sagas.SagaByFields | src/router/runtime.rs:301-340 | From the fields: exactly the sagas whose source is the source cover's domain and whose handled list has the last page's type answer, in order; all their commands and events are concatenated, or the first to fail ends it |
| Sagas.ForeignTypeRefused | src/router/runtime.rs:386-396 | A type URL outside "type.googleapis.com/" is refused |
| Sagas.IncompleteSource | src/router/runtime.rs:362-385 | A missing source, an empty one, and a last page without an event are refused |
| Sagas.UnhandledEvent | angzarr-macros/src/lib.rs:1151-1158 | A generated saga without an arm for the event answers with nothing |
| Sagas.GeneratedSagaDeclares | angzarr-macros/src/lib.rs:1088-1097 | A generated saga's config subscribes to its declared source and arms, and shows its declared target and sync flag |
| Sagas.SelectedSagaRunsItsArm | angzarr-macros/src/lib.rs:1122-1158 | A selected generated saga decodes the last page's event and runs the first arm declared for it; the empty response is unreachable |
| Sagas.SagaSplit | src/router/runtime.rs:309-354 | Dispatch over A ++ B is the component-wise concatenation of dispatch over A and over B; the first error wins |
| Sagas.OnlySubscribersMatter | src/router/runtime.rs:314-325 | Removing non-matching factories changes nothing |
| Sagas.SagaAnyOrder | src/router/runtime.rs:338-339 | Permuting the factories of a successful dispatch preserves success and the multisets of commands and events |
| Sagas.GeneratedSagaReadsOnlyTrigger | angzarr-macros/src/lib.rs:1122-1149 | A generated saga answers equally for books that agree on their cover and last page |
| Sagas.OnlyLastPageMatters | src/router/runtime.rs:358-398 | For a router of such sagas all but the last page of the source book is irrelevant |
| ProcessManagers.DispatchPm | angzarr-macros/src/lib.rs:1444-1494 | The generated body: rebuild over the process state, then one arm on the last trigger page |
| ProcessManagers.PmRebuild | angzarr-macros/src/lib.rs:1445-1456 | The process-manager rebuild depends on the applicable pages of the process state alone; its decode error comes before any trigger error |
| ProcessManagers.SelectedPmRunsItsArm | angzarr-macros/src/lib.rs:1337-1362 | A selected generated process manager runs the first arm declared for the trigger on the rebuilt state; the empty response is unreachable |
| ProcessManagers.Dispatch | src/router/runtime.rs:413-484 | The merging loop equals: the answers of the subscribed process managers in order, merged component-wise, or the first error |
| ProcessManagers.PmByFields | src/router/runtime.rs:424-469 | From the fields: exactly those that list the trigger cover's domain and handle the last page's type answer, in order; all three parts are concatenated, or the first to fail ends it |
| ProcessManagers.ForeignTypeRefused | src/router/runtime.rs:515-525 | A type URL outside "type.googleapis.com/" is refused |
| ProcessManagers.IncompleteTrigger | src/router/runtime.rs:491-514 | A missing trigger, an empty one, and a last page without an event are refused |
| ProcessManagers.UnhandledEvent | angzarr-macros/src/lib.rs:1488-1494 | A generated process manager without an arm for the trigger rebuilds and answers with nothing |
| ProcessManagers.GeneratedPmDeclares | angzarr-macros/src/lib.rs:1408-1418 | A generated process manager's config subscribes to its declared sources and arms, and shows its declared targets and sync targets |
| ProcessManagers.PmSplit | src/router/runtime.rs:432-483 | Dispatch over A ++ B is the component-wise concatenation of commands, facts and process events |
| ProcessManagers.OnlySubscribersMatter | src/router/runtime.rs:437-448 | Removing non-matching factories changes nothing |
| ProcessManagers.PmAnyOrder | src/router/runtime.rs:466-468 | Permuting the factories of a successful dispatch preserves success and the three multisets |
| ProcessManagers.GeneratedPmReadsOnlyTrigger | angzarr-macros/src/lib.rs:1458-1486 | A generated process manager reads its process state, the trigger cover and the last trigger page only |
| ProcessManagers.OnlyLastPageMatters | src/router/runtime.rs:487-527 | For a router of such process managers all but the last page of the trigger book is irrelevant |
| Projectors.RunProjector | angzarr-macros/src/lib.rs:1651-1660 | The generated page loop computes the fold `Project`, whose meaning `EventsSeenOnce` and `PageFeedRefinesWholeBook` give |
| Projectors.Match | src/router/runtime.rs:567-582 | The instances held are those of projectors listening to the cover's domain, to "*", or to anything when the book has no cover |
| Projectors.InstancesByIndex | src/router/runtime.rs:567-582 | The instances held are, in order, exactly the projectors for which there is no cover or some declared domain equals the cover's or "*" |
| Projectors.DispatchByIndex | src/router/runtime.rs:588-618 | By position: dispatch succeeds exactly when every projector held accepts every page, each was then given one book a page with the cover, snapshot and next sequence of the whole, and otherwise the error is that of some page |
| Projectors.AnswerKinds | src/router/runtime.rs:596-605 | An answer of another kind is an error; of a projection only the kind is looked at |
| Projectors.FeedGenerated | src/router/runtime.rs:588-618 | A generated projector is fed exactly in those cases; a successful dispatch then leaves it where the whole book would, and a book it fails on makes the dispatch fail |
| Projectors.ProjectedPage | angzarr-macros/src/lib.rs:1589-1602 | A page is decoded and projected by the first arm for its type; decode errors and rejections are reported, other pages skipped |
| Projectors.PositionIsPageMajor | src/router/runtime.rs:588-606 | Before delivery t over m projectors, all m got each earlier page |
| Projectors.Dispatch | src/router/runtime.rs:556-618 | Succeeds exactly when every matched projector fed alone would accept every page; deliveries are page-major up to and including the failing one, whose error is returned; each instance got a prefix of the single-page books, all of them on success |
| Projectors.Lockstep | src/router/runtime.rs:588-607 | At every point of a run, error exits included, an earlier matched projector is zero or one page ahead of a later one |
| Projectors.PageFeedRefinesWholeBook | src/router/runtime.rs:588-607 | A generated projector fed page by page succeeds exactly when it would on the whole book given once, and ends in the same state |
| Projectors.EventsSeenOnce | angzarr-macros/src/lib.rs:1584-1605 | Any projector fed page by page and successful had its methods called with exactly the handled events of the book, decoded by the first arm of their type, each once and in book order; logging the calls changes neither state nor error |
| Upcasters.DispatchUpcaster | angzarr-macros/src/lib.rs:1951-1972 | The generated loop gives the page-wise transform, or the first page's error |
| Upcasters.Dispatch | src/router/upcaster.rs:73-125 | The nested loops give each page's chain through the handlers of the domain, or the first error |
| Upcasters.TurnByFields | src/router/upcaster.rs:93-118 | Only an upcaster of the domain is asked about a page; its first page replaces it, an empty answer leaves it, and errors and answers of another kind end the dispatch |
| Upcasters.LoopInterchange | src/router/upcaster.rs:77-122 | The page-by-page chain succeeds exactly when running each handler in order over the whole list does, with the same events |
| Upcasters.UpcastConserves | angzarr-macros/src/lib.rs:1897-1909 | As many pages in the same order, each with unchanged header, created_at, no_commit and cascade_id; pages without an event unchanged; output types reached along the declared pairs in registration order |
| Upcasters.UpcastActsOnPayloads | angzarr-macros/src/lib.rs:1883-1912 | The router is a function on payloads: each is decoded, upcast and encoded by the first declared arm of each handler in turn, and dispatch succeeds exactly when every event payload passes |
| Upcasters.FinalTypeIsNoInput | src/router/upcaster.rs:84-119 | In version order the type a page leaves with is the input of no handler of the domain |
| Upcasters.UpcastFixedPoint | src/router/upcaster.rs:84-119 | With settled configs a second dispatch of a successful result leaves every page unchanged |
| Upcasters.UpcastFixedExactly | src/router/upcaster.rs:84-119 | All routers with these configs leave their results unchanged on a second dispatch if and only if no declared input type leaves the chain as an input type |
| Upcasters.VersionOrderSettles | src/router/upcaster.rs:84-119 | If no handler's output type is an input type of itself or of an earlier one, the configs are settled |
| Upcasters.SettledOutOfVersionOrder | src/router/upcaster.rs:84-119 | Three handlers out of version order whose types all settle: the order is sufficient, not necessary |
| Upcasters.ReversedRegistrationIsNotFixed | src/router/upcaster.rs:84-119 | Registered against version order, the router takes a V1 page to V2 on the first dispatch and to V3 on the second |
| OutputDomains.CollectSagaDomains | src/router/runtime.rs:773-799 | Both saga lists are the non-empty (sync) targets, first occurrences in order |
| OutputDomains.CollectPmDomains | src/router/runtime.rs:834-864 | Both process-manager lists are the non-empty (sync) targets, first occurrences in order |
| OutputDomains.SagaCoverage | src/router/runtime.rs:801-818 | Every non-empty saga target is in the sync list or makes `has_async_outputs` true; the sync list is a subset, equal as a set when nothing is async, and something is async exactly when a listed domain is some async saga's target; no repeats |
| OutputDomains.PmCoverage | src/router/runtime.rs:866-884 | The same for process managers, given the compile-time subset check |
| OutputDomains.SagaListsDifferExactly | src/router/runtime.rs:773-799 | Some domain is on the full list only if and only if some target belongs to async sagas alone |
| OutputDomains.PmListsDifferExactly | src/router/runtime.rs:834-864 | A domain is on the full list only if and only if it is a non-empty target and no sync target of any process manager |
| OutputDomains.EqualListsMayHideAsync | src/router/runtime.rs:801-806 | The two lists may be equal although some output is async, so the difference of the lists would not do |
| Foundations.FirstOccurrencesSpec | src/router/runtime.rs:774-782 | Pushing what is not yet seen keeps every element once, ordered by first occurrence |
| DestinationSequences.DomainsInOrder | src/router/state.rs:60-67 | `domains` lists first occurrences in order, and a domain is known exactly when listed |
| DestinationSequences.LastValueWins | src/router/state.rs:72-74 | Lookup gives the last value paired with the domain, and none exactly when no pair names it |
| DestinationSequences.StampCommand | src/router/state.rs:108-123 | Succeeds exactly when the domain is listed; stamps every page in place, or leaves the book untouched |
| DestinationSequences.StampSetsOnlySequences | src/proto_ext/pages.rs:182-187 | A stamped page reads that explicit sequence and is not deferred, all else is unchanged, and a later stamp fully overrides an earlier one |
| DestinationSequences.HeaderCases | src/proto_ext/pages.rs:29-42 | Only an explicit sequence is explicit, both deferred kinds are deferred, and a page without an explicit sequence counts as 0 |
| IdempotencyKeys.KeysSeparateSources | src/proto_ext/pages.rs:243-255 | When edition names hold no ':', keys are equal exactly for equal edition, domain, root bytes and sequence |
| IdempotencyKeys.KeyTail | src/proto_ext/pages.rs:247-253 | Any key determines its root bytes, its sequence and the joined edition and domain |
| IdempotencyKeys.KeyUniqueExactly | src/proto_ext/pages.rs:247-253 | A source shares its key with no other source at all if and only if neither its edition nor its domain holds a ':' |
| IdempotencyKeys.HexInjective | src/proto_ext/cover.rs:41-45 | Hex text determines the root bytes |
| IdempotencyKeys.KeyText | src/proto_ext/pages.rs:244-254 | The text is edition name, domain, root in hex and sequence in decimal, joined by ':'; a missing edition or root leaves its part empty, a missing source is an error |
| IdempotencyKeys.CacheText | src/proto_ext/cover.rs:85-90 | The text is edition name, domain or "unknown", and root in hex |
| IdempotencyKeys.HexText | src/proto_ext/cover.rs:41-45 | Two lower-case digits a byte, the high one first |
| IdempotencyKeys.DecimalText | src/proto_ext/pages.rs:247-253 | Decimal digits without leading zeros |
| IdempotencyKeys.CacheKeysSeparate | src/proto_ext/cover.rs:85-90 | When edition names hold no ':', cache keys are equal exactly for equal edition, effective domain and root bytes |
| IdempotencyKeys.CacheKeyUniqueExactly | src/proto_ext/cover.rs:85-90 | No other edition, effective domain and root shares a cache key if and only if the edition holds no ':' and the domain none but possibly as its last character |
| Retrying.ProductNeverOverflows | src/retry.rs:116 | The u128 product never overflows, for every Duration and attempt |
| Retrying.DelayGrowsToCap | src/retry.rs:114-126 | The unjittered delay stays under the cap and u64 and is monotone in the attempt |
| Retrying.DelayIsDoubled | src/retry.rs:116-125 | The unjittered delay is the minimum of min_delay doubled min(n, 30) times, max_delay and u64::MAX |
| Retrying.DelayIsExactUnclamped | src/retry.rs:116-118 | The delay is min_delay * 2^n if and only if no clamp touches it, and less otherwise |
| Retrying.Jittered | src/retry.rs:120-124 | A jittered delay is the floor of the delay times its scale, and lies between its half and itself |
| Retrying.JitterTakesAtMostHalf | src/retry.rs:120-124 | Every jittered delay lies between half the unjittered one and itself |
| Retrying.TotalSleep | src/retry.rs:141-155 | In `execute`'s own trace n all-failing attempts sleep, for any jitter, at most (n-1) * max_delay and at least half the unjittered sum less half a nanosecond a sleep; without jitter exactly min_delay * (2^(n-1) - 1) if and only if nothing is clamped |
| Retrying.SleptIsSum | src/client.rs:61-75 | The same bounds for the time slept along the callback-free schedule of `create_channel` |
| Retrying.Execute | src/retry.rs:134-157 | Stops at the first success or after the last attempt with that outcome, with exactly the scheduled tries, callbacks and sleeps |
| Retrying.CreateChannel | src/client.rs:56-139 | The same schedule without callbacks; an invalid URI ends it at once; zero attempts give the max-retries error |
| Retrying.CallbackPerSleep | src/retry.rs:147-150 | The callback fires exactly once per sleep, with indices 0, 1, 2, ... and the error just seen |
| Retrying.CallbackPlaces | src/retry.rs:142-153 | With a callback the trace of `execute` is try, callback with that try's error, sleep, next try, place by place |
| Retrying.ScheduleByIndex | src/client.rs:61-75 | The callback-free schedule is try, sleep, try, ..., with the delay of the failed attempt |
| Retrying.SilencedSchedule | src/retry.rs:145-151 | Sleep-after-failure and sleep-before-attempt give one interleaving of tries and sleeps |
| Retrying.RunBoth | src/client.rs:61-138 | On every retryable stream both loops make the same tries and sleeps and return the same result |
| Readiness.NewTransport | src/readiness.rs:75-83 | Probe and signal share one flag, not yet set |
| Readiness.SupervisorTick | src/readiness.rs:243-277 | A tick polls every probe, the transport flag among them, and is true exactly when all are healthy; a panic, a timeout or a false answer each make it false |
| Readiness.SupervisorRound | src/readiness.rs:221-232 | An undisturbed round sets every name: SERVING if and only if the flag is set and every dependency's check was healthy |
| Readiness.PublishShutdownStatus | src/server.rs:396-402 | Every registered name ends NOT_SERVING, other names untouched |
| Readiness.RunKeepsInv | src/server.rs:297-391 | Every state of every interleaved run keeps the protocol invariant |
| Readiness.BoundWasMarked | src/readiness.rs:107-112 | The transport flag is set by the `mark_bound` step and by no other |
| Readiness.ReadinessSafety | src/server.rs:297-402 | Over all runs: no SERVING before `mark_bound`; at each supervisor sleep every name is SERVING if and only if every probe of that tick was healthy; a run that returned left all names NOT_SERVING |
| Readiness.ReturnIsFinal | src/server.rs:373-390 | After the return nothing runs that could change a status |
| Readiness.RoundIsSteps | src/readiness.rs:214-233 | The supervisor's steps, left alone, make up the sequential round |
| Readiness.SupervisorRounds | src/readiness.rs:221-232 | Rounds of the sequential loop on the real flag and reporter are a path of protocol steps |
| Readiness.RunKind | src/server.rs:297-391 | `run_kind` under a schedule of supervisor rounds before and after `mark_bound` is a run of the protocol from start to return, its reporter showing the run's statuses and at the end NOT_SERVING everywhere |
| Readiness.ShutdownCanFinish | src/server.rs:381-390 | From wherever the abort finds the supervisor there is a way to the return, with the shutdown statuses published |
| Metadata.CollectMethodMetadata | angzarr-macros/src/lib.rs:719-778 | The collected lists hold, kind by kind and in source order, exactly the markers of the block, and each config list is the argument column of its arm list; the last state factory wins |
| Metadata.ArmsByPosition | angzarr-macros/src/lib.rs:731-764 | Every arm list holds, at increasing positions, exactly the markers of its kind whose arguments parse, each with its method's name and the arguments as written |
| Metadata.MarkersBySource | angzarr-macros/src/lib.rs:731-733 | Markers come in source order: the attributes of each method, other items skipped |
| Metadata.StateFactoryByPosition | angzarr-macros/src/lib.rs:756-757 | The state factory is the method of the last such marker, if any |
| Metadata.ConfigListsMarkers | angzarr-macros/src/lib.rs:694-717 | For handled, fact, applied and rejected entries alike: an entry is in the config list exactly when some method is marked for it |

## Left out

- `Projectors.Dispatch`: instances are values (a factory's answer depends on the requests given before), so aliasing between instances is not captured; the side effects of a projector call that fails midway are not modelled beyond its error.
- `CommandHandlers.CheckpointLaw`: encoding is taken to succeed always, as it does into a growable buffer.
- `Retrying.Jittered`: f64 rounding is not modelled.
- `Readiness.RunKind`: one sequential schedule, with aborts only at the shutdown; every other interleaving is covered by the runs of the step model.
- Liveness and fairness of the readiness protocol; wall-clock time, probe intervals and timeouts (a timeout is one possible probe outcome).
- gRPC servers, clients, channels, sockets, UDS path detection, environment variables and logging.
- Protobuf encoding: decoders are arbitrary partial functions, the state codec only round-trips. The `.proto` files are not part of this model.
- The cached router names, handler counts and the state-factory name in configs: simple accessors.
- Texts and detail maps of errors, apart from the type URL, the domain, the kind and the decode cause.
- Command and query builders, validation helpers, editions, compensation constructors and testing fixtures: single-branch members.
- Macro token parsing and compile errors, apart from the sync-targets subset check.
