/** The bodies `#[command_handler]` generates: command, rejection, fact and replay dispatch. */
module CommandHandlers {
  import opened Foundations
  import opened Proto
  import opened Handlers
  import opened Rebuilding

  /** A `#[handles(C)]` method with the decoder of `C`. */
  datatype HandleBody<!S, !M> = HandleBody(
    decode: Bytes -> Result<M, string>,
    handle: (M, S, uint32) -> Result<EventBook, CommandRejectedError>)

  /** A `#[rejected(domain, command)]` method. */
  datatype RejectBody<!S> = RejectBody(
    compensate: (Notification, S) -> Result<BusinessResponse, CommandRejectedError>)

  /** A `#[handles_fact(E)]` method with the decoder of `E`. */
  datatype FactBody<!S, !M> = FactBody(
    decode: Bytes -> Result<M, string>,
    handle: (M, S) -> Result<EventBook, CommandRejectedError>)

  /** How the state message is put on the wire and read back. */
  datatype StateCodec<!S> = StateCodec(typeUrl: string, encode: S -> Bytes, decode: Bytes -> Result<S, string>)

  /** An annotated impl block over a state type S; M is the union of its message types. */
  datatype Aggregate<!S, !M> = Aggregate(
    domain: string,
    handles: seq<Arm<string, HandleBody<S, M>>>,
    rejected: seq<Arm<(string, string), RejectBody<S>>>,
    applies: ApplyArms<S, M>,
    initial: S,
    handlesFact: seq<Arm<string, FactBody<S, M>>>,
    supportsReplay: bool,
    codec: StateCodec<S>)

  // ------------------------------------------------------- Specifications

  function Respond(book: EventBook): BusinessResponse {
    BusinessResponse(Some(Events(book)))
  }

  /** Runs one `#[handles]` arm. */
  function RunHandle<S, M>(body: HandleBody<S, M>, payload: Any, state: S, sequence: uint32)
    : Result<BusinessResponse, ClientError>
  {
    match body.decode(payload.value)
    case Err(cause) => Err(AnyDecodeFailed(payload.typeUrl, cause))
    case Ok(command) =>
      var book :- UserResult(body.handle(command, state, sequence));
      Ok(Respond(book))
  }

  /** The notification and the key its handler arms are matched against, as the handler reads them. */
  function RejectionKeyOf(rejection: RejectionNotification): (string, string) {
    var domain :=
      match rejection.rejectedCommand
      case Some(book) => CoverDomain(book.cover)
      case None => "";
    var suffix :=
      match rejection.rejectedCommand
      case Some(book) =>
        if |book.pages| > 0 && book.pages[0].payload.Some? && book.pages[0].payload.value.Command?
        then CommandSuffix(book.pages[0].payload.value.command.typeUrl)
        else ""
      case None => "";
    (domain, suffix)
  }

  function HandlerRejectionKey(w: Wire, payload: Any): Result<(Notification, (string, string)), ClientError> {
    match w.decodeNotification(payload.value)
    case Err(cause) => Err(NotificationDecodeFailed(cause))
    case Ok(notification) =>
      var rejection :-
        (match notification.payload
         case None => Ok(RejectionNotification(None, ""))
         case Some(p) =>
           match w.decodeRejection(p.value)
           case Ok(r) => Ok(r)
           case Err(cause) => Err(RejectionNotificationDecodeFailed(cause)));
      Ok((notification, RejectionKeyOf(rejection)))
  }

  /** Everything a handler does with a command once its state is rebuilt. */
  function CommandOn<S, M>(w: Wire, a: Aggregate<S, M>, payload: Any, state: S, sequence: uint32)
    : Result<BusinessResponse, ClientError>
  {
    if payload.typeUrl == NOTIFICATION_URL then
      var (notification, key) :- HandlerRejectionKey(w, payload);
      match Lookup(a.rejected, key)
      case Some(body) => UserResult(body.compensate(notification, state))
      case None => Ok(Respond(EMPTY_EVENT_BOOK))
    else
      match Lookup(a.handles, payload.typeUrl)
      case Some(body) => RunHandle(body, payload, state, sequence)
      case None => Err(NoHandlerRegistered(None, payload.typeUrl))
  }

  function RunCommand<S, M>(w: Wire, a: Aggregate<S, M>, cmd: ContextualCommand)
    : Result<BusinessResponse, ClientError>
  {
    var payload :- CommandAny(cmd);
    var prior := cmd.events.UnwrapOr(EMPTY_EVENT_BOOK);
    var state :- Rebuild(a.applies, a.initial, prior.pages);
    CommandOn(w, a, payload, state, prior.nextSequence)
  }

  /** The events one fact page adds; a fact without an arm adds none. */
  function FactPage<S, M>(a: Aggregate<S, M>, state: S, page: EventPage): Result<seq<EventPage>, ClientError> {
    match page.payload
    case Some(Event(any)) =>
      (match Lookup(a.handlesFact, any.typeUrl)
       case None => Ok([])
       case Some(body) =>
         match body.decode(any.value)
         case Err(cause) => Err(AnyDecodeFailed(any.typeUrl, cause))
         case Ok(event) =>
           var book :- UserResult(body.handle(event, state));
           Ok(book.pages))
    case _ => Ok([])
  }

  function FactStep<S, M>(a: Aggregate<S, M>, state: S)
    : (seq<EventPage>, EventPage) -> Result<seq<EventPage>, ClientError>
  {
    (merged, page) =>
      match FactPage(a, state, page)
      case Ok(pages) => Ok(merged + pages)
      case Err(e) => Err(e)
  }

  function RunFact<S, M>(a: Aggregate<S, M>, req: FactRequest): Result<EventBook, ClientError> {
    var state :- Rebuild(a.applies, a.initial, req.priorEvents.UnwrapOr(EMPTY_EVENT_BOOK).pages);
    var pages :- FoldM(FactStep(a, state), [], req.facts.UnwrapOr(EMPTY_EVENT_BOOK).pages);
    Ok(EMPTY_EVENT_BOOK.(pages := pages))
  }

  /** The state a replay starts from: an empty `Any.value` counts as no snapshot. */
  function BaseState<S, M>(a: Aggregate<S, M>, base: Option<Snapshot>): Result<S, ClientError> {
    if base.Some? && base.value.state.Some? && |base.value.state.value.value| > 0 then
      match a.codec.decode(base.value.state.value.value)
      case Ok(s) => Ok(s)
      case Err(cause) => Err(StateDecodeFailed(cause))
    else
      Ok(a.initial)
  }

  /** The state a replay ends in. */
  function ReplayState<S, M>(a: Aggregate<S, M>, base: Option<Snapshot>, events: seq<EventPage>)
    : Result<S, ClientError>
  {
    var start :- BaseState(a, base);
    Rebuild(a.applies, start, events)
  }

  function Packed<S>(codec: StateCodec<S>, state: S): ReplayResponse {
    ReplayResponse(Some(Any(codec.typeUrl, codec.encode(state))))
  }

  const REPLAY_NOT_SUPPORTED := "CommandHandler (supports_replay=false)"

  function RunReplay<S, M>(a: Aggregate<S, M>, req: ReplayRequest): Result<ReplayResponse, ClientError> {
    if !a.supportsReplay then Err(HandlerWrongRequestKind(REPLAY_NOT_SUPPORTED))
    else
      var state :- ReplayState(a, req.baseSnapshot, req.events);
      Ok(Packed(a.codec, state))
  }

  function AggregateAnswer<S, M>(w: Wire, a: Aggregate<S, M>, req: HandlerRequest)
    : Result<HandlerResponse, ClientError>
  {
    match req
    case CommandRequest(cmd) =>
      var r :- RunCommand(w, a, cmd);
      Ok(CommandResponse(r))
    case HandleFactRequest(fact) =>
      var r :- RunFact(a, fact);
      Ok(HandleFactResponse(r))
    case HandlerReplayRequest(replay) =>
      var r :- RunReplay(a, replay);
      Ok(HandlerReplayResponse(r))
    case _ => Err(HandlerWrongRequestKind("CommandHandler"))
  }

  function AggregateConfig<S, M>(a: Aggregate<S, M>): HandlerConfig {
    CommandHandlerConfig(a.domain, Keys(a.handles), Keys(a.rejected), Keys(a.applies), Keys(a.handlesFact),
                         a.supportsReplay)
  }

  /** The factory a router holds for the aggregate. */
  function AggregateFactory<S, M>(w: Wire, a: Aggregate<S, M>): Factory {
    Factory(CommandHandlerKind, AggregateConfig(a), (history, req) => AggregateAnswer(w, a, req))
  }

  // ---------------------------------------------------- Generated methods

  /** `Handler::dispatch` for a command: rebuild, then a rejection arm or a command arm. */
  method DispatchCommand<S, M>(w: Wire, a: Aggregate<S, M>, cmd: ContextualCommand)
    returns (r: Result<BusinessResponse, ClientError>)
    ensures r == RunCommand(w, a, cmd)
  {
    var payload :- CommandAny(cmd);
    var prior := cmd.events.UnwrapOr(EMPTY_EVENT_BOOK);
    var state := a.initial;
    for i := 0 to |prior.pages|
      invariant Rebuild(a.applies, a.initial, prior.pages) == Rebuild(a.applies, state, prior.pages[i..])
    {
      assert prior.pages[i..][1..] == prior.pages[i + 1..];
      state :- ApplyPage(a.applies, state, prior.pages[i]);
    }
    if payload.typeUrl == NOTIFICATION_URL {
      var keyed :- HandlerRejectionKey(w, payload);
      var arm := Lookup(a.rejected, keyed.1);
      if arm.Some? {
        r := UserResult(arm.value.compensate(keyed.0, state));
        return;
      }
      return Ok(Respond(EMPTY_EVENT_BOOK));
    }
    var arm := Lookup(a.handles, payload.typeUrl);
    if arm.Some? {
      r := RunHandle(arm.value, payload, state, prior.nextSequence);
      return;
    }
    return Err(NoHandlerRegistered(None, payload.typeUrl));
  }

  /** `__angzarr_dispatch_fact`: rebuild, then merge what the fact arms emit. */
  method DispatchFact<S, M>(a: Aggregate<S, M>, req: FactRequest) returns (r: Result<EventBook, ClientError>)
    ensures r == RunFact(a, req)
  {
    var prior := req.priorEvents.UnwrapOr(EMPTY_EVENT_BOOK).pages;
    var state := a.initial;
    for i := 0 to |prior|
      invariant Rebuild(a.applies, a.initial, prior) == Rebuild(a.applies, state, prior[i..])
    {
      assert prior[i..][1..] == prior[i + 1..];
      state :- ApplyPage(a.applies, state, prior[i]);
    }
    var facts := req.facts.UnwrapOr(EMPTY_EVENT_BOOK).pages;
    var merged: seq<EventPage> := [];
    for i := 0 to |facts|
      invariant FoldM(FactStep(a, state), [], facts) == FoldM(FactStep(a, state), merged, facts[i..])
    {
      assert facts[i..][1..] == facts[i + 1..];
      var emitted :- FactPage(a, state, facts[i]);
      merged := merged + emitted;
    }
    return Ok(EMPTY_EVENT_BOOK.(pages := merged));
  }

  /** `__angzarr_dispatch_replay`: base snapshot, apply loop, packed state. */
  method DispatchReplay<S, M>(a: Aggregate<S, M>, req: ReplayRequest) returns (r: Result<ReplayResponse, ClientError>)
    ensures r == RunReplay(a, req)
  {
    if !a.supportsReplay {
      return Err(HandlerWrongRequestKind(REPLAY_NOT_SUPPORTED));
    }
    var start :- BaseState(a, req.baseSnapshot);
    var state := start;
    for i := 0 to |req.events|
      invariant Rebuild(a.applies, start, req.events) == Rebuild(a.applies, state, req.events[i..])
    {
      assert req.events[i..][1..] == req.events[i + 1..];
      state :- ApplyPage(a.applies, state, req.events[i]);
    }
    return Ok(Packed(a.codec, state));
  }

  // ------------------------------------------------------ One rebuild rule

  ghost predicate SameApplicablePages<S, M>(a: Aggregate<S, M>, p: seq<EventPage>, q: seq<EventPage>) {
    Filter(IsApplicable(a.applies), p) == Filter(IsApplicable(a.applies), q)
  }

  /**
   * Command, fact and replay dispatch see prior events only through the pages an `#[applies]` arm
   * is declared for: books that agree on those, and on `next_sequence` for commands, are
   * interchangeable whatever other pages, covers or snapshots they carry.
   */
  lemma OnlyApplicablePagesMatter<S, M>(w: Wire, a: Aggregate<S, M>, cmd: ContextualCommand, fact: FactRequest,
                                        base: Option<Snapshot>, p: EventBook, q: EventBook)
    requires SameApplicablePages(a, p.pages, q.pages) && p.nextSequence == q.nextSequence
    ensures RunCommand(w, a, cmd.(events := Some(p))) == RunCommand(w, a, cmd.(events := Some(q)))
    ensures RunFact(a, fact.(priorEvents := Some(p))) == RunFact(a, fact.(priorEvents := Some(q)))
    ensures RunReplay(a, ReplayRequest(base, p.pages)) == RunReplay(a, ReplayRequest(base, q.pages))
  {
    RebuildIgnoresOtherPages(a.applies, a.initial, p.pages);
    RebuildIgnoresOtherPages(a.applies, a.initial, q.pages);
    if BaseState(a, base).Ok? {
      RebuildIgnoresOtherPages(a.applies, BaseState(a, base).value, p.pages);
      RebuildIgnoresOtherPages(a.applies, BaseState(a, base).value, q.pages);
    }
  }

  /**
   * One rebuild for three entry points. On the same applicable pages, with a well-formed command
   * and no snapshot, command, fact and replay dispatch stop with the same first decode error, or
   * all go on from the one state the replay packs.
   */
  lemma OneRebuild<S, M>(w: Wire, a: Aggregate<S, M>, cmd: ContextualCommand, fact: FactRequest, p: EventBook,
                         q: seq<EventPage>, events: seq<EventPage>, state: Result<S, ClientError>)
    requires a.supportsReplay && CommandAny(cmd).Ok?
    requires cmd.events == Some(p) && fact.priorEvents.UnwrapOr(EMPTY_EVENT_BOOK).pages == q
    requires SameApplicablePages(a, p.pages, events) && SameApplicablePages(a, q, events)
    requires state == ReplayState(a, None, events)
    ensures state.Err? ==> RunCommand(w, a, cmd) == Err(state.error) && RunFact(a, fact) == Err(state.error) &&
                           RunReplay(a, ReplayRequest(None, events)) == Err(state.error)
    ensures state.Ok? ==>
              RunReplay(a, ReplayRequest(None, events)) == Ok(Packed(a.codec, state.value)) &&
              RunCommand(w, a, cmd) == CommandOn(w, a, CommandAny(cmd).value, state.value, p.nextSequence) &&
              RunFact(a, fact) ==
                match FoldM(FactStep(a, state.value), [], fact.facts.UnwrapOr(EMPTY_EVENT_BOOK).pages)
                case Ok(pages) => Ok(EMPTY_EVENT_BOOK.(pages := pages))
                case Err(e) => Err(e)
  {
    RebuildIgnoresOtherPages(a.applies, a.initial, p.pages);
    RebuildIgnoresOtherPages(a.applies, a.initial, q);
    RebuildIgnoresOtherPages(a.applies, a.initial, events);
  }

  // ------------------------------------------------------- Fact injection

  function FactEmitter<S, M>(a: Aggregate<S, M>, state: S): EventPage -> Result<seq<EventPage>, ClientError> {
    (page: EventPage) => FactPage(a, state, page)
  }

  lemma {:induction false} FactsMerge<S, M>(a: Aggregate<S, M>, state: S, merged: seq<EventPage>, facts: seq<EventPage>)
    ensures FoldM(FactStep(a, state), merged, facts) ==
            match Traverse(FactEmitter(a, state), facts)
            case Ok(emitted) => Ok(merged + Concat(emitted))
            case Err(e) => Err(e)
    decreases |facts|
  {
    if |facts| == 0 {
      assert merged + [] == merged;
    } else if FactPage(a, state, facts[0]).Ok? {
      var first := FactPage(a, state, facts[0]).value;
      FactsMerge(a, state, merged + first, facts[1..]);
      if Traverse(FactEmitter(a, state), facts[1..]).Ok? {
        var rest := Traverse(FactEmitter(a, state), facts[1..]).value;
        ConcatCons(first, rest);
        assert merged + (first + Concat(rest)) == (merged + first) + Concat(rest);
      }
    }
  }

  /**
   * Facts do not see each other: every fact is handled in the state the prior events leave, and the
   * book returned is what the facts emit one by one, in order, under no cover and no sequence.
   */
  lemma FactsAreIndependent<S, M>(a: Aggregate<S, M>, req: FactRequest, state: S)
    requires Rebuild(a.applies, a.initial, req.priorEvents.UnwrapOr(EMPTY_EVENT_BOOK).pages) == Ok(state)
    ensures RunFact(a, req) ==
            match Traverse(FactEmitter(a, state), req.facts.UnwrapOr(EMPTY_EVENT_BOOK).pages)
            case Ok(emitted) => Ok(EventBook(None, Concat(emitted), None, 0))
            case Err(e) => Err(e)
  {
    var facts := req.facts.UnwrapOr(EMPTY_EVENT_BOOK).pages;
    FactsMerge(a, state, [], facts);
    if Traverse(FactEmitter(a, state), facts).Ok? {
      var emitted := Concat(Traverse(FactEmitter(a, state), facts).value);
      assert [] + emitted == emitted;
    }
  }

  predicate DeclaresFact(declared: seq<string>, page: EventPage) {
    page.payload.Some? && page.payload.value.Event? && page.payload.value.event.typeUrl in declared
  }

  function IsDeclaredFact(declared: seq<string>): EventPage -> bool {
    (page: EventPage) => DeclaresFact(declared, page)
  }

  lemma {:induction false} UndeclaredFactsEmitNothing<S, M>(a: Aggregate<S, M>, state: S, merged: seq<EventPage>,
                                                            facts: seq<EventPage>)
    ensures FoldM(FactStep(a, state), merged, facts) ==
            FoldM(FactStep(a, state), merged, Filter(IsDeclaredFact(Keys(a.handlesFact)), facts))
    decreases |facts|
  {
    if |facts| > 0 {
      var rest := Filter(IsDeclaredFact(Keys(a.handlesFact)), facts[1..]);
      var step := FactStep(a, state)(merged, facts[0]);
      if DeclaresFact(Keys(a.handlesFact), facts[0]) {
        assert Filter(IsDeclaredFact(Keys(a.handlesFact)), facts)[1..] == rest;
        if step.Ok? {
          UndeclaredFactsEmitNothing(a, state, step.value, facts[1..]);
        }
      } else {
        if facts[0].payload.Some? && facts[0].payload.value.Event? {
          LookupFirst(a.handlesFact, facts[0].payload.value.event.typeUrl);
        }
        assert merged + [] == merged && step == Ok(merged);
        assert Filter(IsDeclaredFact(Keys(a.handlesFact)), facts) == rest;
        UndeclaredFactsEmitNothing(a, state, merged, facts[1..]);
      }
    }
  }

  /** Only the facts a `#[handles_fact]` arm is declared for matter. */
  lemma OnlyDeclaredFactsMatter<S, M>(a: Aggregate<S, M>, req: FactRequest, facts: EventBook)
    requires req.facts == Some(facts)
    ensures RunFact(a, req) ==
            RunFact(a, req.(facts := Some(facts.(pages := Filter(IsDeclaredFact(Keys(a.handlesFact)), facts.pages)))))
  {
    var state := Rebuild(a.applies, a.initial, req.priorEvents.UnwrapOr(EMPTY_EVENT_BOOK).pages);
    if state.Ok? {
      UndeclaredFactsEmitNothing(a, state.value, [], facts.pages);
    }
  }

  // ---------------------------------------------------- Replay checkpoints

  /** Assumption on the state codec: what is encoded decodes to itself. */
  ghost predicate RoundTrips<S(!new)>(codec: StateCodec<S>) {
    forall s :: codec.decode(codec.encode(s)) == Ok(s)
  }

  /** Replaying `ys` from the state returned for `xs` answers like replaying `xs + ys` in one go. */
  ghost predicate CheckpointAgrees<S, M>(a: Aggregate<S, M>, base: Option<Snapshot>, xs: seq<EventPage>,
                                         sequence: uint32, ys: seq<EventPage>)
  {
    match RunReplay(a, ReplayRequest(base, xs))
    case Err(e) => RunReplay(a, ReplayRequest(base, xs + ys)) == Err(e)
    case Ok(mid) =>
      RunReplay(a, ReplayRequest(Some(Snapshot(sequence, mid.state)), ys)) ==
      RunReplay(a, ReplayRequest(base, xs + ys))
  }

  /** What a caller can check on the returned state before using it as a snapshot. */
  ghost predicate SafeCheckpoint<S, M>(a: Aggregate<S, M>, state: S) {
    |a.codec.encode(state)| > 0 || state == a.initial
  }

  /**
   * The checkpointing law with its exact condition: a successful replay of `xs` may be cut there
   * for every continuation exactly when its state encodes to some bytes or is the initial state.
   */
  lemma CheckpointLaw<S(!new), M>(a: Aggregate<S, M>, base: Option<Snapshot>, xs: seq<EventPage>, sequence: uint32)
    requires a.supportsReplay && RoundTrips(a.codec)
    requires ReplayState(a, base, xs).Ok?
    ensures (forall ys :: CheckpointAgrees(a, base, xs, sequence, ys)) <==>
            SafeCheckpoint(a, ReplayState(a, base, xs).value)
  {
    var mid := ReplayState(a, base, xs).value;
    var start := BaseState(a, base).value;
    if SafeCheckpoint(a, mid) {
      forall ys ensures CheckpointAgrees(a, base, xs, sequence, ys) {
        RebuildAppend(a.applies, start, xs, ys);
      }
    } else {
      RebuildAppend(a.applies, start, xs, []);
      assert Rebuild(a.applies, a.initial, []) == Ok(a.initial);
      assert a.codec.decode(a.codec.encode(mid)) == Ok(mid);
      assert a.codec.decode(a.codec.encode(a.initial)) == Ok(a.initial);
      assert !CheckpointAgrees(a, base, xs, sequence, []);
    }
  }

  /** A replay that fails on `xs` fails the same way on every extension of `xs`. */
  lemma FailedReplayStaysFailed<S, M>(a: Aggregate<S, M>, base: Option<Snapshot>, xs: seq<EventPage>,
                                      ys: seq<EventPage>)
    requires RunReplay(a, ReplayRequest(base, xs)).Err?
    ensures RunReplay(a, ReplayRequest(base, xs + ys)) == RunReplay(a, ReplayRequest(base, xs))
  {
    if BaseState(a, base).Ok? {
      RebuildAppend(a.applies, BaseState(a, base).value, xs, ys);
    }
  }

  /**
   * Without a `#[state_factory]` the initial state is the message with every field at its default,
   * which encodes to no bytes; then every replay of every prefix may be checkpointed.
   */
  lemma DefaultInitialStateCheckpoints<S(!new), M>(a: Aggregate<S, M>, base: Option<Snapshot>, xs: seq<EventPage>,
                                                   sequence: uint32, ys: seq<EventPage>)
    requires a.supportsReplay && RoundTrips(a.codec) && a.codec.encode(a.initial) == []
    ensures CheckpointAgrees(a, base, xs, sequence, ys)
  {
    if ReplayState(a, base, xs).Err? {
      FailedReplayStaysFailed(a, base, xs, ys);
    } else {
      var mid := ReplayState(a, base, xs).value;
      if a.codec.encode(mid) == [] {
        assert a.codec.decode(a.codec.encode(mid)) == Ok(mid);
        assert a.codec.decode(a.codec.encode(a.initial)) == Ok(a.initial);
      }
      assert SafeCheckpoint(a, mid);
      CheckpointLaw(a, base, xs, sequence);
    }
  }

  const SWITCHED_OFF := TYPE_URL_PREFIX + "examples.SwitchedOff"

  /** A one-flag aggregate whose `#[state_factory]` starts with the flag set. */
  function SwitchAggregate(): Aggregate<bool, ()> {
    Aggregate(
      "switch", [], [],
      [Arm(SWITCHED_OFF, ApplyBody((value: Bytes) => Ok(()), (on: bool, event: ()) => false))],
      true, [], true,
      StateCodec(
        TYPE_URL_PREFIX + "examples.Switch",
        (on: bool) => if on then [8, 1] else [],
        (value: Bytes) => Ok(|value| > 0)))
  }

  /** Outside the condition the law fails: the switched-off state is read back as switched on. */
  lemma CheckpointCounterexample()
    ensures RoundTrips(SwitchAggregate().codec)
    ensures var off := EventPage(None, None, Some(Event(Any(SWITCHED_OFF, []))), false, None);
            !CheckpointAgrees(SwitchAggregate(), None, [off], 1, [])
  {
    var a := SwitchAggregate();
    var off := EventPage(None, None, Some(Event(Any(SWITCHED_OFF, []))), false, None);
    assert ApplyPage(a.applies, true, off) == Ok(false);
    assert Applier(a.applies)(true, off) == Ok(false);
    FoldMSnoc(Applier(a.applies), true, [], off);
    assert [] + [off] == [off];
    assert ReplayState(a, None, [off]) == Ok(false);
    assert !SafeCheckpoint(a, false);
    assert [off] + [] == [off];
    assert Rebuild(a.applies, a.initial, []) == Ok(true);
  }


  // ------------------------------------------------- Answers, case by case

  /**
   * A declared fact alone in a request: the first arm declared for its type decodes it and runs in
   * the rebuilt state; a decode failure and a rejection are reported as such, and otherwise all the
   * pages the method returns come back, under no cover and no sequence.
   */
  lemma DeclaredFactRunsItsArm<S, M>(a: Aggregate<S, M>, req: FactRequest, facts: EventBook, page: EventPage,
                                     any: Any, state: S)
    requires req.facts == Some(facts) && facts.pages == [page] && page.payload == Some(Event(any))
    requires any.typeUrl in Keys(a.handlesFact)
    requires Rebuild(a.applies, a.initial, req.priorEvents.UnwrapOr(EMPTY_EVENT_BOOK).pages) == Ok(state)
    ensures RunFact(a, req) ==
            var body := a.handlesFact[FirstIndex(Keys(a.handlesFact), any.typeUrl)].body;
            match body.decode(any.value)
            case Err(cause) => Err(AnyDecodeFailed(any.typeUrl, cause))
            case Ok(fact) =>
              match body.handle(fact, state)
              case Err(e) => Err(Rejected(e))
              case Ok(book) => Ok(EventBook(None, book.pages, None, 0))
  {
    FactsAreIndependent(a, req, state);
    LookupFirst(a.handlesFact, any.typeUrl);
    TraverseOne(FactEmitter(a, state), page);
    if FactPage(a, state, page).Ok? {
      var pages := FactPage(a, state, page).value;
      ConcatCons(pages, []);
      assert [pages] + [] == [pages] && pages + [] == pages;
    }
  }

  /** The snapshot of a replay request, if it holds a state of at least one byte. */
  predicate CarriesState(base: Option<Snapshot>) {
    base.Some? && base.value.state.Some? && base.value.state.value.value != []
  }

  /**
   * The answer to a replay: the plain fold of the `#[applies]` methods over the decoded events, from
   * the decoded snapshot or the initial state, under the type URL of the state message.
   */
  lemma ReplayAnswer<S, M>(a: Aggregate<S, M>, req: ReplayRequest, start: S)
    requires a.supportsReplay
    requires if CarriesState(req.baseSnapshot)
             then a.codec.decode(req.baseSnapshot.value.state.value.value) == Ok(start) else start == a.initial
    ensures RunReplay(a, req) ==
            match Traverse(Decoder(a.applies), req.events)
            case Err(e) => Err(e)
            case Ok(todo) =>
              Ok(ReplayResponse(Some(Any(a.codec.typeUrl, a.codec.encode(ApplyAll(start, Concat(todo)))))))
  {
    RebuildDecodesThenApplies(a.applies, start, req.events);
  }

  /** A snapshot that does not decode is reported before any event is looked at. */
  lemma BadSnapshot<S, M>(a: Aggregate<S, M>, req: ReplayRequest, cause: string)
    requires a.supportsReplay && CarriesState(req.baseSnapshot)
    requires a.codec.decode(req.baseSnapshot.value.state.value.value) == Err(cause)
    ensures RunReplay(a, req) == Err(StateDecodeFailed(cause))
  {
  }

  /**
   * What a generated handler called for something it declares no arm for answers, once its state is
   * rebuilt: an error for a command, an empty compensation for a rejection.
   */
  lemma FallbackAnswers<S, M>(w: Wire, a: Aggregate<S, M>, payload: Any, state: S, sequence: uint32)
    ensures payload.typeUrl != NOTIFICATION_URL && payload.typeUrl !in Keys(a.handles) ==>
              CommandOn(w, a, payload, state, sequence) == Err(NoHandlerRegistered(None, payload.typeUrl))
    ensures payload.typeUrl == NOTIFICATION_URL && HandlerRejectionKey(w, payload).Ok? &&
            HandlerRejectionKey(w, payload).value.1 !in Keys(a.rejected) ==>
              CommandOn(w, a, payload, state, sequence) ==
              Ok(BusinessResponse(Some(Events(EventBook(None, [], None, 0)))))
    ensures payload.typeUrl == NOTIFICATION_URL && HandlerRejectionKey(w, payload).Err? ==>
              CommandOn(w, a, payload, state, sequence) == Err(HandlerRejectionKey(w, payload).error)
  {
    LookupFirst(a.handles, payload.typeUrl);
    if HandlerRejectionKey(w, payload).Ok? {
      LookupFirst(a.rejected, HandlerRejectionKey(w, payload).value.1);
    }
  }
}
