/** Fact and replay requests at `CommandHandlerRouter`: the first command handler gets them all. */
module ReplayRouting {
  import opened Foundations
  import opened Proto
  import opened Handlers
  import opened Rebuilding
  import opened CommandHandlers
  import opened Building

  // ------------------------------------------------------- Specifications

  /** Position k holds the first command handler. */
  ghost predicate IsFirstCommandHandler(fs: seq<Factory>, k: nat) {
    k < |fs| && fs[k].config.CommandHandlerConfig? && forall j :: 0 <= j < k ==> !fs[j].config.CommandHandlerConfig?
  }

  ghost predicate NoCommandHandler(fs: seq<Factory>) {
    forall j :: 0 <= j < |fs| ==> !fs[j].config.CommandHandlerConfig?
  }

  lemma OnlyFirst(fs: seq<Factory>, i: nat)
    requires i < |fs| && fs[i].config.CommandHandlerConfig? && NoCommandHandler(fs[..i])
    ensures forall k: nat :: IsFirstCommandHandler(fs, k) <==> k == i
  {
    assert forall j :: 0 <= j < i ==> fs[..i][j] == fs[j];
  }

  function AsReplayResponse(r: Result<HandlerResponse, ClientError>): Result<ReplayResponse, ClientError> {
    match r
    case Err(e) => Err(e)
    case Ok(HandlerReplayResponse(response)) => Ok(response)
    case Ok(_) => Err(HandlerWrongResponseKind("Replay"))
  }

  function AsFactBook(r: Result<HandlerResponse, ClientError>): Result<EventBook, ClientError> {
    match r
    case Err(e) => Err(e)
    case Ok(HandleFactResponse(book)) => Ok(book)
    case Ok(_) => Err(HandlerWrongResponseKind("HandleFact"))
  }

  /** The answer of the first command handler, or an empty response without one. */
  function RouteReplay(fs: seq<Factory>, req: ReplayRequest): Result<ReplayResponse, ClientError> {
    if |fs| == 0 then Ok(ReplayResponse(None))
    else if fs[0].config.CommandHandlerConfig? then AsReplayResponse(fs[0].Dispatch(HandlerReplayRequest(req)))
    else RouteReplay(fs[1..], req)
  }

  /** The same for facts: without a command handler, an empty book. */
  function RouteFact(fs: seq<Factory>, req: FactRequest): Result<EventBook, ClientError> {
    if |fs| == 0 then Ok(EMPTY_EVENT_BOOK)
    else if fs[0].config.CommandHandlerConfig? then AsFactBook(fs[0].Dispatch(HandleFactRequest(req)))
    else RouteFact(fs[1..], req)
  }

  lemma {:induction false} FirstAnswers(fs: seq<Factory>, k: nat, replay: ReplayRequest, fact: FactRequest)
    requires IsFirstCommandHandler(fs, k)
    ensures RouteReplay(fs, replay) == AsReplayResponse(fs[k].Dispatch(HandlerReplayRequest(replay)))
    ensures RouteFact(fs, fact) == AsFactBook(fs[k].Dispatch(HandleFactRequest(fact)))
  {
    if k > 0 {
      assert forall j :: 0 <= j < k - 1 ==> fs[1..][j] == fs[j + 1];
      FirstAnswers(fs[1..], k - 1, replay, fact);
    }
  }

  /** What the first command handler's answer means: its own kind of response, or an error. */
  lemma FirstAnswerKinds(fs: seq<Factory>, k: nat, replay: ReplayRequest, fact: FactRequest)
    requires IsFirstCommandHandler(fs, k)
    ensures RouteReplay(fs, replay) ==
            match fs[k].Dispatch(HandlerReplayRequest(replay))
            case Err(e) => Err(e)
            case Ok(HandlerReplayResponse(response)) => Ok(response)
            case Ok(_) => Err(HandlerWrongResponseKind("Replay"))
    ensures RouteFact(fs, fact) ==
            match fs[k].Dispatch(HandleFactRequest(fact))
            case Err(e) => Err(e)
            case Ok(HandleFactResponse(book)) => Ok(book)
            case Ok(_) => Err(HandlerWrongResponseKind("HandleFact"))
  {
    FirstAnswers(fs, k, replay, fact);
  }

  // --------------------------------------------------------------- Methods

  /** `CommandHandlerRouter::dispatch_replay`. */
  method DispatchReplay(fs: seq<Factory>, req: ReplayRequest) returns (r: Result<ReplayResponse, ClientError>)
    ensures r == RouteReplay(fs, req)
    ensures NoCommandHandler(fs) ==> r == Ok(ReplayResponse(None))
    ensures forall k: nat :: IsFirstCommandHandler(fs, k) ==>
              r == AsReplayResponse(fs[k].Dispatch(HandlerReplayRequest(req)))
  {
    for i := 0 to |fs|
      invariant NoCommandHandler(fs[..i])
      invariant RouteReplay(fs, req) == RouteReplay(fs[i..], req)
    {
      assert fs[i..][1..] == fs[i + 1..];
      if !fs[i].config.CommandHandlerConfig? {
        continue;
      }
      OnlyFirst(fs, i);
      r := AsReplayResponse(fs[i].Dispatch(HandlerReplayRequest(req)));
      return;
    }
    assert fs[..|fs|] == fs;
    return Ok(ReplayResponse(None));
  }

  /** `CommandHandlerRouter::dispatch_fact`. */
  method DispatchFact(fs: seq<Factory>, req: FactRequest) returns (r: Result<EventBook, ClientError>)
    ensures r == RouteFact(fs, req)
    ensures NoCommandHandler(fs) ==> r == Ok(EMPTY_EVENT_BOOK)
    ensures forall k: nat :: IsFirstCommandHandler(fs, k) ==>
              r == AsFactBook(fs[k].Dispatch(HandleFactRequest(req)))
  {
    for i := 0 to |fs|
      invariant NoCommandHandler(fs[..i])
      invariant RouteFact(fs, req) == RouteFact(fs[i..], req)
    {
      assert fs[i..][1..] == fs[i + 1..];
      if !fs[i].config.CommandHandlerConfig? {
        continue;
      }
      OnlyFirst(fs, i);
      r := AsFactBook(fs[i].Dispatch(HandleFactRequest(req)));
      return;
    }
    assert fs[..|fs|] == fs;
    return Ok(EMPTY_EVENT_BOOK);
  }

  predicate OptedIn(f: Factory) {
    f.config.CommandHandlerConfig? && f.config.supportsReplay
  }

  predicate DeclaresFacts(f: Factory) {
    f.config.CommandHandlerConfig? && f.config.handlesFact != []
  }

  /** `supports_replay`: the gate in front of `dispatch_replay` asks whether any handler opted in. */
  method SupportsReplay(fs: seq<Factory>) returns (open: bool)
    ensures open <==> exists i :: 0 <= i < |fs| && OptedIn(fs[i])
  {
    for i := 0 to |fs|
      invariant forall j :: 0 <= j < i ==> !OptedIn(fs[j])
    {
      if fs[i].config.CommandHandlerConfig? && fs[i].config.supportsReplay {
        return true;
      }
    }
    return false;
  }

  /** `supports_handle_fact`: the gate in front of `dispatch_fact` asks whether any handler declares facts. */
  method SupportsHandleFact(fs: seq<Factory>) returns (open: bool)
    ensures open <==> exists i :: 0 <= i < |fs| && DeclaresFacts(fs[i])
  {
    for i := 0 to |fs|
      invariant forall j :: 0 <= j < i ==> !DeclaresFacts(fs[j])
    {
      if fs[i].config.CommandHandlerConfig? && |fs[i].config.handlesFact| > 0 {
        return true;
      }
    }
    return false;
  }

  // ------------------------------------------------------------ The replay gate

  const REFUSED: Result<ReplayResponse, ClientError> := Err(HandlerWrongRequestKind(REPLAY_NOT_SUPPORTED))

  /** The handler refuses a replay exactly when it did not opt in. */
  ghost predicate HonoursOptIn(f: Factory) {
    forall req :: AsReplayResponse(f.Dispatch(HandlerReplayRequest(req))) == REFUSED <==> !OptedIn(f)
  }

  /** A generated aggregate's refusal belongs to its opt-out; all its other errors are decode errors. */
  lemma RefusedExactlyWhenOptedOut<S, M>(a: Aggregate<S, M>, req: ReplayRequest)
    ensures RunReplay(a, req) == REFUSED <==> !a.supportsReplay
  {
    if BaseState(a, req.baseSnapshot).Ok? {
      RebuildFailsAlike(a.applies, BaseState(a, req.baseSnapshot).value, a.initial, req.events);
    }
  }

  lemma GeneratedHonoursOptIn<S, M>(w: Wire, a: Aggregate<S, M>)
    ensures HonoursOptIn(AggregateFactory(w, a))
    ensures forall req ::
              AsReplayResponse(AggregateFactory(w, a).Dispatch(HandlerReplayRequest(req))) == RunReplay(a, req)
  {
    var f := AggregateFactory(w, a);
    forall req ensures AsReplayResponse(f.Dispatch(HandlerReplayRequest(req))) == RunReplay(a, req) {
      assert f.Dispatch(HandlerReplayRequest(req)) == AggregateAnswer(w, a, HandlerReplayRequest(req));
    }
    forall req ensures AsReplayResponse(f.Dispatch(HandlerReplayRequest(req))) == REFUSED <==> !OptedIn(f) {
      RefusedExactlyWhenOptedOut(a, req);
    }
  }

  /** What an RPC behind a gate does: turned away, or dispatched. */
  datatype Gated<+T> = Unimplemented | Dispatched(answer: Result<T, ClientError>)

  /**
   * The replay RPC. The gate is wider than the dispatch: one handler that opted in opens it, but the
   * first command handler answers, and, when it honours its own flag, refuses behind the open gate
   * exactly when only handlers after it opted in.
   */
  method Replay(fs: seq<Factory>, req: ReplayRequest) returns (r: Gated<ReplayResponse>)
    ensures r.Unimplemented? <==> forall i :: 0 <= i < |fs| ==> !OptedIn(fs[i])
    ensures r.Dispatched? ==> r.answer == RouteReplay(fs, req)
    ensures r.Dispatched? ==> forall k: nat :: IsFirstCommandHandler(fs, k) ==>
              r.answer == AsReplayResponse(fs[k].Dispatch(HandlerReplayRequest(req)))
    ensures forall k: nat :: IsFirstCommandHandler(fs, k) && HonoursOptIn(fs[k]) ==>
              (r == Dispatched(REFUSED) <==> !OptedIn(fs[k]) && exists i :: k < i < |fs| && OptedIn(fs[i]))
  {
    var open := SupportsReplay(fs);
    if !open {
      return Unimplemented;
    }
    var answer := DispatchReplay(fs, req);
    return Dispatched(answer);
  }

  // -------------------------------------------------------------- The fact gate

  /** No fact of the request is of a declared type. */
  ghost predicate NoneDeclared(declared: seq<string>, req: FactRequest) {
    var facts := req.facts.UnwrapOr(EMPTY_EVENT_BOOK).pages;
    forall i :: 0 <= i < |facts| ==> !DeclaresFact(declared, facts[i])
  }

  /** The request with these fact pages and all else as it is. */
  function WithFacts(req: FactRequest, pages: seq<EventPage>): FactRequest {
    req.(facts := Some(req.facts.UnwrapOr(EMPTY_EVENT_BOOK).(pages := pages)))
  }

  /** The request without its facts of undeclared types. */
  function OnlyDeclared(declared: seq<string>, req: FactRequest): FactRequest {
    WithFacts(req, Filter(IsDeclaredFact(declared), req.facts.UnwrapOr(EMPTY_EVENT_BOOK).pages))
  }

  /**
   * Facts of undeclared types make no difference to the handler, and a request with no other facts
   * comes back as an error or as a success without pages.
   */
  ghost predicate SkipsUndeclared(f: Factory) {
    && f.config.CommandHandlerConfig?
    && (forall req ::
          AsFactBook(f.Dispatch(HandleFactRequest(req))) ==
          AsFactBook(f.Dispatch(HandleFactRequest(OnlyDeclared(f.config.handlesFact, req)))))
    && (forall req :: NoneDeclared(f.config.handlesFact, req) ==>
          var answer := AsFactBook(f.Dispatch(HandleFactRequest(req)));
          answer.Err? || answer == Ok(EMPTY_EVENT_BOOK))
  }

  lemma {:induction false} FilterNone<A>(keep: A -> bool, xs: seq<A>)
    requires forall i :: 0 <= i < |xs| ==> !keep(xs[i])
    ensures Filter(keep, xs) == []
  {
    if |xs| > 0 {
      FilterNone(keep, xs[1..]);
    }
  }

  /** A generated aggregate without a matching fact arm only rebuilds, then answers with an empty book. */
  lemma UndeclaredFactsVanish<S, M>(a: Aggregate<S, M>, req: FactRequest)
    requires NoneDeclared(Keys(a.handlesFact), req)
    ensures RunFact(a, req) ==
            match Rebuild(a.applies, a.initial, req.priorEvents.UnwrapOr(EMPTY_EVENT_BOOK).pages)
            case Ok(_) => Ok(EMPTY_EVENT_BOOK)
            case Err(e) => Err(e)
  {
    if req.facts.Some? {
      OnlyDeclaredFactsMatter(a, req, req.facts.value);
      FilterNone(IsDeclaredFact(Keys(a.handlesFact)), req.facts.value.pages);
    }
  }

  lemma OnlyDeclaredCount<S, M>(a: Aggregate<S, M>, req: FactRequest)
    ensures RunFact(a, req) == RunFact(a, OnlyDeclared(Keys(a.handlesFact), req))
  {
    if req.facts.Some? {
      OnlyDeclaredFactsMatter(a, req, req.facts.value);
    }
  }

  /** Generated aggregates skip what they do not declare. */
  lemma GeneratedSkipsUndeclared<S, M>(w: Wire, a: Aggregate<S, M>)
    ensures SkipsUndeclared(AggregateFactory(w, a))
    ensures forall req :: AsFactBook(AggregateFactory(w, a).Dispatch(HandleFactRequest(req))) == RunFact(a, req)
  {
    var f := AggregateFactory(w, a);
    forall req ensures AsFactBook(f.Dispatch(HandleFactRequest(req))) == RunFact(a, req) {
      assert f.Dispatch(HandleFactRequest(req)) == AggregateAnswer(w, a, HandleFactRequest(req));
    }
    forall req ensures RunFact(a, req) == RunFact(a, OnlyDeclared(f.config.handlesFact, req)) {
      OnlyDeclaredCount(a, req);
    }
    forall req | NoneDeclared(f.config.handlesFact, req)
      ensures RunFact(a, req).Err? || RunFact(a, req) == Ok(EMPTY_EVENT_BOOK)
    {
      UndeclaredFactsVanish(a, req);
    }
  }

  /**
   * The fact RPC. Here the mismatch is quiet: behind a gate opened by any handler, the first command
   * handler answers as if the facts it does not declare had not been sent, mixed with others or
   * alone, even when a later handler declares them.
   */
  method HandleFact(fs: seq<Factory>, req: FactRequest) returns (r: Gated<EventBook>)
    ensures r.Unimplemented? <==> forall i :: 0 <= i < |fs| ==> !DeclaresFacts(fs[i])
    ensures r.Dispatched? ==> r.answer == RouteFact(fs, req)
    ensures r.Dispatched? ==> forall k: nat :: IsFirstCommandHandler(fs, k) ==>
              r.answer == AsFactBook(fs[k].Dispatch(HandleFactRequest(req)))
    ensures r.Dispatched? ==> forall k: nat :: IsFirstCommandHandler(fs, k) && SkipsUndeclared(fs[k]) ==>
              r.answer == AsFactBook(fs[k].Dispatch(HandleFactRequest(OnlyDeclared(fs[k].config.handlesFact, req))))
    ensures r.Dispatched? ==> forall k: nat ::
              IsFirstCommandHandler(fs, k) && SkipsUndeclared(fs[k]) && NoneDeclared(fs[k].config.handlesFact, req) ==>
                r.answer.Err? || r.answer == Ok(EMPTY_EVENT_BOOK)
  {
    var open := SupportsHandleFact(fs);
    if !open {
      return Unimplemented;
    }
    var answer := DispatchFact(fs, req);
    return Dispatched(answer);
  }

  // ----------------------------------------------------------- Which facts are lost

  /** The router answers alike with and without the fact, whatever else the request holds. */
  ghost predicate MakesNoDifference(fs: seq<Factory>, page: EventPage) {
    forall req, before, after :: SameAnswer(fs, page, req, before, after)
  }

  ghost predicate SameAnswer(fs: seq<Factory>, page: EventPage, req: FactRequest, before: seq<EventPage>,
                             after: seq<EventPage>)
  {
    RouteFact(fs, WithFacts(req, before + [page] + after)) == RouteFact(fs, WithFacts(req, before + after))
  }

  /** The fact makes no difference to any router whose generated handler k has the config of this one. */
  ghost predicate Lost(fs: seq<Factory>, k: nat, page: EventPage)
    requires k < |fs|
  {
    forall w, b: Aggregate<(), ()> :: AggregateConfig(b) == fs[k].config ==>
      MakesNoDifference(fs[k := AggregateFactory(w, b)], page)
  }

  /** A fact no arm is declared for might as well not be in the request, wherever it stands. */
  lemma UndeclaredFactIsSkipped<S, M>(a: Aggregate<S, M>, req: FactRequest, page: EventPage,
                                      before: seq<EventPage>, after: seq<EventPage>)
    requires !DeclaresFact(Keys(a.handlesFact), page)
    ensures RunFact(a, WithFacts(req, before + [page] + after)) == RunFact(a, WithFacts(req, before + after))
  {
    var keep := IsDeclaredFact(Keys(a.handlesFact));
    OnlyDeclaredCount(a, WithFacts(req, before + [page] + after));
    OnlyDeclaredCount(a, WithFacts(req, before + after));
    FilterAppend(keep, before + [page], after);
    FilterAppend(keep, before, [page]);
    FilterAppend(keep, before, after);
    FilterNone(keep, [page]);
    assert Filter(keep, before) + [] == Filter(keep, before);
  }

  function ArmsFor<K, V>(keys: seq<K>, body: V): (arms: seq<Arm<K, V>>)
    ensures Keys(arms) == keys
    ensures forall i :: 0 <= i < |arms| ==> arms[i].body == body
  {
    seq(|keys|, i requires 0 <= i < |keys| => Arm(keys[i], body))
  }

  /** The page every fact arm below emits. */
  const EMITTED := EventPage(None, None, None, false, None)

  /** An aggregate with a given config, each of whose fact arms emits one page. */
  function Emitting(c: HandlerConfig): Aggregate<(), ()>
    requires c.CommandHandlerConfig?
  {
    Aggregate(
      c.domain,
      ArmsFor(c.handled,
              HandleBody((value: Bytes) => Ok(()), (command: (), state: (), n: uint32) => Ok(EMPTY_EVENT_BOOK))),
      ArmsFor(c.rejected, RejectBody((notification: Notification, state: ()) => Ok(BusinessResponse(None)))),
      ArmsFor(c.applies, ApplyBody((value: Bytes) => Ok(()), (state: (), event: ()) => ())),
      (),
      ArmsFor(c.handlesFact,
              FactBody((value: Bytes) => Ok(()), (fact: (), state: ()) => Ok(EMPTY_EVENT_BOOK.(pages := [EMITTED])))),
      c.supportsReplay,
      StateCodec("", (state: ()) => [], (value: Bytes) => Ok(())))
  }

  function FactOf(url: string): EventPage {
    EventPage(None, None, Some(Event(Any(url, []))), false, None)
  }

  /** A declared fact, alone in a request without prior events, is answered with its page. */
  lemma EmittingAnswers(c: HandlerConfig, page: EventPage)
    requires c.CommandHandlerConfig? && DeclaresFact(c.handlesFact, page)
    ensures AggregateConfig(Emitting(c)) == c
    ensures RunFact(Emitting(c), WithFacts(FactRequest(None, None), [page])) ==
            Ok(EMPTY_EVENT_BOOK.(pages := [EMITTED]))
    ensures RunFact(Emitting(c), WithFacts(FactRequest(None, None), [])) == Ok(EMPTY_EVENT_BOOK)
  {
    var b := Emitting(c);
    LookupFirst(b.handlesFact, page.payload.value.event.typeUrl);
    assert FactPage(b, (), page) == Ok([EMITTED]);
    FoldMSnoc(FactStep(b, ()), [], [], page);
    assert [] + [page] == [page] && [] + [EMITTED] == [EMITTED];
    assert Rebuild(b.applies, (), []) == Ok(());
  }

  /** The exact loss: a fact is lost if and only if the first command handler does not declare its type. */
  lemma LostExactly(fs: seq<Factory>, k: nat, page: EventPage)
    requires IsFirstCommandHandler(fs, k)
    ensures Lost(fs, k, page) <==> !DeclaresFact(fs[k].config.handlesFact, page)
  {
    if DeclaresFact(fs[k].config.handlesFact, page) {
      DeclaredIsNotLost(fs, k, page);
    } else {
      forall w, b: Aggregate<(), ()> | AggregateConfig(b) == fs[k].config
        ensures MakesNoDifference(fs[k := AggregateFactory(w, b)], page)
      {
        UndeclaredIsLost(fs, k, w, b, page);
      }
    }
  }

  /** One half for every generated handler, whatever its state and message types. */
  lemma UndeclaredIsLost<S, M>(fs: seq<Factory>, k: nat, w: Wire, b: Aggregate<S, M>, page: EventPage)
    requires IsFirstCommandHandler(fs, k) && AggregateConfig(b) == fs[k].config
    requires !DeclaresFact(fs[k].config.handlesFact, page)
    ensures MakesNoDifference(fs[k := AggregateFactory(w, b)], page)
  {
    var gs := fs[k := AggregateFactory(w, b)];
    forall req, before, after ensures SameAnswer(gs, page, req, before, after) {
      RouterAnswers(fs, k, w, b, WithFacts(req, before + [page] + after));
      RouterAnswers(fs, k, w, b, WithFacts(req, before + after));
      UndeclaredFactIsSkipped(b, req, page, before, after);
    }
  }

  lemma DeclaredIsNotLost(fs: seq<Factory>, k: nat, page: EventPage)
    requires IsFirstCommandHandler(fs, k) && DeclaresFact(fs[k].config.handlesFact, page)
    ensures !Lost(fs, k, page)
  {
    var w := Wire((value: Bytes) => Err(""), (value: Bytes) => Err(""));
    var b := Emitting(fs[k].config);
    var gs := fs[k := AggregateFactory(w, b)];
    var req := FactRequest(None, None);
    EmittingAnswers(fs[k].config, page);
    RouterAnswers(fs, k, w, b, WithFacts(req, [page]));
    RouterAnswers(fs, k, w, b, WithFacts(req, []));
    var none: seq<EventPage> := [];
    assert none + [page] + none == [page] && none + none == none;
    assert EMPTY_EVENT_BOOK.(pages := [EMITTED]).pages != EMPTY_EVENT_BOOK.pages;
    assert !SameAnswer(gs, page, req, none, none);
  }

  /** A router whose first command handler is generated answers with its fact body. */
  lemma RouterAnswers<S, M>(fs: seq<Factory>, k: nat, w: Wire, b: Aggregate<S, M>, req: FactRequest)
    requires IsFirstCommandHandler(fs, k)
    ensures RouteFact(fs[k := AggregateFactory(w, b)], req) == RunFact(b, req)
  {
    FirstAnswers(fs[k := AggregateFactory(w, b)], k, ReplayRequest(None, []), req);
    GeneratedSkipsUndeclared(w, b);
  }

  ghost predicate DeclaredSomewhere(fs: seq<Factory>, page: EventPage) {
    exists i :: 0 <= i < |fs| && fs[i].config.CommandHandlerConfig? && DeclaresFact(fs[i].config.handlesFact, page)
  }

  /** The first command handler declares every fact type any command handler declares. */
  ghost predicate FirstDeclaresAll(fs: seq<Factory>, k: nat)
    requires k < |fs| && fs[k].config.CommandHandlerConfig?
  {
    forall i, url :: 0 <= i < |fs| && fs[i].config.CommandHandlerConfig? && url in fs[i].config.handlesFact ==>
      url in fs[k].config.handlesFact
  }

  /** The gate, in terms of facts: open exactly when some page is declared by some command handler. */
  lemma FactGateIsAboutPages(fs: seq<Factory>)
    ensures (exists i :: 0 <= i < |fs| && DeclaresFacts(fs[i])) <==> exists page :: DeclaredSomewhere(fs, page)
  {
    if i :| 0 <= i < |fs| && DeclaresFacts(fs[i]) {
      var url := fs[i].config.handlesFact[0];
      assert DeclaresFact(fs[i].config.handlesFact, FactOf(url));
      assert DeclaredSomewhere(fs, FactOf(url));
    }
    if page :| DeclaredSomewhere(fs, page) {
      var i :| 0 <= i < |fs| && fs[i].config.CommandHandlerConfig? && DeclaresFact(fs[i].config.handlesFact, page);
      assert DeclaresFacts(fs[i]);
    }
  }

  /** The handler's config lists the type URL of the event the page holds. */
  lemma DeclaredByFields(declared: seq<string>, page: EventPage)
    ensures DeclaresFact(declared, page) <==>
            exists i, any :: 0 <= i < |declared| && page.payload == Some(Event(any)) && declared[i] == any.typeUrl
  {
    if DeclaresFact(declared, page) {
      var any := page.payload.value.event;
      var i :| 0 <= i < |declared| && declared[i] == any.typeUrl;
      assert page.payload == Some(Event(any));
    }
  }

  /**
   * When the fact gate keeps its promise: no fact that some command handler declares is lost, if and
   * only if the first of them declares them all.
   */
  lemma NoFactLostExactly(fs: seq<Factory>, k: nat)
    requires IsFirstCommandHandler(fs, k)
    ensures (forall page :: DeclaredSomewhere(fs, page) ==> !Lost(fs, k, page)) <==> FirstDeclaresAll(fs, k)
  {
    forall page ensures Lost(fs, k, page) <==> !DeclaresFact(fs[k].config.handlesFact, page) {
      LostExactly(fs, k, page);
    }
    if !FirstDeclaresAll(fs, k) {
      var i, url :| 0 <= i < |fs| && fs[i].config.CommandHandlerConfig? && url in fs[i].config.handlesFact &&
                    url !in fs[k].config.handlesFact;
      assert DeclaresFact(fs[i].config.handlesFact, FactOf(url));
      assert DeclaredSomewhere(fs, FactOf(url)) && Lost(fs, k, FactOf(url));
    }
  }

  // ---------------------------------------------------- Two buildable routers

  /** A handler of one command, with the given fact types and opt-in. */
  function Small(command: string, facts: seq<string>, optedIn: bool): HandlerConfig {
    CommandHandlerConfig("order", [command], [], [], facts, optedIn)
  }

  lemma TwoSmallBuild(f: Factory, g: Factory, c1: string, c2: string)
    requires f.kind == g.kind && f.config.CommandHandlerConfig? && g.config.CommandHandlerConfig?
    requires f.config.handled == [c1] && g.config.handled == [c2] && c1 != c2
    ensures Buildable([f, g])
  {
    var keys := RouterKeys([f, g]);
    FlatMapSnoc(KeysOfFactory(), [f], g);
    FlatMapSnoc(KeysOfFactory(), [], f);
    assert [f] + [g] == [f, g] && [] + [f] == [f];
    assert keys == FactoryKeys(f) + FactoryKeys(g);
    assert |keys| == 2 && keys[0].1 == c1 && keys[1].1 == c2;
  }

  /**
   * A router `build` accepts, both of whose handlers declare facts: a request with a fact of the
   * second comes back empty, although the gate is open and the other order of registration answers
   * it with a page.
   */
  lemma LaterFactIsLost(w: Wire, c1: string, c2: string, x: string, y: string)
    requires c1 != c2 && x != y
    ensures var f := AggregateFactory(w, Emitting(Small(c1, [x], false)));
            var g := AggregateFactory(w, Emitting(Small(c2, [y], false)));
            var req := WithFacts(FactRequest(None, None), [FactOf(y)]);
            && Buildable([f, g]) && Buildable([g, f]) && DeclaresFacts(f) && DeclaresFacts(g)
            && RouteFact([f, g], req) == Ok(EMPTY_EVENT_BOOK)
            && RouteFact([g, f], req) == Ok(EMPTY_EVENT_BOOK.(pages := [EMITTED]))
  {
    var a, b := Emitting(Small(c1, [x], false)), Emitting(Small(c2, [y], false));
    var f, g := AggregateFactory(w, a), AggregateFactory(w, b);
    var req := WithFacts(FactRequest(None, None), [FactOf(y)]);
    TwoSmallBuild(f, g, c1, c2);
    TwoSmallBuild(g, f, c2, c1);
    GeneratedSkipsUndeclared(w, a);
    GeneratedSkipsUndeclared(w, b);
    UndeclaredFactsVanish(a, req);
    assert Rebuild(a.applies, (), []) == Ok(());
    EmittingAnswers(Small(c2, [y], false), FactOf(y));
  }

  /** The same for replay: refused behind the open gate in one order, served in the other. */
  lemma LaterOptInIsRefused(w: Wire, c1: string, c2: string, req: ReplayRequest)
    requires c1 != c2
    ensures var f := AggregateFactory(w, Emitting(Small(c1, [], false)));
            var g := AggregateFactory(w, Emitting(Small(c2, [], true)));
            && Buildable([f, g]) && Buildable([g, f]) && OptedIn(g)
            && RouteReplay([f, g], req) == REFUSED && RouteReplay([g, f], req) != REFUSED
  {
    var a, b := Emitting(Small(c1, [], false)), Emitting(Small(c2, [], true));
    var f, g := AggregateFactory(w, a), AggregateFactory(w, b);
    TwoSmallBuild(f, g, c1, c2);
    TwoSmallBuild(g, f, c2, c1);
    GeneratedHonoursOptIn(w, a);
    GeneratedHonoursOptIn(w, b);
    RefusedExactlyWhenOptedOut(a, req);
    RefusedExactlyWhenOptedOut(b, req);
  }
}
