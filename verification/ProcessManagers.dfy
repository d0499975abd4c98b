/** Process managers: the body `#[process_manager]` generates and the fan-out of its router. */
module ProcessManagers {
  import opened Foundations
  import opened Proto
  import opened Handlers
  import opened Rebuilding

  type PmRequest = ProcessManagerHandleRequest
  type PmResponse = ProcessManagerHandleResponse

  /** A `#[handles(E)]` method of a process manager with the decoder of `E`. */
  datatype PmBody<!S, !M> = PmBody(
    decode: Bytes -> Result<M, string>,
    handle: (M, S) -> Result<ProcessManagerHandleResponse, CommandRejectedError>)

  datatype ProcessManager<!S, !M> = ProcessManager(
    name: string,
    pmDomain: string,
    sources: seq<string>,
    targets: seq<string>,
    syncTargets: seq<string>,
    handles: seq<Arm<string, PmBody<S, M>>>,
    rejected: seq<(string, string)>,
    applies: ApplyArms<S, M>,
    initial: S)

  const NO_RESPONSE := ProcessManagerHandleResponse([], [], [])

  // ------------------------------------------------------- Generated body

  function TriggerAny(req: PmRequest): Result<Any, ClientError> {
    match req.trigger
    case None => Err(MissingPmTrigger)
    case Some(book) =>
      if |book.pages| == 0 then Err(EmptyPmTrigger)
      else
        match book.pages[|book.pages| - 1].payload
        case Some(Event(any)) => Ok(any)
        case _ => Err(MissingPmEventPayload)
  }

  /** What a process manager does with its trigger once its state is rebuilt. */
  function HandleTrigger<S, M>(p: ProcessManager<S, M>, req: PmRequest, state: S): Result<PmResponse, ClientError> {
    var event :- TriggerAny(req);
    match Lookup(p.handles, event.typeUrl)
    case None => Ok(NO_RESPONSE)
    case Some(body) =>
      match body.decode(event.value)
      case Err(cause) => Err(AnyDecodeFailed(event.typeUrl, cause))
      case Ok(message) => UserResult(body.handle(message, state))
  }

  function RunPm<S, M>(p: ProcessManager<S, M>, req: PmRequest): Result<PmResponse, ClientError> {
    var state :- Rebuild(p.applies, p.initial, req.processState.UnwrapOr(EMPTY_EVENT_BOOK).pages);
    HandleTrigger(p, req, state)
  }

  function PmAnswer<S, M>(p: ProcessManager<S, M>, req: HandlerRequest): Result<HandlerResponse, ClientError> {
    match req
    case ProcessManagerRequest(r) =>
      var response :- RunPm(p, r);
      Ok(ProcessManagerResponse(response))
    case _ => Err(HandlerWrongRequestKind("ProcessManager"))
  }

  function PmFactory<S, M>(p: ProcessManager<S, M>): Factory {
    Factory(ProcessManagerKind,
            ProcessManagerConfig(p.name, p.pmDomain, p.sources, p.targets, p.syncTargets, Keys(p.handles), p.rejected,
                                 Keys(p.applies)),
            (history, req) => PmAnswer(p, req))
  }

  /** `Handler::dispatch` of a process manager: the rebuild loop over its own events, then one arm. */
  method DispatchPm<S, M>(p: ProcessManager<S, M>, req: PmRequest) returns (r: Result<PmResponse, ClientError>)
    ensures r == RunPm(p, req)
  {
    var pages := req.processState.UnwrapOr(EMPTY_EVENT_BOOK).pages;
    var state := p.initial;
    for i := 0 to |pages|
      invariant Rebuild(p.applies, p.initial, pages) == Rebuild(p.applies, state, pages[i..])
    {
      assert pages[i..][1..] == pages[i + 1..];
      state :- ApplyPage(p.applies, state, pages[i]);
    }
    r := HandleTrigger(p, req, state);
  }

  /**
   * The process-manager rebuild obeys the rule of the command, fact and replay loops: it depends
   * on the applicable pages of the process state alone, whatever snapshot the book carries, and a
   * decode error in them is reported before the trigger is looked at.
   */
  lemma PmRebuild<S, M>(p: ProcessManager<S, M>, req: PmRequest, b: EventBook, c: EventBook)
    requires Filter(IsApplicable(p.applies), b.pages) == Filter(IsApplicable(p.applies), c.pages)
    ensures RunPm(p, req.(processState := Some(b))) == RunPm(p, req.(processState := Some(c)))
    ensures RunPm(p, req.(processState := Some(b))) ==
            match Rebuild(p.applies, p.initial, c.pages)
            case Err(e) => Err(e)
            case Ok(state) => HandleTrigger(p, req, state)
  {
    RebuildIgnoresOtherPages(p.applies, p.initial, b.pages);
    RebuildIgnoresOtherPages(p.applies, p.initial, c.pages);
    assert TriggerAny(req.(processState := Some(b))) == TriggerAny(req);
    assert TriggerAny(req.(processState := Some(c))) == TriggerAny(req);
  }

  // --------------------------------------------------------------- Router

  function ExtractEventTypeUrl(req: PmRequest): Result<string, ClientError> {
    var any :- TriggerAny(req);
    if any.typeUrl == "" || !(TYPE_URL_PREFIX <= any.typeUrl) then Err(PmInvalidTypeUrl(any.typeUrl))
    else Ok(any.typeUrl)
  }

  function TriggerDomain(req: PmRequest): string {
    match req.trigger
    case Some(book) => CoverDomain(book.cover)
    case None => ""
  }

  predicate Subscribes(f: Factory, domain: string, url: string) {
    f.config.ProcessManagerConfig? && domain in f.config.sources && url in f.config.handled
  }

  function Subscribed(domain: string, url: string): Factory -> bool {
    (f: Factory) => Subscribes(f, domain, url)
  }

  function AsPmResponse(r: Result<HandlerResponse, ClientError>): Result<PmResponse, ClientError> {
    match r
    case Err(e) => Err(e)
    case Ok(ProcessManagerResponse(response)) => Ok(response)
    case Ok(_) => Err(HandlerWrongResponseKind("ProcessManager"))
  }

  function Responder(req: PmRequest): Factory -> Result<PmResponse, ClientError> {
    (f: Factory) => AsPmResponse(f.Dispatch(ProcessManagerRequest(req)))
  }

  function Commands(): PmResponse -> seq<CommandBook> {
    (r: PmResponse) => r.commands
  }

  function Facts(): PmResponse -> seq<EventBook> {
    (r: PmResponse) => r.facts
  }

  function ProcessEvents(): PmResponse -> seq<EventBook> {
    (r: PmResponse) => r.processEvents
  }

  /** Component-wise concatenation. */
  function Merge(rs: seq<PmResponse>): PmResponse {
    ProcessManagerHandleResponse(FlatMap(Commands(), rs), FlatMap(Facts(), rs), FlatMap(ProcessEvents(), rs))
  }

  function Answers(fs: seq<Factory>, req: PmRequest, url: string): Result<seq<PmResponse>, ClientError> {
    Traverse(Responder(req), Filter(Subscribed(TriggerDomain(req), url), fs))
  }

  function RoutePm(fs: seq<Factory>, req: PmRequest): Result<PmResponse, ClientError> {
    var url :- ExtractEventTypeUrl(req);
    var rs :- Answers(fs, req, url);
    Ok(Merge(rs))
  }

  /** `ProcessManagerRouter::dispatch`. */
  method Dispatch(fs: seq<Factory>, req: PmRequest) returns (r: Result<PmResponse, ClientError>)
    ensures r == RoutePm(fs, req)
  {
    var url :- ExtractEventTypeUrl(req);
    var domain := TriggerDomain(req);
    var merged := NO_RESPONSE;
    ghost var rs: seq<PmResponse> := [];
    ghost var whole := Answers(fs, req, url);
    assert whole.Ok? ==> [] + whole.value == whole.value;
    assert fs[0..] == fs;
    for i := 0 to |fs|
      invariant merged == Merge(rs)
      invariant whole == Resume(rs, Answers(fs[i..], req, url))
    {
      FanOutStep(Subscribed(domain, url), Responder(req), fs, i, rs);
      var f := fs[i];
      if !f.config.ProcessManagerConfig? || domain !in f.config.sources || url !in f.config.handled {
        continue;
      }
      var response :- AsPmResponse(f.Dispatch(ProcessManagerRequest(req)));
      merged := ProcessManagerHandleResponse(merged.commands + response.commands,
                                             merged.facts + response.facts,
                                             merged.processEvents + response.processEvents);
      FlatMapSnoc(Commands(), rs, response);
      FlatMapSnoc(Facts(), rs, response);
      FlatMapSnoc(ProcessEvents(), rs, response);
      rs := rs + [response];
    }
    assert rs + [] == rs;
    return Ok(merged);
  }

  // ------------------------------------------------------------ Properties

  lemma PmSplit(fs: seq<Factory>, gs: seq<Factory>, req: PmRequest)
    ensures RoutePm(fs + gs, req) ==
            match RoutePm(fs, req)
            case Err(e) => Err(e)
            case Ok(a) =>
              match RoutePm(gs, req)
              case Err(e) => Err(e)
              case Ok(b) =>
                Ok(ProcessManagerHandleResponse(a.commands + b.commands, a.facts + b.facts,
                                                a.processEvents + b.processEvents))
  {
    if ExtractEventTypeUrl(req).Ok? {
      var url := ExtractEventTypeUrl(req).value;
      var select := Subscribed(TriggerDomain(req), url);
      FilterAppend(select, fs, gs);
      TraverseAppend(Responder(req), Filter(select, fs), Filter(select, gs));
      if Answers(fs, req, url).Ok? && Answers(gs, req, url).Ok? {
        FlatMapAppend(Commands(), Answers(fs, req, url).value, Answers(gs, req, url).value);
        FlatMapAppend(Facts(), Answers(fs, req, url).value, Answers(gs, req, url).value);
        FlatMapAppend(ProcessEvents(), Answers(fs, req, url).value, Answers(gs, req, url).value);
      }
    }
  }

  lemma OnlySubscribersMatter(fs: seq<Factory>, req: PmRequest)
    requires ExtractEventTypeUrl(req).Ok?
    ensures RoutePm(Filter(Subscribed(TriggerDomain(req), ExtractEventTypeUrl(req).value), fs), req) ==
            RoutePm(fs, req)
  {
    FilterIdempotent(Subscribed(TriggerDomain(req), ExtractEventTypeUrl(req).value), fs);
  }

  lemma PmAnyOrder(fs: seq<Factory>, gs: seq<Factory>, req: PmRequest)
    requires multiset(fs) == multiset(gs) && RoutePm(fs, req).Ok?
    ensures RoutePm(gs, req).Ok?
    ensures multiset(RoutePm(gs, req).value.commands) == multiset(RoutePm(fs, req).value.commands)
    ensures multiset(RoutePm(gs, req).value.facts) == multiset(RoutePm(fs, req).value.facts)
    ensures multiset(RoutePm(gs, req).value.processEvents) == multiset(RoutePm(fs, req).value.processEvents)
  {
    var select := Subscribed(TriggerDomain(req), ExtractEventTypeUrl(req).value);
    MergeAnyOrder(select, Responder(req), Commands(), fs, gs);
    MergeAnyOrder(select, Responder(req), Facts(), fs, gs);
    MergeAnyOrder(select, Responder(req), ProcessEvents(), fs, gs);
  }

  /**
   * A generated process manager the router selects runs, on its rebuilt state, the first arm it
   * declares for the last trigger event: the empty response of its body is out of reach.
   */
  lemma SelectedPmRunsItsArm<S, M>(p: ProcessManager<S, M>, req: PmRequest)
    requires ExtractEventTypeUrl(req).Ok?
    requires Subscribes(PmFactory(p), TriggerDomain(req), ExtractEventTypeUrl(req).value)
    ensures var any := req.trigger.value.pages[|req.trigger.value.pages| - 1].payload.value.event;
            any.typeUrl in Keys(p.handles) &&
            RoutePm([PmFactory(p)], req) ==
              match Rebuild(p.applies, p.initial, req.processState.UnwrapOr(EMPTY_EVENT_BOOK).pages)
              case Err(e) => Err(e)
              case Ok(state) =>
                var body := p.handles[FirstIndex(Keys(p.handles), any.typeUrl)].body;
                match body.decode(any.value)
                case Err(cause) => Err(AnyDecodeFailed(any.typeUrl, cause))
                case Ok(message) =>
                  match body.handle(message, state)
                  case Ok(response) => Ok(response)
                  case Err(e) => Err(Rejected(e))
  {
    var url := ExtractEventTypeUrl(req).value;
    var f := PmFactory(p);
    LookupFirst(p.handles, url);
    assert Responder(req)(f) == RunPm(p, req) by {
      assert f.Dispatch(ProcessManagerRequest(req)) == PmAnswer(p, ProcessManagerRequest(req));
    }
    TraverseOne(Responder(req), f);
    assert [f][1..] == [];
    assert Filter(Subscribed(TriggerDomain(req), url), [f]) == [f];
    assert Answers([f], req, url) == Traverse(Responder(req), [f]);
    assert RunPm(p, req).Err? ==> RoutePm([f], req) == Err(RunPm(p, req).error);
    if RunPm(p, req).Ok? {
      var r := RunPm(p, req).value;
      FlatMapSnoc(Commands(), [], r);
      FlatMapSnoc(Facts(), [], r);
      FlatMapSnoc(ProcessEvents(), [], r);
      assert [] + [r] == [r] && [] + r.commands == r.commands && [] + r.facts == r.facts;
      assert [] + r.processEvents == r.processEvents;
      assert Merge([r]) == r;
    }
  }

  /** Same process state, same trigger cover and same last trigger page. */
  ghost predicate SameTrigger(p: PmRequest, q: PmRequest) {
    && p.processState == q.processState
    && p.trigger.Some? && q.trigger.Some?
    && p.trigger.value.cover == q.trigger.value.cover
    && |p.trigger.value.pages| > 0 && |q.trigger.value.pages| > 0
    && p.trigger.value.pages[|p.trigger.value.pages| - 1] == q.trigger.value.pages[|q.trigger.value.pages| - 1]
  }

  ghost predicate ReadsOnlyTrigger(f: Factory) {
    forall p, q :: SameTrigger(p, q) ==> f.Dispatch(ProcessManagerRequest(p)) == f.Dispatch(ProcessManagerRequest(q))
  }

  lemma GeneratedPmReadsOnlyTrigger<S, M>(pm: ProcessManager<S, M>)
    ensures ReadsOnlyTrigger(PmFactory(pm))
  {
    forall p, q | SameTrigger(p, q)
      ensures PmFactory(pm).Dispatch(ProcessManagerRequest(p)) == PmFactory(pm).Dispatch(ProcessManagerRequest(q))
    {
      assert TriggerAny(p) == TriggerAny(q);
      assert PmFactory(pm).Dispatch(ProcessManagerRequest(p)) == PmAnswer(pm, ProcessManagerRequest(p));
      assert PmFactory(pm).Dispatch(ProcessManagerRequest(q)) == PmAnswer(pm, ProcessManagerRequest(q));
    }
  }

  /** A router of such process managers answers from its state and the last trigger page alone. */
  lemma OnlyLastPageMatters(fs: seq<Factory>, p: PmRequest, q: PmRequest)
    requires SameTrigger(p, q) && forall i :: 0 <= i < |fs| ==> ReadsOnlyTrigger(fs[i])
    ensures RoutePm(fs, p) == RoutePm(fs, q)
  {
    if ExtractEventTypeUrl(p).Ok? {
      var select := Subscribed(TriggerDomain(p), ExtractEventTypeUrl(p).value);
      var matched := Filter(select, fs);
      FilterIdempotent(select, fs);
      forall i | 0 <= i < |matched| ensures Responder(p)(matched[i]) == Responder(q)(matched[i]) {
        assert matched[i] in fs;
      }
      TraverseCongruence(Responder(p), matched, Responder(q), matched);
    }
  }


  // ---------------------------------------------- Selection from the fields

  /** The positions of the process managers that list the domain as a source and handle the URL. */
  ghost predicate Chosen(fs: seq<Factory>, domain: string, url: string, picks: seq<nat>) {
    && Increasing(picks, |fs|)
    && forall k: nat :: k < |fs| ==>
         (k in picks <==> fs[k].config.ProcessManagerConfig? &&
                          (exists i :: 0 <= i < |fs[k].config.sources| && fs[k].config.sources[i] == domain) &&
                          (exists i :: 0 <= i < |fs[k].config.handled| && fs[k].config.handled[i] == url))
  }

  /** The process manager answers with a process-manager response. */
  ghost predicate Responds(f: Factory, req: PmRequest) {
    var answer := f.Dispatch(ProcessManagerRequest(req));
    answer.Ok? && answer.value.ProcessManagerResponse?
  }

  /** The process manager fails, or answers with a response of another kind. */
  ghost predicate FailsWith(f: Factory, req: PmRequest, error: ClientError) {
    match f.Dispatch(ProcessManagerRequest(req))
    case Err(e) => error == e
    case Ok(ProcessManagerResponse(_)) => false
    case Ok(_) => error == HandlerWrongResponseKind("ProcessManager")
  }

  function CommandLists(rs: seq<PmResponse>): (lists: seq<seq<CommandBook>>)
    ensures |lists| == |rs| && forall i :: 0 <= i < |rs| ==> lists[i] == rs[i].commands
  {
    seq(|rs|, i requires 0 <= i < |rs| => rs[i].commands)
  }

  function FactLists(rs: seq<PmResponse>): (lists: seq<seq<EventBook>>)
    ensures |lists| == |rs| && forall i :: 0 <= i < |rs| ==> lists[i] == rs[i].facts
  {
    seq(|rs|, i requires 0 <= i < |rs| => rs[i].facts)
  }

  function ProcessEventLists(rs: seq<PmResponse>): (lists: seq<seq<EventBook>>)
    ensures |lists| == |rs| && forall i :: 0 <= i < |rs| ==> lists[i] == rs[i].processEvents
  {
    seq(|rs|, i requires 0 <= i < |rs| => rs[i].processEvents)
  }

  /** Merging is concatenation, part by part. */
  lemma MergeIsConcat(rs: seq<PmResponse>)
    ensures Merge(rs) == ProcessManagerHandleResponse(Concat(CommandLists(rs)), Concat(FactLists(rs)),
                                                      Concat(ProcessEventLists(rs)))
  {
    FlatMapIsConcat(Commands(), rs, CommandLists(rs));
    FlatMapIsConcat(Facts(), rs, FactLists(rs));
    FlatMapIsConcat(ProcessEvents(), rs, ProcessEventLists(rs));
  }

  lemma ChosenIsSelected(fs: seq<Factory>, domain: string, url: string, picks: seq<nat>)
    ensures Chosen(fs, domain, url, picks) <==> Selects(Subscribed(domain, url), fs, picks)
  {
    forall k: nat | k < |fs|
      ensures Subscribed(domain, url)(fs[k]) <==>
              fs[k].config.ProcessManagerConfig? &&
              (exists i :: 0 <= i < |fs[k].config.sources| && fs[k].config.sources[i] == domain) &&
              (exists i :: 0 <= i < |fs[k].config.handled| && fs[k].config.handled[i] == url)
    {
    }
  }

  lemma ResponderCase(f: Factory, req: PmRequest)
    ensures match Responder(req)(f)
            case Ok(r) => Responds(f, req) && f.Dispatch(ProcessManagerRequest(req)) == Ok(ProcessManagerResponse(r))
            case Err(e) => FailsWith(f, req, e)
  {
  }

  /** The answers by position: all of them, or the error of the first to fail. */
  lemma AnswersByIndex(fs: seq<Factory>, req: PmRequest, url: string, domain: string, picks: seq<nat>)
    requires Chosen(fs, domain, url, picks)
    ensures match Traverse(Responder(req), Filter(Subscribed(domain, url), fs))
            case Ok(rs) =>
              && |rs| == |picks|
              && forall n :: 0 <= n < |picks| ==>
                   fs[picks[n]].Dispatch(ProcessManagerRequest(req)) == Ok(ProcessManagerResponse(rs[n]))
            case Err(e) =>
              exists n :: 0 <= n < |picks| && FailsWith(fs[picks[n]], req, e) &&
                          forall m :: 0 <= m < n ==> Responds(fs[picks[m]], req)
  {
    ChosenIsSelected(fs, domain, url, picks);
    FanOutByIndex(Subscribed(domain, url), Responder(req), fs, picks);
    var r := Traverse(Responder(req), Filter(Subscribed(domain, url), fs));
    forall n | 0 <= n < |picks|
      ensures Responder(req)(fs[picks[n]]).Ok? ==> Responds(fs[picks[n]], req)
      ensures Responder(req)(fs[picks[n]]).Ok? ==>
                fs[picks[n]].Dispatch(ProcessManagerRequest(req)) ==
                Ok(ProcessManagerResponse(Responder(req)(fs[picks[n]]).value))
      ensures Responder(req)(fs[picks[n]]).Err? ==> FailsWith(fs[picks[n]], req, Responder(req)(fs[picks[n]]).error)
    {
      ResponderCase(fs[picks[n]], req);
    }
    if r.Err? {
      var n :| 0 <= n < |picks| && Responder(req)(fs[picks[n]]) == Err(r.error) &&
               forall m :: 0 <= m < n ==> Responder(req)(fs[picks[m]]).Ok?;
      assert FailsWith(fs[picks[n]], req, r.error);
    }
  }

  /** An event whose type URL is outside "type.googleapis.com/" is refused. */
  lemma ForeignTypeRefused(fs: seq<Factory>, req: PmRequest, book: EventBook, any: Any)
    requires req.trigger == Some(book) && |book.pages| > 0
    requires book.pages[|book.pages| - 1].payload == Some(Event(any))
    requires !("type.googleapis.com/" <= any.typeUrl)
    ensures RoutePm(fs, req) == Err(PmInvalidTypeUrl(any.typeUrl))
  {
  }

  /**
   * Process-manager dispatch from the fields: the trigger's cover names the domain, its last page the
   * type; those that list the domain and handle the type answer in order, all three parts
   * concatenated, or the first to fail ends it.
   */
  lemma PmByFields(fs: seq<Factory>, req: PmRequest, book: EventBook, any: Any)
    returns (picks: seq<nat>, rs: seq<PmResponse>)
    requires req.trigger == Some(book) && |book.pages| > 0
    requires book.pages[|book.pages| - 1].payload == Some(Event(any))
    requires "type.googleapis.com/" <= any.typeUrl
    ensures Chosen(fs, if book.cover.Some? then book.cover.value.domain else "", any.typeUrl, picks)
    ensures RoutePm(fs, req).Ok? ==>
              && |rs| == |picks|
              && (forall n :: 0 <= n < |picks| ==>
                    fs[picks[n]].Dispatch(ProcessManagerRequest(req)) == Ok(ProcessManagerResponse(rs[n])))
              && RoutePm(fs, req) ==
                 Ok(ProcessManagerHandleResponse(Concat(CommandLists(rs)), Concat(FactLists(rs)),
                                                 Concat(ProcessEventLists(rs))))
    ensures RoutePm(fs, req).Err? ==>
              exists n :: 0 <= n < |picks| && FailsWith(fs[picks[n]], req, RoutePm(fs, req).error) &&
                          forall m :: 0 <= m < n ==> Responds(fs[picks[m]], req)
  {
    var domain := if book.cover.Some? then book.cover.value.domain else "";
    var select := Subscribed(domain, any.typeUrl);
    picks := PicksExist(select, fs);
    ChosenIsSelected(fs, domain, any.typeUrl, picks);
    AnswersByIndex(fs, req, any.typeUrl, domain, picks);
    var answers := Answers(fs, req, any.typeUrl);
    rs := [];
    if answers.Ok? {
      rs := answers.value;
      MergeIsConcat(rs);
      assert RoutePm(fs, req) == Ok(Merge(rs));
    } else {
      assert RoutePm(fs, req) == Err(answers.error);
    }
  }

  /** A request without a trigger, without pages, or whose last page holds no event is refused. */
  lemma IncompleteTrigger(fs: seq<Factory>, req: PmRequest)
    ensures req.trigger.None? ==> RoutePm(fs, req) == Err(MissingPmTrigger)
    ensures req.trigger.Some? && req.trigger.value.pages == [] ==> RoutePm(fs, req) == Err(EmptyPmTrigger)
    ensures req.trigger.Some? && |req.trigger.value.pages| > 0 &&
            (var last := req.trigger.value.pages[|req.trigger.value.pages| - 1];
             last.payload.None? || last.payload.value.ExternalEvent?) ==>
              RoutePm(fs, req) == Err(MissingPmEventPayload)
  {
  }

  /** A generated process manager asked about an event it has no arm for rebuilds and answers with nothing. */
  lemma UnhandledEvent<S, M>(p: ProcessManager<S, M>, req: PmRequest)
    requires TriggerAny(req).Ok? && TriggerAny(req).value.typeUrl !in Keys(p.handles)
    requires Rebuild(p.applies, p.initial, req.processState.UnwrapOr(EMPTY_EVENT_BOOK).pages).Ok?
    ensures RunPm(p, req) == Ok(ProcessManagerHandleResponse([], [], []))
  {
    LookupFirst(p.handles, TriggerAny(req).value.typeUrl);
  }


  /** What a router and readiness read in a generated process manager's config is what its attribute declares. */
  lemma GeneratedPmDeclares<S, M>(p: ProcessManager<S, M>, domain: string, url: string)
    ensures Subscribes(PmFactory(p), domain, url) <==>
            domain in p.sources && exists i :: 0 <= i < |p.handles| && p.handles[i].key == url
    ensures PmFactory(p).kind == ProcessManagerKind && PmFactory(p).config.ProcessManagerConfig?
    ensures PmFactory(p).config.targets == p.targets && PmFactory(p).config.syncTargets == p.syncTargets
  {
    var config := PmFactory(p).config;
    if i :| 0 <= i < |p.handles| && p.handles[i].key == url {
      assert config.handled[i] == url;
    }
  }
}
