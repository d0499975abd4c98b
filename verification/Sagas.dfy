/** Sagas: the body `#[saga]` generates and the fan-out of `SagaRouter`. */
module Sagas {
  import opened Foundations
  import opened Proto
  import opened Handlers

  /** A `#[handles(E)]` method of a saga with the decoder of `E`. */
  datatype SagaBody<!M> = SagaBody(
    decode: Bytes -> Result<M, string>,
    handle: M -> Result<SagaResponse, CommandRejectedError>)

  datatype Saga<!M> = Saga(
    name: string,
    source: string,
    target: string,
    sync: bool,
    handles: seq<Arm<string, SagaBody<M>>>,
    rejected: seq<(string, string)>)

  const NO_RESPONSE := SagaResponse([], [])

  // ------------------------------------------------------- Generated body

  /** The triggering event: the payload of the last page of the source book. */
  function TriggerAny(req: SagaHandleRequest): Result<Any, ClientError> {
    match req.source
    case None => Err(MissingSagaSource)
    case Some(book) =>
      if |book.pages| == 0 then Err(EmptySagaSource)
      else
        match book.pages[|book.pages| - 1].payload
        case Some(Event(any)) => Ok(any)
        case _ => Err(MissingSagaEventPayload)
  }

  function RunSaga<M>(s: Saga<M>, req: SagaHandleRequest): Result<SagaResponse, ClientError> {
    var event :- TriggerAny(req);
    match Lookup(s.handles, event.typeUrl)
    case None => Ok(NO_RESPONSE)
    case Some(body) =>
      match body.decode(event.value)
      case Err(cause) => Err(AnyDecodeFailed(event.typeUrl, cause))
      case Ok(message) => UserResult(body.handle(message))
  }

  function SagaAnswer<M>(s: Saga<M>, req: HandlerRequest): Result<HandlerResponse, ClientError> {
    match req
    case SagaRequest(r) =>
      var response :- RunSaga(s, r);
      Ok(SagaHandlerResponse(response))
    case _ => Err(HandlerWrongRequestKind("Saga"))
  }

  function SagaFactory<M>(s: Saga<M>): Factory {
    Factory(SagaKind,
            SagaConfig(s.name, s.source, s.target, s.sync, Keys(s.handles), s.rejected),
            (history, req) => SagaAnswer(s, req))
  }

  // --------------------------------------------------------------- Router

  function ExtractEventTypeUrl(req: SagaHandleRequest): Result<string, ClientError> {
    var any :- TriggerAny(req);
    if any.typeUrl == "" || !(TYPE_URL_PREFIX <= any.typeUrl) then Err(SagaInvalidTypeUrl(any.typeUrl))
    else Ok(any.typeUrl)
  }

  function SourceDomain(req: SagaHandleRequest): string {
    match req.source
    case Some(book) => CoverDomain(book.cover)
    case None => ""
  }

  predicate Subscribes(f: Factory, domain: string, url: string) {
    f.config.SagaConfig? && f.config.source == domain && url in f.config.handled
  }

  function Subscribed(domain: string, url: string): Factory -> bool {
    (f: Factory) => Subscribes(f, domain, url)
  }

  function AsSagaResponse(r: Result<HandlerResponse, ClientError>): Result<SagaResponse, ClientError> {
    match r
    case Err(e) => Err(e)
    case Ok(SagaHandlerResponse(response)) => Ok(response)
    case Ok(_) => Err(HandlerWrongResponseKind("Saga"))
  }

  function Responder(req: SagaHandleRequest): Factory -> Result<SagaResponse, ClientError> {
    (f: Factory) => AsSagaResponse(f.Dispatch(SagaRequest(req)))
  }

  function Commands(): SagaResponse -> seq<CommandBook> {
    (r: SagaResponse) => r.commands
  }

  function LocalEvents(): SagaResponse -> seq<EventBook> {
    (r: SagaResponse) => r.events
  }

  /** Component-wise concatenation. */
  function Merge(rs: seq<SagaResponse>): SagaResponse {
    SagaResponse(FlatMap(Commands(), rs), FlatMap(LocalEvents(), rs))
  }

  /** The answers of the subscribed sagas in registration order, or the first of their errors. */
  function Answers(fs: seq<Factory>, req: SagaHandleRequest, url: string): Result<seq<SagaResponse>, ClientError> {
    Traverse(Responder(req), Filter(Subscribed(SourceDomain(req), url), fs))
  }

  function RouteSaga(fs: seq<Factory>, req: SagaHandleRequest): Result<SagaResponse, ClientError> {
    var url :- ExtractEventTypeUrl(req);
    var rs :- Answers(fs, req, url);
    Ok(Merge(rs))
  }

  /** `SagaRouter::dispatch`. */
  method Dispatch(fs: seq<Factory>, req: SagaHandleRequest) returns (r: Result<SagaResponse, ClientError>)
    ensures r == RouteSaga(fs, req)
  {
    var url :- ExtractEventTypeUrl(req);
    var domain := SourceDomain(req);
    var merged := NO_RESPONSE;
    ghost var rs: seq<SagaResponse> := [];
    ghost var whole := Answers(fs, req, url);
    assert whole.Ok? ==> [] + whole.value == whole.value;
    assert fs[0..] == fs;
    for i := 0 to |fs|
      invariant merged == Merge(rs)
      invariant whole == Resume(rs, Answers(fs[i..], req, url))
    {
      FanOutStep(Subscribed(domain, url), Responder(req), fs, i, rs);
      var f := fs[i];
      if !f.config.SagaConfig? || f.config.source != domain || url !in f.config.handled {
        continue;
      }
      var response :- AsSagaResponse(f.Dispatch(SagaRequest(req)));
      merged := SagaResponse(merged.commands + response.commands, merged.events + response.events);
      FlatMapSnoc(Commands(), rs, response);
      FlatMapSnoc(LocalEvents(), rs, response);
      rs := rs + [response];
    }
    assert rs + [] == rs;
    return Ok(merged);
  }

  // ------------------------------------------------------------ Properties

  /** Dispatch over `fs + gs` is dispatch over each, component by component; the first error wins. */
  lemma SagaSplit(fs: seq<Factory>, gs: seq<Factory>, req: SagaHandleRequest)
    ensures RouteSaga(fs + gs, req) ==
            match RouteSaga(fs, req)
            case Err(e) => Err(e)
            case Ok(a) =>
              match RouteSaga(gs, req)
              case Err(e) => Err(e)
              case Ok(b) => Ok(SagaResponse(a.commands + b.commands, a.events + b.events))
  {
    if ExtractEventTypeUrl(req).Ok? {
      var url := ExtractEventTypeUrl(req).value;
      FilterAppend(Subscribed(SourceDomain(req), url), fs, gs);
      TraverseAppend(Responder(req), Filter(Subscribed(SourceDomain(req), url), fs),
                     Filter(Subscribed(SourceDomain(req), url), gs));
      if Answers(fs, req, url).Ok? && Answers(gs, req, url).Ok? {
        FlatMapAppend(Commands(), Answers(fs, req, url).value, Answers(gs, req, url).value);
        FlatMapAppend(LocalEvents(), Answers(fs, req, url).value, Answers(gs, req, url).value);
      }
    }
  }

  /** Sagas with another source or no handler for the event might as well not be registered. */
  lemma OnlySubscribersMatter(fs: seq<Factory>, req: SagaHandleRequest)
    requires ExtractEventTypeUrl(req).Ok?
    ensures RouteSaga(Filter(Subscribed(SourceDomain(req), ExtractEventTypeUrl(req).value), fs), req) ==
            RouteSaga(fs, req)
  {
    FilterIdempotent(Subscribed(SourceDomain(req), ExtractEventTypeUrl(req).value), fs);
  }

  /** When no subscribed saga fails, registration order only permutes what is merged. */
  lemma SagaAnyOrder(fs: seq<Factory>, gs: seq<Factory>, req: SagaHandleRequest)
    requires multiset(fs) == multiset(gs) && RouteSaga(fs, req).Ok?
    ensures RouteSaga(gs, req).Ok?
    ensures multiset(RouteSaga(gs, req).value.commands) == multiset(RouteSaga(fs, req).value.commands)
    ensures multiset(RouteSaga(gs, req).value.events) == multiset(RouteSaga(fs, req).value.events)
  {
    var select := Subscribed(SourceDomain(req), ExtractEventTypeUrl(req).value);
    MergeAnyOrder(select, Responder(req), Commands(), fs, gs);
    MergeAnyOrder(select, Responder(req), LocalEvents(), fs, gs);
  }

  /**
   * A generated saga the router selects runs the first arm it declares for the event of the last
   * page: the empty response of its body is out of reach.
   */
  lemma SelectedSagaRunsItsArm<M>(s: Saga<M>, req: SagaHandleRequest)
    requires ExtractEventTypeUrl(req).Ok?
    requires Subscribes(SagaFactory(s), SourceDomain(req), ExtractEventTypeUrl(req).value)
    ensures var any := req.source.value.pages[|req.source.value.pages| - 1].payload.value.event;
            any.typeUrl in Keys(s.handles) &&
            RouteSaga([SagaFactory(s)], req) ==
              var body := s.handles[FirstIndex(Keys(s.handles), any.typeUrl)].body;
              match body.decode(any.value)
              case Err(cause) => Err(AnyDecodeFailed(any.typeUrl, cause))
              case Ok(message) =>
                match body.handle(message)
                case Ok(response) => Ok(response)
                case Err(e) => Err(Rejected(e))
  {
    var url := ExtractEventTypeUrl(req).value;
    var f := SagaFactory(s);
    LookupFirst(s.handles, url);
    assert Responder(req)(f) == RunSaga(s, req) by {
      assert f.Dispatch(SagaRequest(req)) == SagaAnswer(s, SagaRequest(req));
    }
    TraverseOne(Responder(req), f);
    assert [f][1..] == [];
    assert Filter(Subscribed(SourceDomain(req), url), [f]) == [f];
    assert Answers([f], req, url) == Traverse(Responder(req), [f]);
    assert RunSaga(s, req).Err? ==> RouteSaga([f], req) == Err(RunSaga(s, req).error);
    if RunSaga(s, req).Ok? {
      var r := RunSaga(s, req).value;
      FlatMapSnoc(Commands(), [], r);
      FlatMapSnoc(LocalEvents(), [], r);
      assert [] + [r] == [r] && [] + r.commands == r.commands && [] + r.events == r.events;
      assert Merge([r]) == r;
    }
  }

  /** Same cover and same last page: all a saga request's earlier pages may differ. */
  ghost predicate SameTrigger(p: SagaHandleRequest, q: SagaHandleRequest) {
    && p.source.Some? && q.source.Some?
    && p.source.value.cover == q.source.value.cover
    && |p.source.value.pages| > 0 && |q.source.value.pages| > 0
    && p.source.value.pages[|p.source.value.pages| - 1] == q.source.value.pages[|q.source.value.pages| - 1]
  }

  ghost predicate ReadsOnlyTrigger(f: Factory) {
    forall p, q :: SameTrigger(p, q) ==> f.Dispatch(SagaRequest(p)) == f.Dispatch(SagaRequest(q))
  }

  lemma GeneratedSagaReadsOnlyTrigger<M>(s: Saga<M>)
    ensures ReadsOnlyTrigger(SagaFactory(s))
  {
    forall p, q | SameTrigger(p, q)
      ensures SagaFactory(s).Dispatch(SagaRequest(p)) == SagaFactory(s).Dispatch(SagaRequest(q))
    {
      assert TriggerAny(p) == TriggerAny(q);
      assert SagaFactory(s).Dispatch(SagaRequest(p)) == SagaAnswer(s, SagaRequest(p));
      assert SagaFactory(s).Dispatch(SagaRequest(q)) == SagaAnswer(s, SagaRequest(q));
    }
  }

  /** A router of such sagas answers from the last page of the source book alone. */
  lemma OnlyLastPageMatters(fs: seq<Factory>, p: SagaHandleRequest, q: SagaHandleRequest)
    requires SameTrigger(p, q) && forall i :: 0 <= i < |fs| ==> ReadsOnlyTrigger(fs[i])
    ensures RouteSaga(fs, p) == RouteSaga(fs, q)
  {
    if ExtractEventTypeUrl(p).Ok? {
      var matched := Filter(Subscribed(SourceDomain(p), ExtractEventTypeUrl(p).value), fs);
      FilterIdempotent(Subscribed(SourceDomain(p), ExtractEventTypeUrl(p).value), fs);
      forall i | 0 <= i < |matched| ensures Responder(p)(matched[i]) == Responder(q)(matched[i]) {
        assert matched[i] in fs;
      }
      TraverseCongruence(Responder(p), matched, Responder(q), matched);
    }
  }


  // ---------------------------------------------- Selection from the fields

  /** The positions of the sagas whose source is this domain and whose `#[handles]` list has the URL. */
  ghost predicate Chosen(fs: seq<Factory>, domain: string, url: string, picks: seq<nat>) {
    && Increasing(picks, |fs|)
    && forall k: nat :: k < |fs| ==>
         (k in picks <==> fs[k].config.SagaConfig? && fs[k].config.source == domain &&
                          exists i :: 0 <= i < |fs[k].config.handled| && fs[k].config.handled[i] == url)
  }

  /** The saga answers with a saga response. */
  ghost predicate Responds(f: Factory, req: SagaHandleRequest) {
    var answer := f.Dispatch(SagaRequest(req));
    answer.Ok? && answer.value.SagaHandlerResponse?
  }

  /** The saga fails, or answers with a response of another kind. */
  ghost predicate FailsWith(f: Factory, req: SagaHandleRequest, error: ClientError) {
    match f.Dispatch(SagaRequest(req))
    case Err(e) => error == e
    case Ok(SagaHandlerResponse(_)) => false
    case Ok(_) => error == HandlerWrongResponseKind("Saga")
  }

  function CommandLists(rs: seq<SagaResponse>): (lists: seq<seq<CommandBook>>)
    ensures |lists| == |rs| && forall i :: 0 <= i < |rs| ==> lists[i] == rs[i].commands
  {
    seq(|rs|, i requires 0 <= i < |rs| => rs[i].commands)
  }

  function EventLists(rs: seq<SagaResponse>): (lists: seq<seq<EventBook>>)
    ensures |lists| == |rs| && forall i :: 0 <= i < |rs| ==> lists[i] == rs[i].events
  {
    seq(|rs|, i requires 0 <= i < |rs| => rs[i].events)
  }

  /** Merging is concatenation, part by part. */
  lemma MergeIsConcat(rs: seq<SagaResponse>)
    ensures Merge(rs) == SagaResponse(Concat(CommandLists(rs)), Concat(EventLists(rs)))
  {
    FlatMapIsConcat(Commands(), rs, CommandLists(rs));
    FlatMapIsConcat(LocalEvents(), rs, EventLists(rs));
  }

  lemma ChosenIsSelected(fs: seq<Factory>, domain: string, url: string, picks: seq<nat>)
    ensures Chosen(fs, domain, url, picks) <==> Selects(Subscribed(domain, url), fs, picks)
  {
    forall k: nat | k < |fs|
      ensures Subscribed(domain, url)(fs[k]) <==>
              fs[k].config.SagaConfig? && fs[k].config.source == domain &&
              exists i :: 0 <= i < |fs[k].config.handled| && fs[k].config.handled[i] == url
    {
    }
  }

  lemma ResponderCase(f: Factory, req: SagaHandleRequest)
    ensures match Responder(req)(f)
            case Ok(r) => Responds(f, req) && f.Dispatch(SagaRequest(req)) == Ok(SagaHandlerResponse(r))
            case Err(e) => FailsWith(f, req, e)
  {
  }

  /** The answers by position: all of them, or the error of the first to fail. */
  lemma AnswersByIndex(fs: seq<Factory>, req: SagaHandleRequest, url: string, domain: string, picks: seq<nat>)
    requires Chosen(fs, domain, url, picks)
    ensures match Traverse(Responder(req), Filter(Subscribed(domain, url), fs))
            case Ok(rs) =>
              && |rs| == |picks|
              && forall n :: 0 <= n < |picks| ==>
                   fs[picks[n]].Dispatch(SagaRequest(req)) == Ok(SagaHandlerResponse(rs[n]))
            case Err(e) =>
              exists n :: 0 <= n < |picks| && FailsWith(fs[picks[n]], req, e) &&
                          forall m :: 0 <= m < n ==> Responds(fs[picks[m]], req)
  {
    ChosenIsSelected(fs, domain, url, picks);
    FanOutByIndex(Subscribed(domain, url), Responder(req), fs, picks);
    var r := Traverse(Responder(req), Filter(Subscribed(domain, url), fs));
    forall n | 0 <= n < |picks|
      ensures Responder(req)(fs[picks[n]]).Ok? ==> Responds(fs[picks[n]], req)
      ensures Responder(req)(fs[picks[n]]).Ok? ==>
                fs[picks[n]].Dispatch(SagaRequest(req)) == Ok(SagaHandlerResponse(Responder(req)(fs[picks[n]]).value))
      ensures Responder(req)(fs[picks[n]]).Err? ==> FailsWith(fs[picks[n]], req, Responder(req)(fs[picks[n]]).error)
    {
      ResponderCase(fs[picks[n]], req);
    }
    if r.Err? {
      var n :| 0 <= n < |picks| && Responder(req)(fs[picks[n]]) == Err(r.error) &&
               forall m :: 0 <= m < n ==> Responder(req)(fs[picks[m]]).Ok?;
      assert FailsWith(fs[picks[n]], req, r.error);
    }
  }

  /** An event whose type URL is outside "type.googleapis.com/" is refused. */
  lemma ForeignTypeRefused(fs: seq<Factory>, req: SagaHandleRequest, book: EventBook, any: Any)
    requires req.source == Some(book) && |book.pages| > 0
    requires book.pages[|book.pages| - 1].payload == Some(Event(any))
    requires !("type.googleapis.com/" <= any.typeUrl)
    ensures RouteSaga(fs, req) == Err(SagaInvalidTypeUrl(any.typeUrl))
  {
  }

  /**
   * Saga dispatch from the fields: the source book's cover names the domain, its last page the type;
   * the sagas of that source that handle the type answer in order, all their commands and events
   * concatenated, or the first to fail ends it.
   */
  lemma SagaByFields(fs: seq<Factory>, req: SagaHandleRequest, book: EventBook, any: Any)
    returns (picks: seq<nat>, rs: seq<SagaResponse>)
    requires req.source == Some(book) && |book.pages| > 0
    requires book.pages[|book.pages| - 1].payload == Some(Event(any))
    requires "type.googleapis.com/" <= any.typeUrl
    ensures Chosen(fs, if book.cover.Some? then book.cover.value.domain else "", any.typeUrl, picks)
    ensures RouteSaga(fs, req).Ok? ==>
              && |rs| == |picks|
              && (forall n :: 0 <= n < |picks| ==>
                    fs[picks[n]].Dispatch(SagaRequest(req)) == Ok(SagaHandlerResponse(rs[n])))
              && RouteSaga(fs, req) == Ok(SagaResponse(Concat(CommandLists(rs)), Concat(EventLists(rs))))
    ensures RouteSaga(fs, req).Err? ==>
              exists n :: 0 <= n < |picks| && FailsWith(fs[picks[n]], req, RouteSaga(fs, req).error) &&
                          forall m :: 0 <= m < n ==> Responds(fs[picks[m]], req)
  {
    var domain := if book.cover.Some? then book.cover.value.domain else "";
    var select := Subscribed(domain, any.typeUrl);
    picks := PicksExist(select, fs);
    ChosenIsSelected(fs, domain, any.typeUrl, picks);
    AnswersByIndex(fs, req, any.typeUrl, domain, picks);
    var answers := Answers(fs, req, any.typeUrl);
    rs := [];
    if answers.Ok? {
      rs := answers.value;
      MergeIsConcat(rs);
      assert RouteSaga(fs, req) == Ok(Merge(rs));
    } else {
      assert RouteSaga(fs, req) == Err(answers.error);
    }
  }

  /** A request without a source, without pages, or whose last page holds no event is refused. */
  lemma IncompleteSource(fs: seq<Factory>, req: SagaHandleRequest)
    ensures req.source.None? ==> RouteSaga(fs, req) == Err(MissingSagaSource)
    ensures req.source.Some? && req.source.value.pages == [] ==> RouteSaga(fs, req) == Err(EmptySagaSource)
    ensures req.source.Some? && |req.source.value.pages| > 0 &&
            (var last := req.source.value.pages[|req.source.value.pages| - 1];
             last.payload.None? || last.payload.value.ExternalEvent?) ==>
              RouteSaga(fs, req) == Err(MissingSagaEventPayload)
  {
  }

  /** A generated saga asked about an event it has no arm for answers with nothing. */
  lemma UnhandledEvent<M>(s: Saga<M>, req: SagaHandleRequest)
    requires TriggerAny(req).Ok? && TriggerAny(req).value.typeUrl !in Keys(s.handles)
    ensures RunSaga(s, req) == Ok(SagaResponse([], []))
  {
    LookupFirst(s.handles, TriggerAny(req).value.typeUrl);
  }


  /** What a router and readiness read in a generated saga's config is what its attribute declares. */
  lemma GeneratedSagaDeclares<M>(s: Saga<M>, domain: string, url: string)
    ensures Subscribes(SagaFactory(s), domain, url) <==>
            domain == s.source && exists i :: 0 <= i < |s.handles| && s.handles[i].key == url
    ensures SagaFactory(s).kind == SagaKind && SagaFactory(s).config.SagaConfig?
    ensures SagaFactory(s).config.target == s.target && SagaFactory(s).config.sync == s.sync
  {
    var config := SagaFactory(s).config;
    if i :| 0 <= i < |s.handles| && s.handles[i].key == url {
      assert config.handled[i] == url;
    }
  }
}
