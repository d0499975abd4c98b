/** Upcasters: the body `#[upcaster]` generates and the page-by-page chain of `UpcasterRouter`. */
module Upcasters {
  import opened Foundations
  import opened Proto
  import opened Handlers

  /** An `#[upcasts(from, to)]` method with the codecs of its two types. */
  datatype UpcastBody<!M> = UpcastBody(
    to: string,
    decode: Bytes -> Result<M, string>,
    upcast: M -> M,
    encode: M -> Bytes)

  datatype Upcaster<!M> = Upcaster(name: string, domain: string, arms: seq<Arm<string, UpcastBody<M>>>)

  // ------------------------------------------------------- Generated body

  /** What the generated loop pushes for one page. */
  function UpcastPage<M>(u: Upcaster<M>, page: EventPage): Result<EventPage, ClientError> {
    match page.payload
    case Some(Event(any)) =>
      (match Lookup(u.arms, any.typeUrl)
       case None => Ok(page)
       case Some(body) =>
         match body.decode(any.value)
         case Err(cause) => Err(AnyDecodeFailed(any.typeUrl, cause))
         case Ok(older) =>
           var newer := Any(body.to, body.encode(body.upcast(older)));
           Ok(EventPage(page.header, page.createdAt, Some(Event(newer)), page.noCommit, page.cascadeId)))
    case _ => Ok(page)
  }

  function PageUpcaster<M>(u: Upcaster<M>): EventPage -> Result<EventPage, ClientError> {
    page => UpcastPage(u, page)
  }

  function RunUpcaster<M>(u: Upcaster<M>, pages: seq<EventPage>): Result<seq<EventPage>, ClientError> {
    Traverse(PageUpcaster(u), pages)
  }

  function UpcasterAnswer<M>(u: Upcaster<M>, req: HandlerRequest): Result<HandlerResponse, ClientError> {
    match req
    case UpcasterRequest(r) =>
      var pages :- RunUpcaster(u, r.events);
      Ok(UpcasterResponse(UpcastResponse(pages)))
    case _ => Err(HandlerWrongRequestKind("Upcaster"))
  }

  /** The `(from, to)` pairs of the config, one per `#[upcasts]` method. */
  function Pairs<M>(arms: seq<Arm<string, UpcastBody<M>>>): (pairs: seq<(string, string)>)
    ensures |pairs| == |arms|
    ensures forall i :: 0 <= i < |arms| ==> pairs[i] == (arms[i].key, arms[i].body.to)
  {
    seq(|arms|, i requires 0 <= i < |arms| => (arms[i].key, arms[i].body.to))
  }

  function UpcasterFactory<M>(u: Upcaster<M>): Factory {
    Factory(UpcasterKind, UpcasterConfig(u.name, u.domain, Pairs(u.arms)), (history, req) => UpcasterAnswer(u, req))
  }

  /** `Handler::dispatch` of an upcaster. */
  method DispatchUpcaster<M>(u: Upcaster<M>, req: UpcastRequest) returns (r: Result<UpcastResponse, ClientError>)
    ensures r == match RunUpcaster(u, req.events)
                 case Ok(pages) => Ok(UpcastResponse(pages))
                 case Err(e) => Err(e)
  {
    var pages: seq<EventPage> := [];
    assert req.events[0..] == req.events;
    ghost var whole := RunUpcaster(u, req.events);
    assert whole.Ok? ==> [] + whole.value == whole.value;
    for i := 0 to |req.events|
      invariant whole == Resume(pages, RunUpcaster(u, req.events[i..]))
    {
      assert req.events[i..][1..] == req.events[i + 1..];
      var page :- UpcastPage(u, req.events[i]);
      ghost var rest := RunUpcaster(u, req.events[i + 1..]);
      assert rest.Ok? ==> pages + ([page] + rest.value) == (pages + [page]) + rest.value;
      pages := pages + [page];
    }
    assert pages + [] == pages;
    return Ok(UpcastResponse(pages));
  }

  // --------------------------------------------------------------- Router

  predicate CoversDomain(f: Factory, domain: string) {
    f.config.UpcasterConfig? && f.config.domain == domain
  }

  /** One registered handler's turn on the current page. */
  function UpcastOnce(domain: string, page: EventPage, f: Factory): Result<EventPage, ClientError> {
    if !CoversDomain(f, domain) then Ok(page)
    else
      var response :- f.Dispatch(UpcasterRequest(UpcastRequest(domain, [page])));
      match response
      case UpcasterResponse(r) => Ok(if |r.events| > 0 then r.events[0] else page)
      case _ => Err(UpcasterWrongResponseKind)
  }

  function UpcastStep(domain: string): (EventPage, Factory) -> Result<EventPage, ClientError> {
    (page: EventPage, f: Factory) => UpcastOnce(domain, page, f)
  }

  predicate HasEvent(page: EventPage) {
    page.payload.Some? && page.payload.value.Event?
  }

  /** A page through every handler in turn; the output of one is the input of the next. */
  function ChainPage(fs: seq<Factory>, domain: string, page: EventPage): Result<EventPage, ClientError> {
    if HasEvent(page) then FoldM(UpcastStep(domain), page, fs) else Ok(page)
  }

  function PageChain(fs: seq<Factory>, domain: string): EventPage -> Result<EventPage, ClientError> {
    (page: EventPage) => ChainPage(fs, domain, page)
  }

  function RouteUpcast(fs: seq<Factory>, domain: string, pages: seq<EventPage>): Result<seq<EventPage>, ClientError> {
    Traverse(PageChain(fs, domain), pages)
  }

  /** `UpcasterRouter::dispatch`: pages outside, handlers inside. */
  method Dispatch(fs: seq<Factory>, req: UpcastRequest) returns (r: Result<UpcastResponse, ClientError>)
    ensures r == match RouteUpcast(fs, req.domain, req.events)
                 case Ok(pages) => Ok(UpcastResponse(pages))
                 case Err(e) => Err(e)
  {
    var domain := req.domain;
    var out: seq<EventPage> := [];
    assert req.events[0..] == req.events;
    ghost var whole := RouteUpcast(fs, domain, req.events);
    assert whole.Ok? ==> [] + whole.value == whole.value;
    for i := 0 to |req.events|
      invariant whole == Resume(out, RouteUpcast(fs, domain, req.events[i..]))
    {
      assert req.events[i..][1..] == req.events[i + 1..];
      var page := req.events[i];
      ghost var rest := RouteUpcast(fs, domain, req.events[i + 1..]);
      if !HasEvent(page) {
        assert rest.Ok? ==> out + ([page] + rest.value) == (out + [page]) + rest.value;
        out := out + [page];
        continue;
      }
      var current := page;
      for j := 0 to |fs|
        invariant FoldM(UpcastStep(domain), page, fs) == FoldM(UpcastStep(domain), current, fs[j..])
      {
        assert fs[j..][1..] == fs[j + 1..];
        if !fs[j].config.UpcasterConfig? || fs[j].config.domain != domain {
          continue;
        }
        var response :- fs[j].Dispatch(UpcasterRequest(UpcastRequest(domain, [current])));
        if !response.UpcasterResponse? {
          return Err(UpcasterWrongResponseKind);
        }
        if |response.upcast.events| > 0 {
          current := response.upcast.events[0];
        }
      }
      assert rest.Ok? ==> out + ([current] + rest.value) == (out + [current]) + rest.value;
      out := out + [current];
    }
    assert out + [] == out;
    return Ok(UpcastResponse(out));
  }

  // ------------------------------------------------ Routers of generated handlers

  function Factories<M>(us: seq<Upcaster<M>>): (fs: seq<Factory>)
    ensures |fs| == |us|
    ensures forall i :: 0 <= i < |us| ==> fs[i] == UpcasterFactory(us[i])
  {
    seq(|us|, i requires 0 <= i < |us| => UpcasterFactory(us[i]))
  }

  /** A generated handler's turn on one page: nothing outside its domain. */
  function TurnOnPage<M>(domain: string, page: EventPage, u: Upcaster<M>): Result<EventPage, ClientError> {
    if u.domain == domain then UpcastPage(u, page) else Ok(page)
  }

  function TurnStep<M>(domain: string): (EventPage, Upcaster<M>) -> Result<EventPage, ClientError> {
    (page: EventPage, u: Upcaster<M>) => TurnOnPage(domain, page, u)
  }

  function ChainOf<M>(us: seq<Upcaster<M>>, domain: string, page: EventPage): Result<EventPage, ClientError> {
    FoldM(TurnStep(domain), page, us)
  }

  function ChainEach<M>(us: seq<Upcaster<M>>, domain: string): EventPage -> Result<EventPage, ClientError> {
    (page: EventPage) => ChainOf(us, domain, page)
  }

  lemma GeneratedTurn<M>(domain: string, page: EventPage, u: Upcaster<M>)
    ensures UpcastOnce(domain, page, UpcasterFactory(u)) == TurnOnPage(domain, page, u)
  {
    var req := UpcasterRequest(UpcastRequest(domain, [page]));
    assert UpcasterFactory(u).Dispatch(req) == UpcasterAnswer(u, req);
    assert [page][1..] == [];
    var rest: seq<EventPage> := [];
    assert PageUpcaster(u)(page) == UpcastPage(u, page) && Traverse(PageUpcaster(u), rest) == Ok([]);
    assert RunUpcaster(u, [page]).Ok? ==> RunUpcaster(u, [page]).value == [UpcastPage(u, page).value];
  }

  lemma {:induction false} GeneratedFold<M>(us: seq<Upcaster<M>>, domain: string, page: EventPage)
    ensures FoldM(UpcastStep(domain), page, Factories(us)) == ChainOf(us, domain, page)
  {
    if |us| > 0 {
      GeneratedTurn(domain, page, us[0]);
      assert Factories(us)[1..] == Factories(us[1..]);
      if TurnOnPage(domain, page, us[0]).Ok? {
        GeneratedFold(us[1..], domain, TurnOnPage(domain, page, us[0]).value);
      }
    }
  }

  lemma {:induction false} ChainSkipsOtherPayloads<M>(us: seq<Upcaster<M>>, domain: string, page: EventPage)
    requires !HasEvent(page)
    ensures ChainOf(us, domain, page) == Ok(page)
  {
    if |us| > 0 {
      ChainSkipsOtherPayloads(us[1..], domain, page);
    }
  }

  lemma GeneratedChain<M>(us: seq<Upcaster<M>>, domain: string, page: EventPage)
    ensures ChainPage(Factories(us), domain, page) == ChainOf(us, domain, page)
  {
    GeneratedFold(us, domain, page);
    if !HasEvent(page) {
      ChainSkipsOtherPayloads(us, domain, page);
    }
  }

  lemma GeneratedRoute<M>(us: seq<Upcaster<M>>, domain: string, pages: seq<EventPage>)
    ensures RouteUpcast(Factories(us), domain, pages) == Traverse(ChainEach(us, domain), pages)
  {
    forall i | 0 <= i < |pages|
      ensures PageChain(Factories(us), domain)(pages[i]) == ChainEach(us, domain)(pages[i])
    {
      GeneratedChain(us, domain, pages[i]);
    }
    TraverseCongruence(PageChain(Factories(us), domain), pages, ChainEach(us, domain), pages);
  }

  /**
   * One handler's turn, from its config and its answer: only an upcaster of the domain is asked, about
   * the one page; its first page replaces it, an empty answer leaves it, and errors and answers of
   * another kind end the dispatch.
   */
  lemma TurnByFields(f: Factory, domain: string, page: EventPage)
    requires page.payload.Some? && page.payload.value.Event?
    ensures RouteUpcast([f], domain, [page]) ==
            if f.config.UpcasterConfig? && f.config.domain == domain then
              match f.Dispatch(UpcasterRequest(UpcastRequest(domain, [page])))
              case Err(e) => Err(e)
              case Ok(UpcasterResponse(r)) => Ok([if r.events == [] then page else r.events[0]])
              case Ok(_) => Err(UpcasterWrongResponseKind)
            else Ok([page])
  {
    TraverseOne(PageChain([f], domain), page);
    FoldMSnoc(UpcastStep(domain), page, [], f);
    assert [] + [f] == [f];
  }

  // --------------------------------------------------------- Loop interchange

  /** One handler over the whole stream. */
  function PassOnce<M>(domain: string, pages: seq<EventPage>, u: Upcaster<M>): Result<seq<EventPage>, ClientError> {
    if u.domain == domain then RunUpcaster(u, pages) else Ok(pages)
  }

  function PassStep<M>(domain: string): (seq<EventPage>, Upcaster<M>) -> Result<seq<EventPage>, ClientError> {
    (pages: seq<EventPage>, u: Upcaster<M>) => PassOnce(domain, pages, u)
  }

  /** The handlers one after the other, each over the whole stream. */
  function HandlerMajor<M>(us: seq<Upcaster<M>>, domain: string, pages: seq<EventPage>)
    : Result<seq<EventPage>, ClientError>
  {
    FoldM(PassStep(domain), pages, us)
  }

  function TurnEach<M>(domain: string, u: Upcaster<M>): EventPage -> Result<EventPage, ClientError> {
    (page: EventPage) => TurnOnPage(domain, page, u)
  }

  lemma PassIsTraverse<M>(domain: string, pages: seq<EventPage>, u: Upcaster<M>)
    ensures PassOnce(domain, pages, u) == Traverse(TurnEach(domain, u), pages)
  {
    if u.domain == domain {
      TraverseCongruence(PageUpcaster(u), pages, TurnEach(domain, u), pages);
    } else {
      TraverseIdentity(TurnEach(domain, u), pages);
    }
  }

  lemma {:induction false} ChainsAreMajor<M>(us: seq<Upcaster<M>>, domain: string, pages: seq<EventPage>)
    ensures Traverse(ChainEach(us, domain), pages).Ok? == HandlerMajor(us, domain, pages).Ok?
    ensures HandlerMajor(us, domain, pages).Ok? ==>
              Traverse(ChainEach(us, domain), pages) == HandlerMajor(us, domain, pages)
  {
    if |us| == 0 {
      TraverseIdentity(ChainEach(us, domain), pages);
    } else {
      var turn := TurnEach(domain, us[0]);
      PassIsTraverse(domain, pages, us[0]);
      TraversePointwise(turn, pages);
      if Traverse(turn, pages).Ok? {
        var mid := Traverse(turn, pages).value;
        ChainsAreMajor(us[1..], domain, mid);
        forall i | 0 <= i < |pages| ensures ChainEach(us, domain)(pages[i]) == ChainEach(us[1..], domain)(mid[i]) {
          assert turn(pages[i]) == Ok(mid[i]);
        }
        TraverseCongruence(ChainEach(us, domain), pages, ChainEach(us[1..], domain), mid);
      } else {
        var i :| 0 <= i < |pages| && turn(pages[i]).Err?;
        TraversePointwise(ChainEach(us, domain), pages);
        assert ChainEach(us, domain)(pages[i]).Err?;
      }
    }
  }

  /**
   * Loop interchange: the page-by-page chain succeeds exactly when running each generated handler
   * of the domain in turn over the whole stream does, and then returns the same events.
   */
  lemma LoopInterchange<M>(us: seq<Upcaster<M>>, domain: string, pages: seq<EventPage>)
    ensures RouteUpcast(Factories(us), domain, pages).Ok? <==> HandlerMajor(us, domain, pages).Ok?
    ensures HandlerMajor(us, domain, pages).Ok? ==>
              RouteUpcast(Factories(us), domain, pages) == HandlerMajor(us, domain, pages)
  {
    GeneratedRoute(us, domain, pages);
    ChainsAreMajor(us, domain, pages);
  }

  // ------------------------------------------------------------ Conservation

  function TypeUrl(page: EventPage): string
    requires HasEvent(page)
  {
    page.payload.value.event.typeUrl
  }

  /** The target of the first pair declared for a type, or the type itself. */
  function PairTarget(pairs: seq<(string, string)>, url: string): string {
    if |pairs| == 0 then url
    else if pairs[0].0 == url then pairs[0].1
    else PairTarget(pairs[1..], url)
  }

  /** The type a page of type `url` leaves the chain with, read off the registered configs. */
  function TypeAfter(fs: seq<Factory>, domain: string, url: string): string {
    if |fs| == 0 then url
    else
      var entering := TypeAfter(fs[..|fs| - 1], domain, url);
      var last := fs[|fs| - 1];
      if CoversDomain(last, domain) then PairTarget(last.config.upcasts, entering) else entering
  }

  lemma {:induction false} LookupIsPairTarget<M>(arms: seq<Arm<string, UpcastBody<M>>>, url: string)
    ensures PairTarget(Pairs(arms), url) == match Lookup(arms, url) case Some(body) => body.to case None => url
  {
    if |arms| > 0 {
      assert Pairs(arms)[1..] == Pairs(arms[1..]);
      LookupIsPairTarget(arms[1..], url);
    }
  }

  /** Everything of a page but its payload. */
  ghost predicate SameEnvelope(p: EventPage, q: EventPage) {
    p.header == q.header && p.createdAt == q.createdAt && p.noCommit == q.noCommit && p.cascadeId == q.cascadeId
  }

  lemma {:induction false} ChainConserves<M>(us: seq<Upcaster<M>>, domain: string, page: EventPage)
    requires HasEvent(page) && ChainOf(us, domain, page).Ok?
    ensures SameEnvelope(page, ChainOf(us, domain, page).value)
    ensures HasEvent(ChainOf(us, domain, page).value)
    ensures TypeUrl(ChainOf(us, domain, page).value) == TypeAfter(Factories(us), domain, TypeUrl(page))
  {
    if |us| > 0 {
      var init, last := us[..|us| - 1], us[|us| - 1];
      assert us == init + [last];
      FoldMSnoc(TurnStep(domain), page, init, last);
      ChainConserves(init, domain, page);
      assert Factories(us)[..|us| - 1] == Factories(init);
      LookupIsPairTarget(last.arms, TypeUrl(ChainOf(init, domain, page).value));
    }
  }

  /**
   * Conservation: a successful dispatch returns the pages one for one and in order, each with its
   * header, creation time, no-commit flag and cascade id; pages without an event are untouched, and
   * an event's type moves along the declared pairs of its domain in registration order.
   */
  lemma UpcastConserves<M>(us: seq<Upcaster<M>>, domain: string, pages: seq<EventPage>, out: seq<EventPage>)
    requires RouteUpcast(Factories(us), domain, pages) == Ok(out)
    ensures |out| == |pages|
    ensures forall i :: 0 <= i < |pages| ==>
              && SameEnvelope(pages[i], out[i])
              && (!HasEvent(pages[i]) ==> out[i] == pages[i])
              && (HasEvent(pages[i]) ==>
                    HasEvent(out[i]) && TypeUrl(out[i]) == TypeAfter(Factories(us), domain, TypeUrl(pages[i])))
  {
    GeneratedRoute(us, domain, pages);
    TraversePointwise(ChainEach(us, domain), pages);
    forall i | 0 <= i < |pages|
      ensures SameEnvelope(pages[i], out[i])
      ensures !HasEvent(pages[i]) ==> out[i] == pages[i]
      ensures HasEvent(pages[i]) ==>
                HasEvent(out[i]) && TypeUrl(out[i]) == TypeAfter(Factories(us), domain, TypeUrl(pages[i]))
    {
      assert ChainEach(us, domain)(pages[i]) == Ok(out[i]);
      if HasEvent(pages[i]) {
        ChainConserves(us, domain, pages[i]);
      } else {
        ChainSkipsOtherPayloads(us, domain, pages[i]);
      }
    }
  }

  // ---------------------------------------------------------------- Payloads

  /** A payload through one handler: the first arm declared for its type, or nothing. */
  function Upcasted<M>(u: Upcaster<M>, any: Any): Result<Any, ClientError> {
    if any.typeUrl !in Keys(u.arms) then Ok(any)
    else
      var body := u.arms[FirstIndex(Keys(u.arms), any.typeUrl)].body;
      match body.decode(any.value)
      case Ok(older) => Ok(Any(body.to, body.encode(body.upcast(older))))
      case Err(cause) => Err(AnyDecodeFailed(any.typeUrl, cause))
  }

  function PayloadStep<M>(domain: string): (Any, Upcaster<M>) -> Result<Any, ClientError> {
    (any: Any, u: Upcaster<M>) => if u.domain == domain then Upcasted(u, any) else Ok(any)
  }

  /** A payload through all handlers of the domain. */
  function PayloadAfter<M>(us: seq<Upcaster<M>>, domain: string, any: Any): Result<Any, ClientError> {
    FoldM(PayloadStep(domain), any, us)
  }

  function Repacked(page: EventPage, any: Any): EventPage {
    page.(payload := Some(Event(any)))
  }

  lemma {:induction false} ChainActsOnPayload<M>(us: seq<Upcaster<M>>, domain: string, page: EventPage)
    requires HasEvent(page)
    ensures ChainOf(us, domain, page) ==
            match PayloadAfter(us, domain, page.payload.value.event)
            case Ok(any) => Ok(Repacked(page, any))
            case Err(e) => Err(e)
  {
    if |us| > 0 {
      var any := page.payload.value.event;
      LookupFirst(us[0].arms, any.typeUrl);
      var turn := PayloadStep(domain)(any, us[0]);
      if turn.Ok? {
        assert TurnOnPage(domain, page, us[0]) == Ok(Repacked(page, turn.value));
        ChainActsOnPayload(us[1..], domain, Repacked(page, turn.value));
      }
    } else {
      assert Repacked(page, page.payload.value.event) == page;
    }
  }

  /**
   * The router is a function on payloads: dispatch succeeds exactly when every event payload passes
   * the handlers of the domain, and each page comes back with the payload they make of its own.
   */
  lemma UpcastActsOnPayloads<M>(us: seq<Upcaster<M>>, domain: string, pages: seq<EventPage>)
    ensures RouteUpcast(Factories(us), domain, pages).Ok? <==>
            forall i :: 0 <= i < |pages| && HasEvent(pages[i]) ==>
              PayloadAfter(us, domain, pages[i].payload.value.event).Ok?
    ensures var r := RouteUpcast(Factories(us), domain, pages);
            r.Ok? ==> |r.value| == |pages| && forall i :: 0 <= i < |pages| ==>
              r.value[i] == if HasEvent(pages[i])
                            then Repacked(pages[i], PayloadAfter(us, domain, pages[i].payload.value.event).value)
                            else pages[i]
  {
    GeneratedRoute(us, domain, pages);
    TraversePointwise(ChainEach(us, domain), pages);
    forall i | 0 <= i < |pages|
      ensures ChainEach(us, domain)(pages[i]) ==
              if HasEvent(pages[i]) then
                match PayloadAfter(us, domain, pages[i].payload.value.event)
                case Ok(any) => Ok(Repacked(pages[i], any))
                case Err(e) => Err(e)
              else Ok(pages[i])
    {
      if HasEvent(pages[i]) {
        ChainActsOnPayload(us, domain, pages[i]);
      } else {
        ChainSkipsOtherPayloads(us, domain, pages[i]);
      }
    }
  }

  // ------------------------------------------------------------- Fixed point

  ghost predicate IsInput(f: Factory, domain: string, url: string) {
    CoversDomain(f, domain) && exists q :: q in f.config.upcasts && q.0 == url
  }

  /** No declared input type leaves the chain as a type some handler of the domain still takes as input. */
  ghost predicate Settled(fs: seq<Factory>, domain: string) {
    forall i, j, p ::
      0 <= i < |fs| && 0 <= j < |fs| && CoversDomain(fs[i], domain) && p in fs[i].config.upcasts ==>
        !IsInput(fs[j], domain, TypeAfter(fs, domain, p.0))
  }

  /** No handler of the domain outputs a type that it, or one registered before it, takes as input. */
  ghost predicate RegisteredInVersionOrder(fs: seq<Factory>, domain: string) {
    forall i, j, p :: 0 <= j <= i < |fs| && CoversDomain(fs[i], domain) && p in fs[i].config.upcasts ==>
      !IsInput(fs[j], domain, p.1)
  }

  lemma {:induction false} PairTargetCases(pairs: seq<(string, string)>, url: string)
    ensures if exists q :: q in pairs && q.0 == url then (url, PairTarget(pairs, url)) in pairs
            else PairTarget(pairs, url) == url
  {
    if |pairs| > 0 {
      PairTargetCases(pairs[1..], url);
      assert pairs == [pairs[0]] + pairs[1..];
      if pairs[0].0 != url {
        assert forall q :: q in pairs && q.0 == url ==> q in pairs[1..];
      }
    }
  }

  /** In version order, the type a page leaves with is the input of no handler of the domain. */
  lemma {:induction false} FinalTypeIsNoInput(fs: seq<Factory>, domain: string, url: string)
    requires RegisteredInVersionOrder(fs, domain)
    ensures forall j :: 0 <= j < |fs| ==> !IsInput(fs[j], domain, TypeAfter(fs, domain, url))
  {
    if |fs| > 0 {
      var init, last := fs[..|fs| - 1], fs[|fs| - 1];
      assert RegisteredInVersionOrder(init, domain) by {
        forall i, j, p | 0 <= j <= i < |init| && CoversDomain(init[i], domain) && p in init[i].config.upcasts
          ensures !IsInput(init[j], domain, p.1)
        {
          assert fs[i] == init[i] && fs[j] == init[j];
        }
      }
      FinalTypeIsNoInput(init, domain, url);
      var entering := TypeAfter(init, domain, url);
      if CoversDomain(last, domain) {
        PairTargetCases(last.config.upcasts, entering);
      }
      forall j | 0 <= j < |fs| ensures !IsInput(fs[j], domain, TypeAfter(fs, domain, url)) {
        if IsInput(last, domain, entering) {
          var p := (entering, PairTarget(last.config.upcasts, entering));
          assert p in fs[|fs| - 1].config.upcasts;
        } else if j < |fs| - 1 {
          assert fs[j] == init[j];
        }
      }
    }
  }

  lemma DeclaredIsInput<M>(u: Upcaster<M>, domain: string, url: string)
    ensures u.domain == domain && url in Keys(u.arms) ==> IsInput(UpcasterFactory(u), domain, url)
  {
    if u.domain == domain && url in Keys(u.arms) {
      var i := FirstIndex(Keys(u.arms), url);
      assert Pairs(u.arms)[i] in UpcasterFactory(u).config.upcasts;
    }
  }

  lemma {:induction false} ChainLeavesFinalType<M>(us: seq<Upcaster<M>>, domain: string, page: EventPage)
    requires HasEvent(page) && forall j :: 0 <= j < |us| ==> !IsInput(UpcasterFactory(us[j]), domain, TypeUrl(page))
    ensures ChainOf(us, domain, page) == Ok(page)
  {
    if |us| > 0 {
      var u := us[0];
      DeclaredIsInput(u, domain, TypeUrl(page));
      LookupFirst(u.arms, TypeUrl(page));
      assert TurnOnPage(domain, page, u) == Ok(page);
      assert forall j :: 0 <= j < |us| - 1 ==> us[1..][j] == us[j + 1];
      ChainLeavesFinalType(us[1..], domain, page);
    }
  }

  lemma {:induction false} UndeclaredTypeStays(fs: seq<Factory>, domain: string, url: string)
    requires forall j :: 0 <= j < |fs| ==> !IsInput(fs[j], domain, url)
    ensures TypeAfter(fs, domain, url) == url
  {
    if |fs| > 0 {
      var init, last := fs[..|fs| - 1], fs[|fs| - 1];
      assert forall j :: 0 <= j < |init| ==> init[j] == fs[j];
      UndeclaredTypeStays(init, domain, url);
      if CoversDomain(last, domain) {
        PairTargetCases(last.config.upcasts, url);
      }
    }
  }

  /** Checking the declared input types settles every type. */
  lemma SettledEverywhere(fs: seq<Factory>, domain: string, url: string)
    requires Settled(fs, domain)
    ensures forall j :: 0 <= j < |fs| ==> !IsInput(fs[j], domain, TypeAfter(fs, domain, url))
  {
    if i :| 0 <= i < |fs| && IsInput(fs[i], domain, url) {
      var p :| p in fs[i].config.upcasts && p.0 == url;
    } else {
      UndeclaredTypeStays(fs, domain, url);
    }
  }

  /** Version order is one way to be settled. */
  lemma VersionOrderSettles(fs: seq<Factory>, domain: string)
    requires RegisteredInVersionOrder(fs, domain)
    ensures Settled(fs, domain)
  {
    forall i, j, p |
      0 <= i < |fs| && 0 <= j < |fs| && CoversDomain(fs[i], domain) && p in fs[i].config.upcasts
      ensures !IsInput(fs[j], domain, TypeAfter(fs, domain, p.0))
    {
      FinalTypeIsNoInput(fs, domain, p.0);
    }
  }

  /** When the configs are settled, dispatching a successful result again returns it unchanged. */
  lemma UpcastFixedPoint<M>(us: seq<Upcaster<M>>, domain: string, pages: seq<EventPage>, out: seq<EventPage>)
    requires Settled(Factories(us), domain)
    requires RouteUpcast(Factories(us), domain, pages) == Ok(out)
    ensures RouteUpcast(Factories(us), domain, out) == Ok(out)
  {
    UpcastConserves(us, domain, pages, out);
    GeneratedRoute(us, domain, out);
    forall i | 0 <= i < |out| ensures ChainEach(us, domain)(out[i]) == Ok(out[i]) {
      if HasEvent(pages[i]) {
        SettledEverywhere(Factories(us), domain, TypeUrl(pages[i]));
        ChainLeavesFinalType(us, domain, out[i]);
      } else {
        ChainSkipsOtherPayloads(us, domain, out[i]);
      }
    }
    TraverseIdentity(ChainEach(us, domain), out);
  }

  // ------------------------------------------------ The exact condition

  /** Every successful result is its own result. */
  ghost predicate FixesResults<M>(us: seq<Upcaster<M>>, domain: string) {
    forall pages, out :: RouteUpcast(Factories(us), domain, pages) == Ok(out) ==>
      RouteUpcast(Factories(us), domain, out) == Ok(out)
  }

  /** Handlers a router cannot tell apart: only their method bodies and codecs may differ. */
  ghost predicate SameConfigs<M, N>(us: seq<Upcaster<M>>, vs: seq<Upcaster<N>>) {
    |us| == |vs| && forall i :: 0 <= i < |us| ==> Factories(us)[i].config == Factories(vs)[i].config
  }

  lemma {:induction false} TypeAfterReadsConfigs(fs: seq<Factory>, gs: seq<Factory>, domain: string, url: string)
    requires |fs| == |gs| && forall i :: 0 <= i < |fs| ==> fs[i].config == gs[i].config
    ensures TypeAfter(fs, domain, url) == TypeAfter(gs, domain, url)
  {
    if |fs| > 0 {
      TypeAfterReadsConfigs(fs[..|fs| - 1], gs[..|gs| - 1], domain, url);
    }
  }

  lemma SettledReadsConfigs<M, N>(us: seq<Upcaster<M>>, vs: seq<Upcaster<N>>, domain: string)
    requires SameConfigs(us, vs) && Settled(Factories(us), domain)
    ensures Settled(Factories(vs), domain)
  {
    var fs, gs := Factories(us), Factories(vs);
    forall i, j, p |
      0 <= i < |gs| && 0 <= j < |gs| && CoversDomain(gs[i], domain) && p in gs[i].config.upcasts
      ensures !IsInput(gs[j], domain, TypeAfter(gs, domain, p.0))
    {
      TypeAfterReadsConfigs(fs, gs, domain, p.0);
      assert fs[i].config == gs[i].config && fs[j].config == gs[j].config;
      assert !IsInput(fs[j], domain, TypeAfter(fs, domain, p.0));
    }
  }

  /** The arms of an upcaster with the same types, whose methods append a byte to any value. */
  function GrowingArms<M>(arms: seq<Arm<string, UpcastBody<M>>>): (grown: seq<Arm<string, UpcastBody<Bytes>>>)
    ensures |grown| == |arms|
    ensures forall i :: 0 <= i < |arms| ==> grown[i] == Arm(arms[i].key, GrowingBody(arms[i].body.to))
  {
    seq(|arms|, i requires 0 <= i < |arms| => Arm(arms[i].key, GrowingBody(arms[i].body.to)))
  }

  function GrowingBody(to: string): UpcastBody<Bytes> {
    UpcastBody(to, (value: Bytes) => Ok(value), (message: Bytes) => message + [0], (message: Bytes) => message)
  }

  function Growing<M>(us: seq<Upcaster<M>>): (vs: seq<Upcaster<Bytes>>)
    ensures |vs| == |us|
    ensures forall i :: 0 <= i < |us| ==> vs[i] == Upcaster(us[i].name, us[i].domain, GrowingArms(us[i].arms))
  {
    seq(|us|, i requires 0 <= i < |us| => Upcaster(us[i].name, us[i].domain, GrowingArms(us[i].arms)))
  }

  lemma GrowingKeepsConfigs<M>(us: seq<Upcaster<M>>)
    ensures SameConfigs(us, Growing(us))
  {
    forall i | 0 <= i < |us| ensures Factories(us)[i].config == Factories(Growing(us))[i].config {
      assert Pairs(us[i].arms) == Pairs(GrowingArms(us[i].arms));
    }
  }

  ghost predicate TakenBySome<M>(us: seq<Upcaster<M>>, domain: string, url: string) {
    exists j :: 0 <= j < |us| && us[j].domain == domain && url in Keys(us[j].arms)
  }

  /** Growing handlers never fail, and grow every payload one of them takes. */
  lemma {:induction false} PayloadGrows<M>(us: seq<Upcaster<M>>, domain: string, any: Any)
    ensures var r := PayloadAfter(Growing(us), domain, any);
            r.Ok? && |r.value.value| >= |any.value| &&
            (TakenBySome(us, domain, any.typeUrl) ==> |r.value.value| > |any.value|)
  {
    if |us| > 0 {
      var u := Growing(us)[0];
      assert Growing(us)[1..] == Growing(us[1..]);
      assert Keys(u.arms) == Keys(us[0].arms);
      var next := PayloadStep(domain)(any, u);
      assert next.Ok?;
      PayloadGrows(us[1..], domain, next.value);
      if TakenBySome(us, domain, any.typeUrl) && !(us[0].domain == domain && any.typeUrl in Keys(us[0].arms)) {
        var j :| 0 <= j < |us| && us[j].domain == domain && any.typeUrl in Keys(us[j].arms);
        assert us[1..][j - 1] == us[j];
        assert TakenBySome(us[1..], domain, any.typeUrl);
      }
    }
  }

  lemma InputIsTaken<M>(us: seq<Upcaster<M>>, j: nat, domain: string, url: string)
    requires j < |us| && IsInput(Factories(us)[j], domain, url)
    ensures TakenBySome(us, domain, url)
  {
    var q :| q in Factories(us)[j].config.upcasts && q.0 == url;
    var i :| 0 <= i < |us[j].arms| && Pairs(us[j].arms)[i] == q;
    assert Keys(us[j].arms)[i] == url;
  }

  /** A page of the given type with an empty value. */
  function PlainPage(url: string): EventPage {
    EventPage(None, None, Some(Event(Any(url, []))), false, None)
  }

  lemma PayloadType<M>(us: seq<Upcaster<M>>, domain: string, any: Any)
    requires PayloadAfter(us, domain, any).Ok?
    ensures PayloadAfter(us, domain, any).value.typeUrl == TypeAfter(Factories(us), domain, any.typeUrl)
  {
    var page := Repacked(PlainPage(any.typeUrl), any);
    ChainActsOnPayload(us, domain, page);
    ChainConserves(us, domain, page);
  }

  /** A type that leaves the chain as an input: growing bodies change its payload on every pass. */
  lemma GrowsTwice<M>(us: seq<Upcaster<M>>, domain: string, any: Any, j: nat)
    requires j < |us| && IsInput(Factories(us)[j], domain, TypeAfter(Factories(us), domain, any.typeUrl))
    ensures var once := PayloadAfter(Growing(us), domain, any);
            once.Ok? && PayloadAfter(Growing(us), domain, once.value).Ok? &&
            PayloadAfter(Growing(us), domain, once.value) != once
  {
    var vs := Growing(us);
    PayloadGrows(us, domain, any);
    var once := PayloadAfter(vs, domain, any).value;
    PayloadType(vs, domain, any);
    GrowingKeepsConfigs(us);
    TypeAfterReadsConfigs(Factories(us), Factories(vs), domain, any.typeUrl);
    InputIsTaken(us, j, domain, once.typeUrl);
    PayloadGrows(us, domain, once);
  }

  /** Configs that are not settled: growing bodies change a page again on the second dispatch. */
  lemma UnsettledMoves<M>(us: seq<Upcaster<M>>, domain: string)
    requires !Settled(Factories(us), domain)
    ensures !FixesResults(Growing(us), domain)
  {
    var fs := Factories(us);
    var i, j, p :|
      0 <= i < |fs| && 0 <= j < |fs| && CoversDomain(fs[i], domain) && p in fs[i].config.upcasts &&
      IsInput(fs[j], domain, TypeAfter(fs, domain, p.0));
    GrowsTwice(us, domain, Any(p.0, []), j);
    SecondPassMoves(Growing(us), domain, PlainPage(p.0));
  }

  lemma SecondPassMoves<M>(us: seq<Upcaster<M>>, domain: string, page: EventPage)
    requires HasEvent(page)
    requires var once := PayloadAfter(us, domain, page.payload.value.event);
             once.Ok? && PayloadAfter(us, domain, once.value) != once
    ensures !FixesResults(us, domain)
  {
    UpcastActsOnPayloads(us, domain, [page]);
    var out := RouteUpcast(Factories(us), domain, [page]).value;
    UpcastActsOnPayloads(us, domain, out);
    assert out[0].payload.value.event == PayloadAfter(us, domain, page.payload.value.event).value;
  }

  /**
   * The exact condition on the configs: every router with these configs, whatever its methods and
   * codecs do, returns its results unchanged on a second dispatch if and only if they are settled.
   */
  lemma UpcastFixedExactly<M>(us: seq<Upcaster<M>>, domain: string)
    ensures Settled(Factories(us), domain) <==>
            forall vs: seq<Upcaster<Bytes>> :: SameConfigs(us, vs) ==> FixesResults(vs, domain)
    ensures Settled(Factories(us), domain) ==> FixesResults(us, domain)
  {
    if Settled(Factories(us), domain) {
      forall pages, out | RouteUpcast(Factories(us), domain, pages) == Ok(out)
        ensures RouteUpcast(Factories(us), domain, out) == Ok(out)
      {
        UpcastFixedPoint(us, domain, pages, out);
      }
      forall vs: seq<Upcaster<Bytes>> | SameConfigs(us, vs) ensures FixesResults(vs, domain) {
        SettledReadsConfigs(us, vs, domain);
        forall pages, out | RouteUpcast(Factories(vs), domain, pages) == Ok(out)
          ensures RouteUpcast(Factories(vs), domain, out) == Ok(out)
        {
          UpcastFixedPoint(vs, domain, pages, out);
        }
      }
    } else {
      GrowingKeepsConfigs(us);
      UnsettledMoves(us, domain);
    }
  }

  const V1 := TYPE_URL_PREFIX + "examples.PlayerRegisteredV1"
  const V2 := TYPE_URL_PREFIX + "examples.PlayerRegisteredV2"
  const V3 := TYPE_URL_PREFIX + "examples.PlayerRegisteredV3"

  function Retype(name: string, source: string, target: string): Upcaster<()> {
    Upcaster(name, "player", [Arm(source, UpcastBody(target, (b: Bytes) => Ok(()), (m: ()) => m, (m: ()) => []))])
  }

  lemma RetypeTurn(u: Upcaster<()>, name: string, source: string, target: string, url: string)
    requires u == Retype(name, source, target)
    ensures PayloadStep("player")(Any(url, []), u) == Ok(Any(if url == source then target else url, []))
  {
    assert Keys(u.arms) == [source];
  }

  /** Two retyping handlers, one after the other, on an empty value. */
  lemma RetypeTwice(us: seq<Upcaster<()>>, from1: string, to1: string, from2: string, to2: string, url: string)
    requires us == [Retype("first", from1, to1), Retype("second", from2, to2)]
    ensures var mid := if url == from1 then to1 else url;
            RouteUpcast(Factories(us), "player", [PlainPage(url)]) ==
            Ok([PlainPage(if mid == from2 then to2 else mid)])
  {
    var mid := if url == from1 then to1 else url;
    var end := if mid == from2 then to2 else mid;
    RetypeTurn(us[0], "first", from1, to1, url);
    RetypeTurn(us[1], "second", from2, to2, mid);
    FoldMSnoc(PayloadStep("player"), Any(url, []), [us[0]], us[1]);
    FoldMSnoc(PayloadStep("player"), Any(url, []), [], us[0]);
    assert us == [us[0]] + [us[1]] && [] + [us[0]] == [us[0]];
    assert PayloadAfter(us, "player", Any(url, [])) == Ok(Any(end, []));
    UpcastActsOnPayloads(us, "player", [PlainPage(url)]);
    assert RouteUpcast(Factories(us), "player", [PlainPage(url)]).value == [PlainPage(end)];
  }

  /** Registered against version order, the router takes two dispatches to bring a V1 page to V3. */
  lemma ReversedRegistrationIsNotFixed()
    ensures var fs := Factories([Retype("first", V2, V3), Retype("second", V1, V2)]);
            RouteUpcast(fs, "player", [PlainPage(V1)]) == Ok([PlainPage(V2)]) &&
            RouteUpcast(fs, "player", [PlainPage(V2)]) == Ok([PlainPage(V3)]) &&
            PlainPage(V2) != PlainPage(V3) && !Settled(fs, "player")
  {
    var us := [Retype("first", V2, V3), Retype("second", V1, V2)];
    assert |V1| == |V2| == |V3| && V1[|V1| - 1] == '1' && V2[|V2| - 1] == '2' && V3[|V3| - 1] == '3';
    RetypeTwice(us, V2, V3, V1, V2, V1);
    RetypeTwice(us, V2, V3, V1, V2, V2);
    if Settled(Factories(us), "player") {
      UpcastFixedPoint(us, "player", [PlainPage(V1)], [PlainPage(V2)]);
      assert false;
    }
  }

  lemma TypeAfterSnoc(fs: seq<Factory>, f: Factory, domain: string, url: string)
    ensures TypeAfter(fs + [f], domain, url) ==
            var entering := TypeAfter(fs, domain, url);
            if CoversDomain(f, domain) then PairTarget(f.config.upcasts, entering) else entering
  {
    assert (fs + [f])[..|fs|] == fs;
  }

  lemma TypeAfterThree(f: Factory, g: Factory, h: Factory, domain: string, url: string)
    requires CoversDomain(f, domain) && CoversDomain(g, domain) && CoversDomain(h, domain)
    ensures TypeAfter([f, g, h], domain, url) ==
            PairTarget(h.config.upcasts, PairTarget(g.config.upcasts, PairTarget(f.config.upcasts, url)))
  {
    TypeAfterSnoc([], f, domain, url);
    TypeAfterSnoc([f], g, domain, url);
    TypeAfterSnoc([f, g], h, domain, url);
    assert [] + [f] == [f] && [f] + [g] == [f, g] && [f, g] + [h] == [f, g, h];
  }

  /** A handler of the domain with one declared pair. */
  predicate Retypes(f: Factory, domain: string, source: string, target: string) {
    f.config.UpcasterConfig? && f.config.domain == domain && f.config.upcasts == [(source, target)]
  }

  lemma RetypesOne(f: Factory, domain: string, source: string, target: string)
    requires Retypes(f, domain, source, target)
    ensures CoversDomain(f, domain) && (source, target) in f.config.upcasts
    ensures forall p :: p in f.config.upcasts ==> p == (source, target)
    ensures forall url :: IsInput(f, domain, url) <==> url == source
    ensures forall url :: PairTarget(f.config.upcasts, url) == if url == source then target else url
  {
    assert f.config.upcasts[0] == (source, target);
    assert f.config.upcasts[1..] == [];
  }

  /** The inputs of two types that both end as types no handler takes. */
  lemma SettledByEnds(fs: seq<Factory>, domain: string, v1: string, v2: string)
    requires forall i, url :: 0 <= i < |fs| && IsInput(fs[i], domain, url) ==> url == v1 || url == v2
    requires TypeAfter(fs, domain, v1) !in {v1, v2} && TypeAfter(fs, domain, v2) !in {v1, v2}
    ensures Settled(fs, domain)
  {
    forall i, j, p |
      0 <= i < |fs| && 0 <= j < |fs| && CoversDomain(fs[i], domain) && p in fs[i].config.upcasts
      ensures !IsInput(fs[j], domain, TypeAfter(fs, domain, p.0))
    {
      assert IsInput(fs[i], domain, p.0);
    }
  }

  /**
   * Version order is not needed: v2 is an output, and an input of a handler registered before, yet
   * every type settles, v1 as v4 and v2 as v3.
   */
  lemma SettledOutOfVersionOrder(f: Factory, g: Factory, h: Factory, domain: string,
                                 v1: string, v2: string, v3: string, v4: string)
    requires Retypes(f, domain, v2, v3) && Retypes(g, domain, v1, v2) && Retypes(h, domain, v2, v4)
    requires v1 != v2 && v1 != v3 && v1 != v4 && v2 != v3 && v2 != v4
    ensures Settled([f, g, h], domain) && !RegisteredInVersionOrder([f, g, h], domain)
  {
    var fs := [f, g, h];
    RetypesOne(f, domain, v2, v3);
    RetypesOne(g, domain, v1, v2);
    RetypesOne(h, domain, v2, v4);
    TypeAfterThree(f, g, h, domain, v1);
    TypeAfterThree(f, g, h, domain, v2);
    SettledByEnds(fs, domain, v1, v2);
    assert fs[1] == g && (v1, v2) in fs[1].config.upcasts && IsInput(fs[0], domain, v2);
  }
}
