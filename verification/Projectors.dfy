/** Projectors: the body `#[projector]` generates and the page-major loop of `ProjectorRouter`. */
module Projectors {
  import opened Foundations
  import opened Proto
  import opened Handlers

  /** A `#[handles(E)]` method: its side effects move the instance's state S. */
  datatype ProjectBody<!S, !M> = ProjectBody(
    decode: Bytes -> Result<M, string>,
    project: (S, M) -> Result<S, CommandRejectedError>)

  datatype Projector<!S, !M> = Projector(
    name: string,
    domains: seq<string>,
    handles: seq<Arm<string, ProjectBody<S, M>>>,
    initial: S)

  // ------------------------------------------------------- Generated body

  function ProjectPage<S, M>(p: Projector<S, M>, state: S, page: EventPage): Result<S, ClientError> {
    match page.payload
    case Some(Event(any)) =>
      (match Lookup(p.handles, any.typeUrl)
       case None => Ok(state)
       case Some(body) =>
         match body.decode(any.value)
         case Err(cause) => Err(AnyDecodeFailed(any.typeUrl, cause))
         case Ok(event) => UserResult(body.project(state, event)))
    case _ => Ok(state)
  }

  function Projecting<S, M>(p: Projector<S, M>): (S, EventPage) -> Result<S, ClientError> {
    (state, page) => ProjectPage(p, state, page)
  }

  /** The instance's state after the events of a book. */
  function Project<S, M>(p: Projector<S, M>, state: S, pages: seq<EventPage>): Result<S, ClientError> {
    FoldM(Projecting(p), state, pages)
  }

  /** The generated page loop. */
  method RunProjector<S, M>(p: Projector<S, M>, initial: S, book: EventBook) returns (r: Result<S, ClientError>)
    ensures r == Project(p, initial, book.pages)
  {
    var state := initial;
    for i := 0 to |book.pages|
      invariant Project(p, initial, book.pages) == Project(p, state, book.pages[i..])
    {
      assert book.pages[i..][1..] == book.pages[i + 1..];
      state :- ProjectPage(p, state, book.pages[i]);
    }
    return Ok(state);
  }

  /** The state of an instance after the requests it was given. */
  function StateAfter<S, M>(p: Projector<S, M>, history: seq<HandlerRequest>): Result<S, ClientError> {
    if |history| == 0 then Ok(p.initial)
    else
      var before :- StateAfter(p, history[..|history| - 1]);
      match history[|history| - 1]
      case ProjectorRequest(book) => Project(p, before, book.pages)
      case _ => Err(HandlerWrongRequestKind("Projector"))
  }

  function ProjectorAnswer<S, M>(p: Projector<S, M>, history: seq<HandlerRequest>, req: HandlerRequest)
    : Result<HandlerResponse, ClientError>
  {
    var state :- StateAfter(p, history + [req]);
    match req
    case ProjectorRequest(book) => Ok(ProjectorResponse(Projection(book.cover, p.name, book.nextSequence)))
    case _ => Err(HandlerWrongRequestKind("Projector"))
  }

  function ProjectorFactory<S, M>(p: Projector<S, M>): Factory {
    Factory(ProjectorKind, ProjectorConfig(p.name, p.domains, Keys(p.handles)),
            (history, req) => ProjectorAnswer(p, history, req))
  }

  // --------------------------------------------------------------- Router

  /** A book without a cover reaches every projector; "*" listens to every domain. */
  predicate Listens(f: Factory, cover: Option<Cover>) {
    && f.config.ProjectorConfig?
    && (cover.None? || cover.value.domain in f.config.domains || "*" in f.config.domains)
  }

  function Listening(cover: Option<Cover>): Factory -> bool {
    (f: Factory) => Listens(f, cover)
  }

  /** The single-page books a projector is given, one per page. */
  function PageRequests(book: EventBook): (reqs: seq<HandlerRequest>)
    ensures |reqs| == |book.pages|
    ensures forall i :: 0 <= i < |reqs| ==> reqs[i] == ProjectorRequest(book.(pages := [book.pages[i]]))
  {
    seq(|book.pages|, i requires 0 <= i < |book.pages| => ProjectorRequest(book.(pages := [book.pages[i]])))
  }

  function AsProjection(r: Result<HandlerResponse, ClientError>): Result<Projection, ClientError> {
    match r
    case Err(e) => Err(e)
    case Ok(ProjectorResponse(projection)) => Ok(projection)
    case Ok(_) => Err(HandlerWrongResponseKind("Projector"))
  }

  /** What a projector fed alone, page after page from the first, answers to page i. */
  function AnswerAlone(f: Factory, book: EventBook, i: nat): Result<Projection, ClientError>
    requires i < |book.pages|
  {
    AsProjection(f.answer(PageRequests(book)[..i], PageRequests(book)[i]))
  }

  /** The t-th delivery of a complete run over m projectors: (page, projector), page by page. */
  function Position(m: nat, t: nat): (nat, nat) {
    if t == 0 then (0, 0)
    else
      var (page, projector) := Position(m, t - 1);
      if projector + 1 < m then (page, projector + 1) else (page + 1, 0)
  }

  /** How many pages projector k has been given. */
  function Progress(trace: seq<(nat, nat)>, k: nat): nat {
    if |trace| == 0 then 0
    else Progress(trace[..|trace| - 1], k) + (if trace[|trace| - 1].1 == k then 1 else 0)
  }

  ghost predicate InLockstep(trace: seq<(nat, nat)>, m: nat) {
    forall t :: 0 <= t < |trace| ==> trace[t] == Position(m, t)
  }

  /** How many pages projector k has after pages before i went to all and page i to the first j. */
  function PagesGiven(i: nat, j: nat, k: nat): nat {
    if k < j then i + 1 else i
  }

  /** The deliveries made: page-major, all before the place (i, j) and reaching it. */
  ghost predicate TraceStands(trace: seq<(nat, nat)>, m: nat, i: nat, j: nat) {
    && InLockstep(trace, m)
    && (m == 0 ==> trace == [])
    && (m > 0 ==> Position(m, |trace|) == if j < m then (i, j) else (i + 1, 0))
    && (forall t :: 0 <= t < |trace| ==>
          trace[t].1 < m && (trace[t].0 < i || (trace[t].0 == i && trace[t].1 < j)))
    && (forall k :: 0 <= k < m ==> Progress(trace, k) == PagesGiven(i, j, k))
  }

  /** What each instance was given. */
  ghost predicate GivenStands(book: EventBook, given: seq<seq<HandlerRequest>>, m: nat, i: nat, j: nat)
    requires i <= |book.pages| && (j > 0 ==> i < |book.pages|)
  {
    |given| == m && forall k :: 0 <= k < m ==> given[k] == PageRequests(book)[..PagesGiven(i, j, k)]
  }

  /** That every answer so far was good. */
  ghost predicate AnswersStand(matched: seq<Factory>, book: EventBook, i: nat, j: nat)
    requires i <= |book.pages| && j <= |matched| && (j > 0 ==> i < |book.pages|)
  {
    && (forall k, p :: 0 <= k < |matched| && 0 <= p < i ==> AnswerAlone(matched[k], book, p).Ok?)
    && (forall k :: 0 <= k < j ==> AnswerAlone(matched[k], book, i).Ok?)
  }

  /** Where a run stands once pages before i went to every matched projector and page i to the first j. */
  ghost predicate Stands(matched: seq<Factory>, book: EventBook, given: seq<seq<HandlerRequest>>,
                         trace: seq<(nat, nat)>, i: nat, j: nat)
    requires i <= |book.pages| && j <= |matched| && (j > 0 ==> i < |book.pages|)
  {
    && TraceStands(trace, |matched|, i, j)
    && GivenStands(book, given, |matched|, i, j)
    && AnswersStand(matched, book, i, j)
  }

  /** The state a run stops in at its first bad answer: projector k on page i. */
  ghost predicate Failed(matched: seq<Factory>, book: EventBook, given: seq<seq<HandlerRequest>>,
                         trace: seq<(nat, nat)>, error: ClientError)
  {
    && |given| == |matched|
    && InLockstep(trace, |matched|)
    && (forall t :: 0 <= t < |trace| ==> trace[t].0 < |book.pages| && trace[t].1 < |matched|)
    && (forall k :: 0 <= k < |matched| ==>
          Progress(trace, k) <= |book.pages| && given[k] == PageRequests(book)[..Progress(trace, k)])
    && |trace| > 0
    && (forall t :: 0 <= t < |trace| - 1 ==> AnswerAlone(matched[trace[t].1], book, trace[t].0).Ok?)
    && AnswerAlone(matched[trace[|trace| - 1].1], book, trace[|trace| - 1].0) == Err(error)
  }

  /** The instances of the projectors that listen to the book. */
  method Match(fs: seq<Factory>, cover: Option<Cover>) returns (matched: seq<Factory>)
    ensures matched == Filter(Listening(cover), fs)
  {
    matched := [];
    for i := 0 to |fs|
      invariant matched == Filter(Listening(cover), fs[..i])
    {
      assert fs[..i + 1] == fs[..i] + [fs[i]];
      FilterAppend(Listening(cover), fs[..i], [fs[i]]);
      assert [fs[i]][1..] == [];
      if !fs[i].config.ProjectorConfig? {
        continue;
      }
      if cover.Some? && cover.value.domain !in fs[i].config.domains && "*" !in fs[i].config.domains {
        continue;
      }
      matched := matched + [fs[i]];
    }
    assert fs[..|fs|] == fs;
  }

  lemma DeliverTrace(trace: seq<(nat, nat)>, m: nat, i: nat, j: nat)
    requires j < m && TraceStands(trace, m, i, j)
    ensures TraceStands(trace + [(i, j)], m, i, j + 1)
  {
    var trace' := trace + [(i, j)];
    assert trace'[..|trace'| - 1] == trace;
    assert forall k :: Progress(trace', k) == Progress(trace, k) + (if k == j then 1 else 0);
  }

  lemma DeliverGiven(book: EventBook, given: seq<seq<HandlerRequest>>, m: nat, i: nat, j: nat)
    requires i < |book.pages| && j < m && GivenStands(book, given, m, i, j)
    ensures GivenStands(book, given[j := given[j] + [PageRequests(book)[i]]], m, i, j + 1)
  {
    var reqs := PageRequests(book);
    assert reqs[..i + 1] == reqs[..i] + [reqs[i]];
  }

  /** All answers before the place (i, j) are good. */
  lemma GoodBefore(matched: seq<Factory>, book: EventBook, trace: seq<(nat, nat)>, i: nat, j: nat)
    requires i < |book.pages| && j < |matched|
    requires TraceStands(trace, |matched|, i, j) && AnswersStand(matched, book, i, j)
    ensures forall t :: 0 <= t < |trace| ==>
              trace[t].0 < |book.pages| && AnswerAlone(matched[trace[t].1], book, trace[t].0).Ok?
  {
  }

  /** One delivery, good or bad. */
  lemma Deliver(matched: seq<Factory>, book: EventBook, given: seq<seq<HandlerRequest>>, trace: seq<(nat, nat)>,
                i: nat, j: nat)
    requires i < |book.pages| && j < |matched| && Stands(matched, book, given, trace, i, j)
    ensures var given' := given[j := given[j] + [PageRequests(book)[i]]];
            var trace' := trace + [(i, j)];
            match AnswerAlone(matched[j], book, i)
            case Ok(_) => Stands(matched, book, given', trace', i, j + 1)
            case Err(e) => Failed(matched, book, given', trace', e)
  {
    DeliverTrace(trace, |matched|, i, j);
    DeliverGiven(book, given, |matched|, i, j);
    GoodBefore(matched, book, trace, i, j);
  }

  /** The inner loop: page i to every matched projector. */
  method DeliverPage(matched: seq<Factory>, book: EventBook, i: nat, given0: seq<seq<HandlerRequest>>,
                     trace0: seq<(nat, nat)>)
    returns (failure: Option<ClientError>, given: seq<seq<HandlerRequest>>, trace: seq<(nat, nat)>)
    requires i < |book.pages| && Stands(matched, book, given0, trace0, i, 0)
    ensures failure.None? ==> Stands(matched, book, given, trace, i, |matched|)
    ensures failure.Some? ==> Failed(matched, book, given, trace, failure.value)
  {
    given, trace := given0, trace0;
    var pageBook := EventBook(book.cover, [book.pages[i]], book.snapshot, book.nextSequence);
    assert ProjectorRequest(pageBook) == PageRequests(book)[i];
    for j := 0 to |matched|
      invariant Stands(matched, book, given, trace, i, j)
    {
      var answer := AsProjection(matched[j].answer(given[j], ProjectorRequest(pageBook)));
      assert answer == AnswerAlone(matched[j], book, i);
      Deliver(matched, book, given, trace, i, j);
      given := given[j := given[j] + [ProjectorRequest(pageBook)]];
      trace := trace + [(i, j)];
      if answer.Err? {
        failure := Some(answer.error);
        return;
      }
    }
    failure := None;
  }

  lemma NextPage(matched: seq<Factory>, book: EventBook, given: seq<seq<HandlerRequest>>, trace: seq<(nat, nat)>,
                 i: nat)
    requires i < |book.pages| && Stands(matched, book, given, trace, i, |matched|)
    ensures Stands(matched, book, given, trace, i + 1, 0)
  {
    assert forall k, p :: 0 <= k < |matched| && 0 <= p < i + 1 ==> AnswerAlone(matched[k], book, p).Ok?;
  }

  /**
   * `ProjectorRouter::dispatch`. `matched` are the instances, `given` the requests each of them got
   * and `trace` the deliveries in order, the failing one included.
   */
  method Dispatch(fs: seq<Factory>, book: EventBook)
    returns (r: Result<Projection, ClientError>, matched: seq<Factory>, given: seq<seq<HandlerRequest>>,
             trace: seq<(nat, nat)>)
    ensures matched == Filter(Listening(book.cover), fs)
    ensures InLockstep(trace, |matched|) && |given| == |matched|
    ensures forall k :: 0 <= k < |matched| ==> Progress(trace, k) <= |book.pages| &&
                                               given[k] == PageRequests(book)[..Progress(trace, k)]
    ensures r.Ok? <==>
            forall k, i :: 0 <= k < |matched| && 0 <= i < |book.pages| ==> AnswerAlone(matched[k], book, i).Ok?
    ensures r.Ok? ==> r.value == Projection(book.cover, "", book.nextSequence) &&
                      forall k :: 0 <= k < |matched| ==> given[k] == PageRequests(book)
    ensures r.Err? ==> Failed(matched, book, given, trace, r.error)
  {
    matched := Match(fs, book.cover);
    given := seq(|matched|, _ => []);
    trace := [];
    for i := 0 to |book.pages|
      invariant Stands(matched, book, given, trace, i, 0)
    {
      var failure;
      failure, given, trace := DeliverPage(matched, book, i, given, trace);
      if failure.Some? {
        r := Err(failure.value);
        return;
      }
      NextPage(matched, book, given, trace, i);
    }
    assert PageRequests(book)[..|book.pages|] == PageRequests(book);
    r := Ok(Projection(book.cover, "", book.nextSequence));
  }

  // -------------------------------------------------------------- Lockstep

  lemma {:induction false} ProgressAt(trace: seq<(nat, nat)>, m: nat, k: nat)
    requires m > 0 && k < m && InLockstep(trace, m)
    ensures var (page, projector) := Position(m, |trace|);
            projector < m && Progress(trace, k) == page + (if k < projector then 1 else 0)
  {
    if |trace| > 0 {
      var init := trace[..|trace| - 1];
      assert forall t :: 0 <= t < |init| ==> init[t] == trace[t];
      ProgressAt(init, m, k);
      assert trace[|trace| - 1] == Position(m, |init|);
    }
  }

  /**
   * Lockstep at every point of a run, an error exit included: of two matched projectors the one
   * registered earlier is zero or one page ahead.
   */
  lemma Lockstep(trace: seq<(nat, nat)>, m: nat, t: nat, j: nat, k: nat)
    requires InLockstep(trace, m) && t <= |trace| && j < k < m
    ensures Progress(trace[..t], k) <= Progress(trace[..t], j) <= Progress(trace[..t], k) + 1
  {
    assert forall i :: 0 <= i < t ==> trace[..t][i] == trace[i];
    ProgressAt(trace[..t], m, j);
    ProgressAt(trace[..t], m, k);
  }

  // ------------------------------------------------------------- Refinement

  /** After the first i single-page books an instance is where the first i pages in one book take it. */
  lemma {:induction false} PagesOneByOne<S, M>(p: Projector<S, M>, book: EventBook, i: nat)
    requires i <= |book.pages|
    ensures StateAfter(p, PageRequests(book)[..i]) == Project(p, p.initial, book.pages[..i])
  {
    if i > 0 {
      PagesOneByOne(p, book, i - 1);
      var history := PageRequests(book)[..i];
      assert history[..i - 1] == PageRequests(book)[..i - 1];
      assert history[i - 1] == ProjectorRequest(book.(pages := [book.pages[i - 1]]));
      assert book.pages[..i] == book.pages[..i - 1] + [book.pages[i - 1]];
      FoldMAppend(Projecting(p), p.initial, book.pages[..i - 1], [book.pages[i - 1]]);
    }
  }

  lemma AloneIsPrefix<S, M>(p: Projector<S, M>, book: EventBook, i: nat)
    requires i < |book.pages|
    ensures AnswerAlone(ProjectorFactory(p), book, i).Ok? == Project(p, p.initial, book.pages[..i + 1]).Ok?
    ensures AnswerAlone(ProjectorFactory(p), book, i).Err? ==>
              AnswerAlone(ProjectorFactory(p), book, i).error == Project(p, p.initial, book.pages[..i + 1]).error
  {
    PagesOneByOne(p, book, i + 1);
    var reqs := PageRequests(book);
    assert reqs[..i] + [reqs[i]] == reqs[..i + 1];
    assert ProjectorFactory(p).answer(reqs[..i], reqs[i]) == ProjectorAnswer(p, reqs[..i], reqs[i]);
  }

  lemma WholeBookOnce<S, M>(p: Projector<S, M>, book: EventBook)
    ensures StateAfter(p, [ProjectorRequest(book)]) == Project(p, p.initial, book.pages)
  {
    assert [ProjectorRequest(book)][..0] == [];
    assert StateAfter(p, []) == Ok(p.initial);
  }

  /**
   * Page by page is as good as the whole book: a generated projector the router feeds one page at a
   * time succeeds on every page exactly when it would succeed on the whole book given once, and
   * after the run its state is then the same.
   */
  lemma PageFeedRefinesWholeBook<S, M>(p: Projector<S, M>, book: EventBook)
    ensures (forall i :: 0 <= i < |book.pages| ==> AnswerAlone(ProjectorFactory(p), book, i).Ok?) <==>
            Project(p, p.initial, book.pages).Ok?
    ensures StateAfter(p, PageRequests(book)) == Project(p, p.initial, book.pages)
    ensures StateAfter(p, PageRequests(book)) == StateAfter(p, [ProjectorRequest(book)])
  {
    var n := |book.pages|;
    assert book.pages[..n] == book.pages && PageRequests(book)[..n] == PageRequests(book);
    PagesOneByOne(p, book, n);
    forall i | 0 <= i < n && Project(p, p.initial, book.pages).Ok?
      ensures AnswerAlone(ProjectorFactory(p), book, i).Ok?
    {
      AloneIsPrefix(p, book, i);
      assert book.pages == book.pages[..i + 1] + book.pages[i + 1..];
      FoldMAppend(Projecting(p), p.initial, book.pages[..i + 1], book.pages[i + 1..]);
    }
    if n > 0 {
      AloneIsPrefix(p, book, n - 1);
    }
    WholeBookOnce(p, book);
  }

  // ------------------------------------------------------------ Events seen

  /** The event a page shows the projector: that of the first arm declared for its type, or none. */
  function EventOf<S, M>(p: Projector<S, M>, page: EventPage): Result<seq<M>, ClientError> {
    if page.payload.Some? && page.payload.value.Event? && page.payload.value.event.typeUrl in Keys(p.handles) then
      var any := page.payload.value.event;
      match p.handles[FirstIndex(Keys(p.handles), any.typeUrl)].body.decode(any.value)
      case Ok(event) => Ok([event])
      case Err(cause) => Err(AnyDecodeFailed(any.typeUrl, cause))
    else Ok([])
  }

  function EventReader<S, M>(p: Projector<S, M>): EventPage -> Result<seq<M>, ClientError> {
    (page: EventPage) => EventOf(p, page)
  }

  /** The same method, which also writes down the event it was called with. */
  function LoggedBody<S, M>(body: ProjectBody<S, M>): ProjectBody<(S, seq<M>), M> {
    ProjectBody(
      body.decode,
      (state: (S, seq<M>), event: M) =>
        match body.project(state.0, event)
        case Ok(next) => Ok((next, state.1 + [event]))
        case Err(e) => Err(e))
  }

  function LoggedArms<S, M>(arms: seq<Arm<string, ProjectBody<S, M>>>)
    : (logged: seq<Arm<string, ProjectBody<(S, seq<M>), M>>>)
    ensures |logged| == |arms|
    ensures forall i :: 0 <= i < |arms| ==> logged[i] == Arm(arms[i].key, LoggedBody(arms[i].body))
  {
    seq(|arms|, i requires 0 <= i < |arms| => Arm(arms[i].key, LoggedBody(arms[i].body)))
  }

  /** A projector with a log of the events its methods have accepted. */
  function Logged<S, M>(p: Projector<S, M>): Projector<(S, seq<M>), M> {
    Projector(p.name, p.domains, LoggedArms(p.handles), (p.initial, []))
  }

  lemma LoggedPage<S, M>(p: Projector<S, M>, state: S, log: seq<M>, page: EventPage)
    ensures ProjectPage(Logged(p), (state, log), page) ==
            match ProjectPage(p, state, page)
            case Ok(next) => Ok((next, log + (if EventOf(p, page).Ok? then EventOf(p, page).value else [])))
            case Err(e) => Err(e)
    ensures ProjectPage(p, state, page).Ok? ==> EventOf(p, page).Ok?
  {
    assert log + [] == log;
    if page.payload.Some? && page.payload.value.Event? {
      var url := page.payload.value.event.typeUrl;
      LookupFirst(p.handles, url);
      LookupFirst(LoggedArms(p.handles), url);
      assert Keys(LoggedArms(p.handles)) == Keys(p.handles);
    }
  }

  lemma {:induction false} LogIsEvents<S, M>(p: Projector<S, M>, state: S, log: seq<M>, pages: seq<EventPage>)
    ensures match Project(p, state, pages)
            case Err(e) => Project(Logged(p), (state, log), pages) == Err(e)
            case Ok(end) =>
              Traverse(EventReader(p), pages).Ok? &&
              Project(Logged(p), (state, log), pages) ==
                Ok((end, log + Concat(Traverse(EventReader(p), pages).value)))
    decreases |pages|
  {
    if |pages| == 0 {
      assert log + [] == log;
    } else {
      LoggedPage(p, state, log, pages[0]);
      var step := ProjectPage(p, state, pages[0]);
      if step.Ok? {
        var first := EventOf(p, pages[0]).value;
        LogIsEvents(p, step.value, log + first, pages[1..]);
        if Project(p, step.value, pages[1..]).Ok? {
          var rest := Traverse(EventReader(p), pages[1..]).value;
          ConcatCons(first, rest);
          assert log + (first + Concat(rest)) == (log + first) + Concat(rest);
        }
      }
    }
  }

  /**
   * What any projector sees: fed page by page and successful, its methods were called with exactly
   * the handled events of the book, each once and in book order; keeping the log changes neither the
   * state it reaches nor the error it stops with.
   */
  lemma EventsSeenOnce<S, M>(p: Projector<S, M>, book: EventBook)
    ensures match StateAfter(p, PageRequests(book))
            case Err(e) => StateAfter(Logged(p), PageRequests(book)) == Err(e)
            case Ok(end) =>
              Traverse(EventReader(p), book.pages).Ok? &&
              StateAfter(Logged(p), PageRequests(book)) ==
                Ok((end, Concat(Traverse(EventReader(p), book.pages).value)))
  {
    PageFeedRefinesWholeBook(p, book);
    PageFeedRefinesWholeBook(Logged(p), book);
    LogIsEvents(p, p.initial, [], book.pages);
    if Project(p, p.initial, book.pages).Ok? {
      var events := Concat(Traverse(EventReader(p), book.pages).value);
      assert [] + events == events;
    }
  }


  // ---------------------------------------------- Selection from the fields

  /** The projectors that hear a book: without a cover all, else those listing its domain or "*". */
  ghost predicate Hears(f: Factory, cover: Option<Cover>) {
    f.config.ProjectorConfig? &&
    (cover == None ||
     exists i :: 0 <= i < |f.config.domains| &&
                 (f.config.domains[i] == cover.value.domain || f.config.domains[i] == "*"))
  }

  /** Their positions, in registration order. */
  ghost predicate Held(fs: seq<Factory>, cover: Option<Cover>, picks: seq<nat>) {
    Increasing(picks, |fs|) && forall k: nat :: k < |fs| ==> (k in picks <==> Hears(fs[k], cover))
  }

  /** The instances a router holds are those of the projectors that hear the book, in order. */
  lemma InstancesByIndex(fs: seq<Factory>, cover: Option<Cover>)
    ensures Held(fs, cover, Picks(Listening(cover), fs))
    ensures Filter(Listening(cover), fs) == At(fs, Picks(Listening(cover), fs))
  {
    forall k: nat | k < |fs| ensures Listening(cover)(fs[k]) <==> Hears(fs[k], cover) {
    }
    PicksSelect(Listening(cover), fs);
    PicksFilter(Listening(cover), fs);
  }

  /** `ProjectorRouter::dispatch`, with the positions of the projectors it feeds. */
  method DispatchByIndex(fs: seq<Factory>, book: EventBook)
    returns (r: Result<Projection, ClientError>, picks: seq<nat>, given: seq<seq<HandlerRequest>>)
    ensures Held(fs, book.cover, picks) && |given| == |picks|
    ensures r.Ok? <==> forall n, i :: 0 <= n < |picks| && 0 <= i < |book.pages| ==>
                         AnswerAlone(fs[picks[n]], book, i).Ok?
    ensures r.Ok? ==> r.value == Projection(book.cover, "", book.nextSequence) &&
                      forall n :: 0 <= n < |picks| ==> given[n] == PageRequests(book)
    ensures r.Ok? ==> forall n :: 0 <= n < |picks| ==>
              && |given[n]| == |book.pages|
              && forall i :: 0 <= i < |book.pages| ==>
                   given[n][i] ==
                   ProjectorRequest(EventBook(book.cover, [book.pages[i]], book.snapshot, book.nextSequence))
    ensures r.Err? ==> exists n, i :: 0 <= n < |picks| && 0 <= i < |book.pages| &&
                                      AnswerAlone(fs[picks[n]], book, i) == Err(r.error)
  {
    var matched, trace;
    r, matched, given, trace := Dispatch(fs, book);
    picks := Picks(Listening(book.cover), fs);
    InstancesByIndex(fs, book.cover);
    if r.Err? {
      assert AnswerAlone(fs[picks[trace[|trace| - 1].1]], book, trace[|trace| - 1].0) == Err(r.error);
    }
  }

  /** An answer of another kind counts as an error; of a projection only the kind is looked at. */
  lemma AnswerKinds(f: Factory, book: EventBook, i: nat)
    requires i < |book.pages|
    ensures match f.answer(PageRequests(book)[..i], PageRequests(book)[i])
            case Err(e) => AnswerAlone(f, book, i) == Err(e)
            case Ok(ProjectorResponse(_)) => AnswerAlone(f, book, i).Ok?
            case Ok(_) => AnswerAlone(f, book, i) == Err(HandlerWrongResponseKind("Projector"))
  {
  }

  /** One page, for a generated projector: its first arm for the type, and no other page matters. */
  lemma ProjectedPage<S, M>(p: Projector<S, M>, state: S, page: EventPage)
    ensures Project(p, state, [page]) ==
            if page.payload.Some? && page.payload.value.Event? &&
               page.payload.value.event.typeUrl in Keys(p.handles)
            then
              var any := page.payload.value.event;
              var body := p.handles[FirstIndex(Keys(p.handles), any.typeUrl)].body;
              match body.decode(any.value)
              case Err(cause) => Err(AnyDecodeFailed(any.typeUrl, cause))
              case Ok(event) =>
                match body.project(state, event)
                case Ok(next) => Ok(next)
                case Err(e) => Err(Rejected(e))
            else Ok(state)
  {
    if page.payload.Some? && page.payload.value.Event? {
      LookupFirst(p.handles, page.payload.value.event.typeUrl);
    }
    FoldMSnoc(Projecting(p), state, [], page);
    assert [] + [page] == [page];
  }

  /**
   * A generated projector in a router: without a cover, or when it lists the cover's domain or "*",
   * it is held once and a successful dispatch leaves it where the whole book would; otherwise it is
   * given nothing.
   */
  method FeedGenerated<S, M>(ghost p: Projector<S, M>, fs: seq<Factory>, k: nat, book: EventBook)
    returns (r: Result<Projection, ClientError>, given: Option<seq<HandlerRequest>>)
    requires k < |fs| && fs[k] == ProjectorFactory(p)
    ensures given.Some? <==>
            book.cover == None ||
            exists i :: 0 <= i < |p.domains| && (p.domains[i] == book.cover.value.domain || p.domains[i] == "*")
    ensures r.Ok? && given.Some? ==> given.value == PageRequests(book) && Project(p, p.initial, book.pages).Ok? &&
                                     StateAfter(p, given.value) == Project(p, p.initial, book.pages)
    ensures given.Some? && Project(p, p.initial, book.pages).Err? ==> r.Err?
  {
    var picks, all;
    r, picks, all := DispatchByIndex(fs, book);
    PageFeedRefinesWholeBook(p, book);
    given := None;
    assert fs[k].config.domains == p.domains;
    if k in picks {
      given := Some(all[FirstIndex(picks, k)]);
    }
  }

  /** Deliveries go page by page: before the t-th over m projectors, each earlier page went to all m. */
  lemma {:induction false} PositionIsPageMajor(m: nat, t: nat)
    requires m > 0
    ensures Position(m, t).1 < m && t == Position(m, t).0 * m + Position(m, t).1
  {
    if t > 0 {
      PositionIsPageMajor(m, t - 1);
      var page := Position(m, t - 1).0;
      assert (page + 1) * m == page * m + m;
    }
  }
}
