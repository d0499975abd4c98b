/** `CommandHandlerRouter`: first-match command dispatch and the rejection fan-out. */
module CommandRouting {
  import opened Foundations
  import opened Proto
  import opened Handlers
  import opened Rebuilding
  import opened CommandHandlers

  // ------------------------------------------------------- Specifications

  function ExtractCommandTypeUrl(cmd: ContextualCommand): Result<string, ClientError> {
    var any :- CommandAny(cmd);
    Ok(any.typeUrl)
  }

  /** The runtime domain of a command: its cover's, or "". */
  function CommandDomain(cmd: ContextualCommand): string {
    match cmd.command
    case Some(book) => CoverDomain(book.cover)
    case None => ""
  }

  /** The domain named in the no-handler error. */
  function ReportedDomain(cmd: ContextualCommand): string {
    if cmd.command.Some? && cmd.command.value.cover.Some? then CommandDomain(cmd) else "<missing>"
  }

  /** The routing key `(domain, type_url)` is one of the handler's. */
  predicate HandlesKey(f: Factory, domain: string, url: string) {
    f.config.CommandHandlerConfig? && f.config.domain == domain && url in f.config.handled
  }

  function AsCommandResponse(r: Result<HandlerResponse, ClientError>): Result<BusinessResponse, ClientError> {
    match r
    case Err(e) => Err(e)
    case Ok(CommandResponse(response)) => Ok(response)
    case Ok(_) => Err(HandlerWrongResponseKind("CommandHandler"))
  }

  /** The answer of the first handler that declares the key. */
  function FirstMatch(fs: seq<Factory>, domain: string, url: string, cmd: ContextualCommand)
    : Result<BusinessResponse, ClientError>
  {
    if |fs| == 0 then Err(NoHandlerRegistered(Some(ReportedDomain(cmd)), url))
    else if HandlesKey(fs[0], domain, url) then AsCommandResponse(fs[0].Dispatch(CommandRequest(cmd)))
    else FirstMatch(fs[1..], domain, url, cmd)
  }

  /** The rejection key as the router reads it off the incoming notification. */
  function RejectedCommandKey(rejected: Option<CommandBook>): (string, string) {
    match rejected
    case None => ("", "")
    case Some(book) =>
      var url :=
        if |book.pages| == 0 then None
        else
          match book.pages[0].payload
          case Some(Command(any)) => Some(any.typeUrl)
          case _ => None;
      (CoverDomain(book.cover), if url.Some? then CommandSuffix(url.value) else "")
  }

  function ExtractRejectionKey(w: Wire, cmd: ContextualCommand): Result<(string, string), ClientError> {
    var payload :- CommandAny(cmd);
    match w.decodeNotification(payload.value)
    case Err(cause) => Err(NotificationDecodeFailed(cause))
    case Ok(notification) =>
      var rejected :-
        (match notification.payload
         case None => Ok(None)
         case Some(p) =>
           match w.decodeRejection(p.value)
           case Err(cause) => Err(RejectionNotificationDecodeFailed(cause))
           case Ok(rejection) => Ok(rejection.rejectedCommand));
      Ok(RejectedCommandKey(rejected))
  }

  predicate RejectsKey(f: Factory, key: (string, string)) {
    f.config.CommandHandlerConfig? && key in f.config.rejected
  }

  function RejectionSelector(key: (string, string)): Factory -> bool {
    f => RejectsKey(f, key)
  }

  /** The command as one handler gets it: prior events, if any, stamped with the running sequence. */
  function Scoped(cmd: ContextualCommand, sequence: uint32): ContextualCommand {
    match cmd.events
    case Some(book) => cmd.(events := Some(book.(nextSequence := sequence)))
    case None => cmd
  }

  function InitialSequence(cmd: ContextualCommand): uint32 {
    cmd.events.UnwrapOr(EMPTY_EVENT_BOOK).nextSequence
  }

  /** `running_seq += pages.len() as u32`. */
  function Advance(sequence: uint32, pages: seq<EventPage>): uint32 {
    (sequence + |pages|) % U32_LIMIT
  }

  /** The pages a response contributes: only an `Events` result has any. */
  function EmittedPages(response: BusinessResponse): seq<EventPage> {
    match response.result
    case Some(Events(book)) => book.pages
    case _ => []
  }

  datatype RejectionRun = RejectionRun(runningSeq: uint32, pages: seq<EventPage>)

  /** One turn of the fan-out loop. */
  function RejectOnce(cmd: ContextualCommand, key: (string, string), run: RejectionRun, f: Factory)
    : Result<RejectionRun, ClientError>
  {
    if !RejectsKey(f, key) then Ok(run)
    else
      var response :- AsCommandResponse(f.Dispatch(CommandRequest(Scoped(cmd, run.runningSeq))));
      var emitted := EmittedPages(response);
      Ok(RejectionRun(Advance(run.runningSeq, emitted), run.pages + emitted))
  }

  function RejectStep(cmd: ContextualCommand, key: (string, string))
    : (RejectionRun, Factory) -> Result<RejectionRun, ClientError>
  {
    (run: RejectionRun, f: Factory) => RejectOnce(cmd, key, run, f)
  }

  /** The fan-out over every handler whose `#[rejected]` set has the key. */
  function MergeRejections(fs: seq<Factory>, cmd: ContextualCommand, key: (string, string))
    : Result<EventBook, ClientError>
  {
    var run :- FoldM(RejectStep(cmd, key), RejectionRun(InitialSequence(cmd), []), fs);
    Ok(EMPTY_EVENT_BOOK.(pages := run.pages, nextSequence := run.runningSeq))
  }

  function RouteRejection(w: Wire, fs: seq<Factory>, cmd: ContextualCommand): Result<BusinessResponse, ClientError> {
    var key :- ExtractRejectionKey(w, cmd);
    var merged :- MergeRejections(fs, cmd, key);
    Ok(Respond(merged))
  }

  function RouteCommand(w: Wire, fs: seq<Factory>, cmd: ContextualCommand): Result<BusinessResponse, ClientError> {
    var url :- ExtractCommandTypeUrl(cmd);
    if url == NOTIFICATION_URL then RouteRejection(w, fs, cmd)
    else FirstMatch(fs, CommandDomain(cmd), url, cmd)
  }

  // --------------------------------------------------------------- Methods

  /** `CommandHandlerRouter::dispatch`. */
  method Dispatch(w: Wire, fs: seq<Factory>, cmd: ContextualCommand) returns (r: Result<BusinessResponse, ClientError>)
    ensures r == RouteCommand(w, fs, cmd)
  {
    var url :- ExtractCommandTypeUrl(cmd);
    if url == NOTIFICATION_URL {
      r := DispatchRejection(w, fs, cmd);
      return;
    }
    var domain := CommandDomain(cmd);
    for i := 0 to |fs|
      invariant FirstMatch(fs, domain, url, cmd) == FirstMatch(fs[i..], domain, url, cmd)
    {
      assert fs[i..][1..] == fs[i + 1..];
      var f := fs[i];
      if !f.config.CommandHandlerConfig? || f.config.domain != domain || url !in f.config.handled {
        continue;
      }
      r := AsCommandResponse(f.Dispatch(CommandRequest(cmd)));
      return;
    }
    return Err(NoHandlerRegistered(Some(ReportedDomain(cmd)), url));
  }

  /** `CommandHandlerRouter::dispatch_rejection`. */
  method DispatchRejection(w: Wire, fs: seq<Factory>, cmd: ContextualCommand)
    returns (r: Result<BusinessResponse, ClientError>)
    ensures r == RouteRejection(w, fs, cmd)
  {
    var key :- ExtractRejectionKey(w, cmd);
    var initial := InitialSequence(cmd);
    var runningSeq: uint32 := initial;
    var merged := EMPTY_EVENT_BOOK.(nextSequence := initial);
    for i := 0 to |fs|
      invariant merged == EMPTY_EVENT_BOOK.(pages := merged.pages, nextSequence := initial)
      invariant FoldM(RejectStep(cmd, key), RejectionRun(initial, []), fs) ==
                FoldM(RejectStep(cmd, key), RejectionRun(runningSeq, merged.pages), fs[i..])
    {
      assert fs[i..][1..] == fs[i + 1..];
      var f := fs[i];
      ghost var run := RejectionRun(runningSeq, merged.pages);
      if !f.config.CommandHandlerConfig? || key !in f.config.rejected {
        continue;
      }
      var response :- AsCommandResponse(f.Dispatch(CommandRequest(Scoped(cmd, runningSeq))));
      if response.result.Some? && response.result.value.Events? {
        var pages := response.result.value.book.pages;
        runningSeq := (runningSeq + |pages|) % U32_LIMIT;
        merged := merged.(pages := merged.pages + pages);
      } else {
        assert merged.pages + [] == merged.pages;
      }
      assert RejectOnce(cmd, key, run, f) == Ok(RejectionRun(runningSeq, merged.pages));
    }
    merged := merged.(nextSequence := runningSeq);
    return Ok(Respond(merged));
  }

  // ------------------------------------------------------ Sequence threading

  /** One matched handler's turn: the sequence it was given and the pages it emitted. */
  datatype Visit = Visit(received: uint32, emitted: seq<EventPage>)

  function Emitted(): Visit -> seq<EventPage> {
    (v: Visit) => v.emitted
  }

  /** All pages emitted in the given turns, in order. */
  function Emissions(visits: seq<Visit>): seq<EventPage> {
    FlatMap(Emitted(), visits)
  }

  /**
   * A turn as it should be: after `earlier` turns, this handler was given `v.received` and emitted
   * `v.emitted`.
   */
  ghost predicate Turn(start: uint32, handler: Factory, cmd: ContextualCommand, earlier: seq<Visit>, v: Visit) {
    && v.received == Advance(start, Emissions(earlier))
    && var given :=
         if cmd.events.Some? then cmd.(events := Some(cmd.events.value.(nextSequence := v.received))) else cmd;
       var answer := handler.Dispatch(CommandRequest(given));
       && answer.Ok? && answer.value.CommandResponse?
       && v.emitted == match answer.value.command.result case Some(Events(book)) => book.pages case _ => []
  }

  /**
   * The contract of a threaded fan-out, turn by turn: handler k gets the start value advanced by
   * everything the earlier handlers emitted, and emits what its answer to that command holds.
   */
  ghost predicate Threaded(start: uint32, handlers: seq<Factory>, cmd: ContextualCommand, visits: seq<Visit>) {
    && |visits| == |handlers|
    && forall k :: 0 <= k < |visits| ==> Turn(start, handlers[k], cmd, visits[..k], visits[k])
  }

  lemma EmissionsCons(v: Visit, rest: seq<Visit>)
    ensures Emissions([v] + rest) == v.emitted + Emissions(rest)
  {
    assert ([v] + rest)[1..] == rest;
  }

  lemma TurnAfterFirst(start: uint32, handler: Factory, cmd: ContextualCommand, first: Visit,
                       earlier: seq<Visit>, v: Visit)
    ensures Turn(start, handler, cmd, [first] + earlier, v) <==>
            Turn(Advance(start, first.emitted), handler, cmd, earlier, v)
  {
    EmissionsCons(first, earlier);
    AdvanceTwice(start, first.emitted, Emissions(earlier));
  }

  lemma ThreadedCons(start: uint32, f: Factory, handlers: seq<Factory>, cmd: ContextualCommand, v: Visit,
                     rest: seq<Visit>)
    requires Turn(start, f, cmd, [], v)
    ensures Threaded(start, [f] + handlers, cmd, [v] + rest) <==>
            Threaded(Advance(start, v.emitted), handlers, cmd, rest)
  {
    var visits, all := [v] + rest, [f] + handlers;
    if |rest| == |handlers| {
      forall k | 0 <= k < |rest|
        ensures Turn(start, all[k + 1], cmd, visits[..k + 1], visits[k + 1]) <==>
                Turn(Advance(start, v.emitted), handlers[k], cmd, rest[..k], rest[k])
      {
        assert visits[..k + 1] == [v] + rest[..k];
        TurnAfterFirst(start, handlers[k], cmd, v, rest[..k], rest[k]);
      }
      assert visits[..0] == [];
      if Threaded(Advance(start, v.emitted), handlers, cmd, rest) {
        forall k | 0 <= k < |visits| ensures Turn(start, all[k], cmd, visits[..k], visits[k]) {
          assert k > 0 ==> Turn(Advance(start, v.emitted), handlers[k - 1], cmd, rest[..k - 1], rest[k - 1]);
        }
      }
      if Threaded(start, all, cmd, visits) {
        forall k | 0 <= k < |rest| ensures Turn(Advance(start, v.emitted), handlers[k], cmd, rest[..k], rest[k]) {
          assert Turn(start, all[k + 1], cmd, visits[..k + 1], visits[k + 1]);
        }
      }
    }
  }

  lemma AdvanceTwice(start: uint32, p: seq<EventPage>, q: seq<EventPage>)
    ensures Advance(Advance(start, p), q) == Advance(start, p + q)
  {
  }

  /** A run that succeeds is threaded, and its result is the concatenation of the turns. */
  lemma {:induction false} RunIsThreaded(fs: seq<Factory>, cmd: ContextualCommand, key: (string, string),
                                         run: RejectionRun) returns (visits: seq<Visit>)
    requires FoldM(RejectStep(cmd, key), run, fs).Ok?
    ensures Threaded(run.runningSeq, Filter(RejectionSelector(key), fs), cmd, visits)
    ensures FoldM(RejectStep(cmd, key), run, fs) ==
            Ok(RejectionRun(Advance(run.runningSeq, Emissions(visits)), run.pages + Emissions(visits)))
  {
    if |fs| == 0 {
      visits := [];
      assert run.pages + [] == run.pages;
    } else {
      var next := RejectStep(cmd, key)(run, fs[0]).value;
      var rest := RunIsThreaded(fs[1..], cmd, key, next);
      if RejectsKey(fs[0], key) {
        var answer := AsCommandResponse(fs[0].Dispatch(CommandRequest(Scoped(cmd, run.runningSeq))));
        var v := Visit(run.runningSeq, EmittedPages(answer.value));
        visits := [v] + rest;
        ThreadedCons(run.runningSeq, fs[0], Filter(RejectionSelector(key), fs[1..]), cmd, v, rest);
        EmissionsCons(v, rest);
        AdvanceTwice(run.runningSeq, v.emitted, Emissions(rest));
        assert next == RejectionRun(Advance(run.runningSeq, v.emitted), run.pages + v.emitted);
        assert run.pages + (v.emitted + Emissions(rest)) == (run.pages + v.emitted) + Emissions(rest);
      } else {
        visits := rest;
        assert Filter(RejectionSelector(key), fs) == Filter(RejectionSelector(key), fs[1..]);
      }
    }
  }

  /** A first turn is one step of the fan-out loop. */
  lemma TurnIsStep(f: Factory, cmd: ContextualCommand, key: (string, string), run: RejectionRun, v: Visit)
    requires RejectsKey(f, key) && Turn(run.runningSeq, f, cmd, [], v)
    ensures v.received == run.runningSeq
    ensures RejectStep(cmd, key)(run, f) == Ok(RejectionRun(Advance(run.runningSeq, v.emitted), run.pages + v.emitted))
  {
    assert Advance(run.runningSeq, Emissions([])) == run.runningSeq;
  }

  /** Any list of turns that meets the contract is the run. */
  lemma {:induction false} ThreadedIsRun(fs: seq<Factory>, cmd: ContextualCommand, key: (string, string),
                                         run: RejectionRun, visits: seq<Visit>)
    requires Threaded(run.runningSeq, Filter(RejectionSelector(key), fs), cmd, visits)
    ensures FoldM(RejectStep(cmd, key), run, fs) ==
            Ok(RejectionRun(Advance(run.runningSeq, Emissions(visits)), run.pages + Emissions(visits)))
  {
    if |fs| == 0 {
      assert run.pages + [] == run.pages;
    } else if RejectsKey(fs[0], key) {
      var v, rest := visits[0], visits[1..];
      assert visits == [v] + rest;
      assert visits[..0] == [] && Turn(run.runningSeq, fs[0], cmd, [], v);
      TurnIsStep(fs[0], cmd, key, run, v);
      ThreadedCons(run.runningSeq, fs[0], Filter(RejectionSelector(key), fs[1..]), cmd, v, rest);
      var next := RejectionRun(Advance(run.runningSeq, v.emitted), run.pages + v.emitted);
      ThreadedIsRun(fs[1..], cmd, key, next, rest);
      EmissionsCons(v, rest);
      AdvanceTwice(run.runningSeq, v.emitted, Emissions(rest));
      assert run.pages + (v.emitted + Emissions(rest)) == (run.pages + v.emitted) + Emissions(rest);
    } else {
      assert Filter(RejectionSelector(key), fs) == Filter(RejectionSelector(key), fs[1..]);
      ThreadedIsRun(fs[1..], cmd, key, run, visits);
    }
  }

  /** The fan-out threads the sequence from the prior events' `next_sequence` into these turns. */
  ghost predicate ThreadedTurns(fs: seq<Factory>, cmd: ContextualCommand, key: (string, string), visits: seq<Visit>) {
    Threaded(InitialSequence(cmd), Filter(RejectionSelector(key), fs), cmd, visits)
  }

  /**
   * Sequence threading, both ways: the fan-out succeeds exactly when the matched handlers have a
   * threaded list of turns, and the merged book is then made of exactly those turns.
   */
  lemma RejectionThreading(fs: seq<Factory>, cmd: ContextualCommand, key: (string, string))
    ensures MergeRejections(fs, cmd, key).Ok? <==> exists visits :: ThreadedTurns(fs, cmd, key, visits)
    ensures forall visits :: ThreadedTurns(fs, cmd, key, visits) ==>
              MergeRejections(fs, cmd, key) ==
              Ok(EMPTY_EVENT_BOOK.(pages := Emissions(visits),
                                   nextSequence := Advance(InitialSequence(cmd), Emissions(visits))))
  {
    var start := RejectionRun(InitialSequence(cmd), []);
    if MergeRejections(fs, cmd, key).Ok? {
      var visits := RunIsThreaded(fs, cmd, key, start);
      assert ThreadedTurns(fs, cmd, key, visits);
    }
    forall visits | ThreadedTurns(fs, cmd, key, visits)
      ensures MergeRejections(fs, cmd, key) ==
              Ok(EMPTY_EVENT_BOOK.(pages := Emissions(visits),
                                   nextSequence := Advance(InitialSequence(cmd), Emissions(visits))))
    {
      ThreadedIsRun(fs, cmd, key, start, visits);
      assert [] + Emissions(visits) == Emissions(visits);
    }
  }

  /** While the total fits in a u32 nothing wraps: each handler gets the plain sum. */
  lemma ThreadingWithoutWrap(start: uint32, handlers: seq<Factory>, cmd: ContextualCommand, visits: seq<Visit>)
    requires Threaded(start, handlers, cmd, visits) && start + |Emissions(visits)| < U32_LIMIT
    ensures forall k :: 0 <= k < |visits| ==> visits[k].received == start + |Emissions(visits[..k])|
    ensures Advance(start, Emissions(visits)) == start + |Emissions(visits)|
  {
    forall k | 0 <= k < |visits| ensures visits[k].received == start + |Emissions(visits[..k])| {
      assert visits == visits[..k] + visits[k..];
      FlatMapAppend(Emitted(), visits[..k], visits[k..]);
    }
  }

  /** The same fan-out, started later with pages already merged and a command already re-stamped. */
  lemma {:induction false} RestartedRun(fs: seq<Factory>, cmd: ContextualCommand, n: uint32, key: (string, string),
                                        earlier: seq<EventPage>, run: RejectionRun)
    requires cmd.events.Some?
    ensures FoldM(RejectStep(cmd, key), run.(pages := earlier + run.pages), fs) ==
            match FoldM(RejectStep(Scoped(cmd, n), key), run, fs)
            case Ok(out) => Ok(out.(pages := earlier + out.pages))
            case Err(e) => Err(e)
  {
    if |fs| == 0 {
    } else {
      assert Scoped(Scoped(cmd, n), run.runningSeq) == Scoped(cmd, run.runningSeq);
      var step := RejectStep(Scoped(cmd, n), key)(run, fs[0]);
      if step.Ok? {
        RestartedRun(fs[1..], cmd, n, key, earlier, step.value);
        if RejectsKey(fs[0], key) {
          var emitted := EmittedPages(AsCommandResponse(fs[0].Dispatch(
            CommandRequest(Scoped(cmd, run.runningSeq)))).value);
          assert step.value == RejectionRun(Advance(run.runningSeq, emitted), run.pages + emitted);
          assert (earlier + run.pages) + emitted == earlier + (run.pages + emitted);
        }
      }
    }
  }

  /** Running `fs + gs` is running `fs`, then `gs` on the command re-stamped with the result of `fs`. */
  lemma RejectionSplit(fs: seq<Factory>, gs: seq<Factory>, cmd: ContextualCommand, key: (string, string))
    requires cmd.events.Some?
    ensures MergeRejections(fs + gs, cmd, key) ==
            match MergeRejections(fs, cmd, key)
            case Err(e) => Err(e)
            case Ok(first) =>
              match MergeRejections(gs, Scoped(cmd, first.nextSequence), key)
              case Err(e) => Err(e)
              case Ok(second) => Ok(second.(pages := first.pages + second.pages))
  {
    var start := RejectionRun(InitialSequence(cmd), []);
    FoldMAppend(RejectStep(cmd, key), start, fs, gs);
    if FoldM(RejectStep(cmd, key), start, fs).Ok? {
      var mid := FoldM(RejectStep(cmd, key), start, fs).value;
      assert mid.pages + [] == mid.pages;
      RestartedRun(gs, cmd, mid.runningSeq, key, mid.pages, RejectionRun(mid.runningSeq, []));
    }
  }

  /** The run reached by emitting more pages. */
  function MovedOn(run: RejectionRun, pages: seq<EventPage>): RejectionRun {
    RejectionRun(Advance(run.runningSeq, pages), run.pages + pages)
  }

  lemma UnstampedStep(f: Factory, cmd: ContextualCommand, key: (string, string), run: RejectionRun)
    requires cmd.events.None?
    ensures RejectOnce(cmd, key, run, f) ==
            match RejectOnce(cmd, key, RejectionRun(0, []), f)
            case Ok(out) => Ok(MovedOn(run, out.pages))
            case Err(e) => Err(e)
  {
    assert run.pages + [] == run.pages;
    assert forall pages: seq<EventPage> :: [] + pages == pages;
  }

  lemma MovedTwice(run: RejectionRun, p: seq<EventPage>, q: seq<EventPage>)
    ensures MovedOn(MovedOn(run, p), q) == MovedOn(run, p + q)
  {
    assert (run.pages + p) + q == run.pages + (p + q);
  }

  /** Without prior events nothing is stamped: a run is the run from scratch, moved along. */
  lemma {:induction false} UnstampedRun(fs: seq<Factory>, cmd: ContextualCommand, key: (string, string),
                                        run: RejectionRun)
    requires cmd.events.None?
    ensures FoldM(RejectStep(cmd, key), run, fs) ==
            match FoldM(RejectStep(cmd, key), RejectionRun(0, []), fs)
            case Ok(out) => Ok(MovedOn(run, out.pages))
            case Err(e) => Err(e)
    decreases |fs|
  {
    if |fs| == 0 {
      assert run.pages + [] == run.pages;
    } else {
      UnstampedStep(fs[0], cmd, key, run);
      var scratch := RejectOnce(cmd, key, RejectionRun(0, []), fs[0]);
      if scratch.Ok? {
        var emitted := scratch.value.pages;
        UnstampedRun(fs[1..], cmd, key, MovedOn(run, emitted));
        UnstampedRun(fs[1..], cmd, key, scratch.value);
        var later := FoldM(RejectStep(cmd, key), RejectionRun(0, []), fs[1..]);
        if later.Ok? {
          MovedTwice(run, emitted, later.value.pages);
        }
      }
    }
  }

  /** The same split when no prior events came along: the handlers get the command as it is. */
  lemma RejectionSplitWithoutEvents(fs: seq<Factory>, gs: seq<Factory>, cmd: ContextualCommand, key: (string, string))
    requires cmd.events.None?
    ensures MergeRejections(fs + gs, cmd, key) ==
            match MergeRejections(fs, cmd, key)
            case Err(e) => Err(e)
            case Ok(first) =>
              match MergeRejections(gs, cmd, key)
              case Err(e) => Err(e)
              case Ok(second) => Ok(second.(pages := first.pages + second.pages,
                                            nextSequence := Advance(first.nextSequence, second.pages)))
  {
    var start := RejectionRun(0, []);
    FoldMAppend(RejectStep(cmd, key), start, fs, gs);
    if FoldM(RejectStep(cmd, key), start, fs).Ok? {
      UnstampedRun(gs, cmd, key, FoldM(RejectStep(cmd, key), start, fs).value);
    }
  }

  // -------------------------------------------------- Router/handler agreement

  /** The router and the generated handler read the same rejection key off a command. */
  lemma SameRejectionKey(w: Wire, cmd: ContextualCommand)
    requires CommandAny(cmd).Ok?
    ensures ExtractRejectionKey(w, cmd) ==
            match HandlerRejectionKey(w, CommandAny(cmd).value)
            case Ok((notification, key)) => Ok(key)
            case Err(e) => Err(e)
  {
  }

  /** The state a generated handler reaches before it looks at its arms. */
  function PriorState<S, M>(a: Aggregate<S, M>, cmd: ContextualCommand): Result<S, ClientError> {
    Rebuild(a.applies, a.initial, cmd.events.UnwrapOr(EMPTY_EVENT_BOOK).pages)
  }

  lemma {:induction false} FirstMatchSkips(fs: seq<Factory>, k: nat, domain: string, url: string,
                                           cmd: ContextualCommand)
    requires k < |fs| && HandlesKey(fs[k], domain, url)
    requires forall j :: 0 <= j < k ==> !HandlesKey(fs[j], domain, url)
    ensures FirstMatch(fs, domain, url, cmd) == AsCommandResponse(fs[k].Dispatch(CommandRequest(cmd)))
  {
    if k > 0 {
      assert forall j :: 0 <= j < k - 1 ==> fs[1..][j] == fs[j + 1];
      FirstMatchSkips(fs[1..], k - 1, domain, url, cmd);
    }
  }

  lemma {:induction false} FirstMatchMisses(fs: seq<Factory>, domain: string, url: string, cmd: ContextualCommand)
    requires forall i :: 0 <= i < |fs| ==> !HandlesKey(fs[i], domain, url)
    ensures FirstMatch(fs, domain, url, cmd) == Err(NoHandlerRegistered(Some(ReportedDomain(cmd)), url))
  {
    if |fs| > 0 {
      FirstMatchMisses(fs[1..], domain, url, cmd);
    }
  }

  /**
   * A generated handler the router selects for a command runs the first arm it declares for the
   * type URL: past rebuild, the no-handler fallback of its body is out of reach.
   */
  lemma SelectedHandlerRunsItsArm<S, M>(w: Wire, fs: seq<Factory>, k: nat, a: Aggregate<S, M>, cmd: ContextualCommand)
    requires CommandAny(cmd).Ok? && CommandAny(cmd).value.typeUrl != NOTIFICATION_URL
    requires k < |fs| && fs[k] == AggregateFactory(w, a)
    requires HandlesKey(fs[k], CommandDomain(cmd), CommandAny(cmd).value.typeUrl)
    requires forall j :: 0 <= j < k ==> !HandlesKey(fs[j], CommandDomain(cmd), CommandAny(cmd).value.typeUrl)
    ensures CommandAny(cmd).value.typeUrl in Keys(a.handles)
    ensures RouteCommand(w, fs, cmd) ==
            match PriorState(a, cmd)
            case Err(e) => Err(e)
            case Ok(state) =>
              var any := CommandAny(cmd).value;
              var body := a.handles[FirstIndex(Keys(a.handles), any.typeUrl)].body;
              match body.decode(any.value)
              case Err(cause) => Err(AnyDecodeFailed(any.typeUrl, cause))
              case Ok(message) =>
                match body.handle(message, state, InitialSequence(cmd))
                case Ok(book) => Ok(BusinessResponse(Some(Events(book))))
                case Err(e) => Err(Rejected(e))
  {
    var url := CommandAny(cmd).value.typeUrl;
    FirstMatchSkips(fs, k, CommandDomain(cmd), url, cmd);
    LookupFirst(a.handles, url);
    assert fs[k].Dispatch(CommandRequest(cmd)) == AggregateAnswer(w, a, CommandRequest(cmd));
  }

  /**
   * A generated handler the router selects for a rejection runs the first `#[rejected]` arm it
   * declares for the key: past rebuild, the empty-compensation fallback is out of reach.
   */
  lemma SelectedRejectionRunsItsArm<S, M>(w: Wire, a: Aggregate<S, M>, cmd: ContextualCommand, sequence: uint32)
    requires CommandAny(cmd).Ok? && CommandAny(cmd).value.typeUrl == NOTIFICATION_URL
    requires ExtractRejectionKey(w, cmd).Ok?
    requires RejectsKey(AggregateFactory(w, a), ExtractRejectionKey(w, cmd).value)
    ensures ExtractRejectionKey(w, cmd).value in Keys(a.rejected)
    ensures w.decodeNotification(CommandAny(cmd).value.value).Ok?
    ensures AsCommandResponse(AggregateFactory(w, a).Dispatch(CommandRequest(Scoped(cmd, sequence)))) ==
            match PriorState(a, cmd)
            case Err(e) => Err(e)
            case Ok(state) =>
              var body := a.rejected[FirstIndex(Keys(a.rejected), ExtractRejectionKey(w, cmd).value)].body;
              match body.compensate(w.decodeNotification(CommandAny(cmd).value.value).value, state)
              case Ok(response) => Ok(response)
              case Err(e) => Err(Rejected(e))
  {
    SameRejectionKey(w, cmd);
    var key := ExtractRejectionKey(w, cmd).value;
    LookupFirst(a.rejected, key);
    var scoped := Scoped(cmd, sequence);
    assert CommandAny(scoped) == CommandAny(cmd);
    assert PriorState(a, scoped) == PriorState(a, cmd);
    assert AggregateFactory(w, a).Dispatch(CommandRequest(scoped)) == AggregateAnswer(w, a, CommandRequest(scoped));
  }

  // ------------------------------------------------ Rejections in any order

  /** The handler answers this command alike whatever sequence it is stamped with. */
  ghost predicate IgnoresSequence(f: Factory, cmd: ContextualCommand) {
    forall n: uint32 :: f.Dispatch(CommandRequest(Scoped(cmd, n))) == f.Dispatch(CommandRequest(cmd))
  }

  /** The rejection path of a generated handler never reads the sequence. */
  lemma GeneratedIgnoresSequence<S, M>(w: Wire, a: Aggregate<S, M>, cmd: ContextualCommand)
    requires CommandAny(cmd).Ok? ==> CommandAny(cmd).value.typeUrl == NOTIFICATION_URL
    ensures IgnoresSequence(AggregateFactory(w, a), cmd)
  {
    var f := AggregateFactory(w, a);
    forall n: uint32 ensures f.Dispatch(CommandRequest(Scoped(cmd, n))) == f.Dispatch(CommandRequest(cmd)) {
      var scoped := Scoped(cmd, n);
      assert CommandAny(scoped) == CommandAny(cmd) && PriorState(a, scoped) == PriorState(a, cmd);
      assert f.Dispatch(CommandRequest(scoped)) == AggregateAnswer(w, a, CommandRequest(scoped));
      assert f.Dispatch(CommandRequest(cmd)) == AggregateAnswer(w, a, CommandRequest(cmd));
    }
  }

  function Rejector(cmd: ContextualCommand): Factory -> Result<BusinessResponse, ClientError> {
    (f: Factory) => AsCommandResponse(f.Dispatch(CommandRequest(cmd)))
  }

  function Emitter(): BusinessResponse -> seq<EventPage> {
    (response: BusinessResponse) => EmittedPages(response)
  }

  /** The answers of the matched handlers to one and the same command. */
  function Rejections(fs: seq<Factory>, cmd: ContextualCommand, key: (string, string))
    : Result<seq<BusinessResponse>, ClientError>
  {
    Traverse(Rejector(cmd), Filter(RejectionSelector(key), fs))
  }

  lemma {:induction false} UnreadSequenceRun(fs: seq<Factory>, cmd: ContextualCommand, key: (string, string),
                                             run: RejectionRun)
    requires forall i :: 0 <= i < |fs| ==> IgnoresSequence(fs[i], cmd)
    ensures FoldM(RejectStep(cmd, key), run, fs) ==
            match Rejections(fs, cmd, key)
            case Ok(rs) => Ok(MovedOn(run, FlatMap(Emitter(), rs)))
            case Err(e) => Err(e)
    decreases |fs|
  {
    if |fs| == 0 {
      assert run.pages + [] == run.pages;
    } else {
      var rest := Rejections(fs[1..], cmd, key);
      if RejectsKey(fs[0], key) {
        assert Filter(RejectionSelector(key), fs)[1..] == Filter(RejectionSelector(key), fs[1..]);
        var answer := Rejector(cmd)(fs[0]);
        assert AsCommandResponse(fs[0].Dispatch(CommandRequest(Scoped(cmd, run.runningSeq)))) == answer;
        if answer.Ok? {
          UnreadSequenceRun(fs[1..], cmd, key, MovedOn(run, EmittedPages(answer.value)));
          if rest.Ok? {
            assert ([answer.value] + rest.value)[1..] == rest.value;
            MovedTwice(run, EmittedPages(answer.value), FlatMap(Emitter(), rest.value));
          }
        }
      } else {
        assert Filter(RejectionSelector(key), fs) == Filter(RejectionSelector(key), fs[1..]);
        UnreadSequenceRun(fs[1..], cmd, key, run);
      }
    }
  }

  /**
   * With handlers that do not read the sequence, as generated ones do not, the threaded fan-out is a
   * plain merge: every matched handler answers the incoming command itself.
   */
  lemma RejectionIsPlainMerge(fs: seq<Factory>, cmd: ContextualCommand, key: (string, string))
    requires forall i :: 0 <= i < |fs| ==> IgnoresSequence(fs[i], cmd)
    ensures MergeRejections(fs, cmd, key) ==
            match Rejections(fs, cmd, key)
            case Err(e) => Err(e)
            case Ok(rs) => Ok(EMPTY_EVENT_BOOK.(pages := FlatMap(Emitter(), rs),
                                                nextSequence := Advance(InitialSequence(cmd), FlatMap(Emitter(), rs))))
  {
    UnreadSequenceRun(fs, cmd, key, RejectionRun(InitialSequence(cmd), []));
    if Rejections(fs, cmd, key).Ok? {
      var pages := FlatMap(Emitter(), Rejections(fs, cmd, key).value);
      assert [] + pages == pages;
    }
  }

  /** The fan-outs over two orders of the same handlers. */
  lemma MergeRejectionsAnyOrder(fs: seq<Factory>, gs: seq<Factory>, cmd: ContextualCommand, key: (string, string))
    requires multiset(fs) == multiset(gs) && MergeRejections(fs, cmd, key).Ok?
    requires forall i :: 0 <= i < |fs| ==> IgnoresSequence(fs[i], cmd)
    ensures MergeRejections(gs, cmd, key).Ok?
    ensures var p, q := MergeRejections(fs, cmd, key).value, MergeRejections(gs, cmd, key).value;
            multiset(p.pages) == multiset(q.pages) && p.(pages := []) == q.(pages := [])
  {
    PermutationMembers(fs, gs);
    forall i | 0 <= i < |gs| ensures IgnoresSequence(gs[i], cmd) {
      assert gs[i] in fs;
    }
    RejectionIsPlainMerge(fs, cmd, key);
    RejectionIsPlainMerge(gs, cmd, key);
    MergeAnyOrder(RejectionSelector(key), Rejector(cmd), Emitter(), fs, gs);
    PermutationMembers(FlatMap(Emitter(), Rejections(fs, cmd, key).value),
                       FlatMap(Emitter(), Rejections(gs, cmd, key).value));
  }

  /**
   * Notifications in any order: when no matched handler fails, a permutation of the factories fails
   * nowhere either, merges the same multiset of pages and ends at exactly the same sequence.
   */
  lemma RejectionAnyOrder(w: Wire, fs: seq<Factory>, gs: seq<Factory>, cmd: ContextualCommand)
    requires multiset(fs) == multiset(gs) && ExtractCommandTypeUrl(cmd) == Ok(NOTIFICATION_URL)
    requires forall i :: 0 <= i < |fs| ==> IgnoresSequence(fs[i], cmd)
    requires RouteCommand(w, fs, cmd).Ok?
    ensures exists p, q: EventBook ::
              && RouteCommand(w, fs, cmd) == Ok(Respond(p)) && RouteCommand(w, gs, cmd) == Ok(Respond(q))
              && multiset(p.pages) == multiset(q.pages) && p.(pages := []) == q.(pages := [])
  {
    var key := ExtractRejectionKey(w, cmd).value;
    MergeRejectionsAnyOrder(fs, gs, cmd, key);
    var p, q := MergeRejections(fs, cmd, key).value, MergeRejections(gs, cmd, key).value;
    assert RouteCommand(w, fs, cmd) == Ok(Respond(p)) && RouteCommand(w, gs, cmd) == Ok(Respond(q));
  }

  // ------------------------------------------------ Which entries fire

  lemma {:induction false} AfterLastOf(front: string, c: char, back: string)
    requires c !in back
    ensures AfterLast(front + [c] + back, c) == back
  {
    var s := front + [c] + back;
    if |back| == 0 {
      assert s[|s| - 1] == c;
    } else {
      var init := back[..|back| - 1];
      assert s[..|s| - 1] == front + [c] + init;
      AfterLastOf(front, c, init);
      assert back == init + [back[|back| - 1]];
    }
  }

  /** A bare command name in a package, behind the type URL prefix, is its own suffix. */
  lemma SuffixOfQualified(name: string)
    requires '.' !in name && '/' !in name
    ensures CommandSuffix(TYPE_URL_PREFIX + ("examples" + ['.'] + name)) == name
  {
    var tail := "examples" + ['.'] + name;
    var host := "type.googleapis.com";
    assert TYPE_URL_PREFIX + tail == host + ['/'] + tail;
    AfterLastOf(host, '/', tail);
    AfterLastOf("examples", '.', name);
  }

  /** A notification about a rejected command of the given domain and type. */
  function RejectionOf(domain: string, url: string): RejectionNotification {
    RejectionNotification(
      Some(CommandBook(Some(Cover(domain, "", None, None)),
                       [CommandPage(None, 0, Some(Command(Any(url, []))))])),
      "")
  }

  /** Decoders that read every payload as that notification. */
  function WireOf(domain: string, url: string): Wire {
    Wire((value: Bytes) => Ok(Notification(None, Some(Any("", [])))),
         (value: Bytes) => Ok(RejectionOf(domain, url)))
  }

  const NOTIFYING := ContextualCommand(
    Some(CommandBook(None, [CommandPage(None, 0, Some(Command(Any(NOTIFICATION_URL, []))))])), None)

  /**
   * Which `#[rejected(domain, command)]` entries can fire: command names are compared after the last
   * '/' and '.', so an entry is the key of some notification exactly when its command holds neither.
   */
  lemma EntryFiresExactlyUnqualified(domain: string, command: string)
    ensures (exists w, cmd :: CommandAny(cmd).Ok? && CommandAny(cmd).value.typeUrl == NOTIFICATION_URL &&
                              ExtractRejectionKey(w, cmd) == Ok((domain, command))) <==>
            '.' !in command && '/' !in command
    ensures '.' in command || '/' in command ==>
              forall w, cmd :: ExtractRejectionKey(w, cmd) != Ok((domain, command))
  {
    if '.' !in command && '/' !in command {
      var url := TYPE_URL_PREFIX + ("examples" + ['.'] + command);
      SuffixOfQualified(command);
      assert RejectedCommandKey(RejectionOf(domain, url).rejectedCommand) == (domain, command);
      assert CommandAny(NOTIFYING).Ok? && CommandAny(NOTIFYING).value.typeUrl == NOTIFICATION_URL;
      assert ExtractRejectionKey(WireOf(domain, url), NOTIFYING) == Ok((domain, command));
    }
  }
}
