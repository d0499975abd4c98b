/** Which handlers a command and a rejection reach, read off the fields of the message and the configs. */
module CommandSelection {
  import opened Foundations
  import opened Proto
  import opened Handlers
  import opened Rebuilding
  import opened CommandHandlers
  import opened CommandRouting

  // ---------------------------------------------- Selection from the fields

  /** The handlers whose `#[rejected]` list has the key at some place. */
  ghost predicate DeclaringHandlers(fs: seq<Factory>, key: (string, string), picks: seq<nat>) {
    && Increasing(picks, |fs|)
    && forall k: nat :: k < |fs| ==>
         (k in picks <==> fs[k].config.CommandHandlerConfig? &&
                          exists i :: 0 <= i < |fs[k].config.rejected| && fs[k].config.rejected[i] == key)
  }

  /** The turns of those handlers, from the prior events' next sequence. */
  ghost predicate FanOut(fs: seq<Factory>, cmd: ContextualCommand, key: (string, string), picks: seq<nat>,
                         visits: seq<Visit>)
  {
    && DeclaringHandlers(fs, key, picks)
    && |visits| == |picks|
    && forall n :: 0 <= n < |picks| ==>
         Turn(if cmd.events.Some? then cmd.events.value.nextSequence else 0, fs[picks[n]], cmd, visits[..n], visits[n])
  }

  lemma DeclaringIsSelected(fs: seq<Factory>, key: (string, string), picks: seq<nat>)
    ensures DeclaringHandlers(fs, key, picks) <==> Selects(RejectionSelector(key), fs, picks)
  {
    forall k: nat | k < |fs|
      ensures RejectionSelector(key)(fs[k]) <==>
              fs[k].config.CommandHandlerConfig? &&
              exists i :: 0 <= i < |fs[k].config.rejected| && fs[k].config.rejected[i] == key
    {
    }
  }

  lemma FanOutIsThreaded(fs: seq<Factory>, cmd: ContextualCommand, key: (string, string), picks: seq<nat>,
                         visits: seq<Visit>)
    requires DeclaringHandlers(fs, key, picks)
    ensures FanOut(fs, cmd, key, picks, visits) <==> ThreadedTurns(fs, cmd, key, visits)
  {
    DeclaringIsSelected(fs, key, picks);
    SelectsIsFilter(RejectionSelector(key), fs, picks);
    if ThreadedTurns(fs, cmd, key, visits) {
      forall n | 0 <= n < |picks|
        ensures Turn(InitialSequence(cmd), fs[picks[n]], cmd, visits[..n], visits[n])
      {
        assert Filter(RejectionSelector(key), fs)[n] == fs[picks[n]];
      }
    }
  }

  /** The merged book of given turns. */
  lemma FanOutMerges(fs: seq<Factory>, cmd: ContextualCommand, key: (string, string), picks: seq<nat>,
                     visits: seq<Visit>)
    requires FanOut(fs, cmd, key, picks, visits)
    ensures MergeRejections(fs, cmd, key) ==
            Ok(EventBook(None, Emissions(visits), None,
                         ((if cmd.events.Some? then cmd.events.value.nextSequence else 0) + |Emissions(visits)|)
                         % 0x1_0000_0000))
  {
    FanOutIsThreaded(fs, cmd, key, picks, visits);
    RejectionThreading(fs, cmd, key);
  }

  lemma FanOutExists(fs: seq<Factory>, cmd: ContextualCommand, key: (string, string))
    returns (picks: seq<nat>, visits: seq<Visit>)
    requires MergeRejections(fs, cmd, key).Ok?
    ensures FanOut(fs, cmd, key, picks, visits)
  {
    RejectionThreading(fs, cmd, key);
    visits :| ThreadedTurns(fs, cmd, key, visits);
    picks := PicksExist(RejectionSelector(key), fs);
    DeclaringIsSelected(fs, key, picks);
    FanOutIsThreaded(fs, cmd, key, picks, visits);
  }

  /**
   * Which handlers answer a rejection: the fan-out succeeds exactly when those that declare the key at
   * any place of their list, in registration order, have a threaded list of turns; the merged book
   * holds their pages, and its next sequence is advanced by as many, modulo 2^32.
   */
  lemma RejectionTurnsByIndex(fs: seq<Factory>, cmd: ContextualCommand, key: (string, string))
    ensures MergeRejections(fs, cmd, key).Ok? <==> exists picks, visits :: FanOut(fs, cmd, key, picks, visits)
    ensures forall picks, visits :: FanOut(fs, cmd, key, picks, visits) ==>
              MergeRejections(fs, cmd, key) ==
              Ok(EventBook(None, Emissions(visits), None,
                           ((if cmd.events.Some? then cmd.events.value.nextSequence else 0) + |Emissions(visits)|)
                           % 0x1_0000_0000))
  {
    if MergeRejections(fs, cmd, key).Ok? {
      var picks, visits := FanOutExists(fs, cmd, key);
    }
    forall picks, visits | FanOut(fs, cmd, key, picks, visits)
      ensures MergeRejections(fs, cmd, key) ==
              Ok(EventBook(None, Emissions(visits), None,
                           ((if cmd.events.Some? then cmd.events.value.nextSequence else 0) + |Emissions(visits)|)
                           % 0x1_0000_0000))
    {
      FanOutMerges(fs, cmd, key, picks, visits);
    }
  }

  /** A handler that declares the key at some place has a turn in every fan-out that succeeds. */
  lemma DeclaringHandlerTurn(fs: seq<Factory>, k: nat, i: nat, cmd: ContextualCommand)
    returns (visits: seq<Visit>, n: nat)
    requires k < |fs| && fs[k].config.CommandHandlerConfig? && i < |fs[k].config.rejected|
    requires MergeRejections(fs, cmd, fs[k].config.rejected[i]).Ok?
    ensures n < |visits| && Turn(InitialSequence(cmd), fs[k], cmd, visits[..n], visits[n])
    ensures MergeRejections(fs, cmd, fs[k].config.rejected[i]).value.pages == Emissions(visits)
  {
    var key := fs[k].config.rejected[i];
    var picks;
    picks, visits := FanOutExists(fs, cmd, key);
    FanOutMerges(fs, cmd, key, picks, visits);
    assert k in picks;
    n :| 0 <= n < |picks| && picks[n] == k;
  }

  /** What one of the turns emitted is in the merged pages. */
  lemma EmissionsHold(visits: seq<Visit>, n: nat) returns (front: seq<EventPage>, back: seq<EventPage>)
    requires n < |visits|
    ensures Emissions(visits) == front + visits[n].emitted + back
  {
    front, back := Emissions(visits[..n]), Emissions(visits[n + 1..]);
    assert visits == visits[..n] + visits[n..] && visits[n..] == [visits[n]] + visits[n + 1..];
    FlatMapAppend(Emitted(), visits[..n], visits[n..]);
    EmissionsCons(visits[n], visits[n + 1..]);
  }

  /** The pages of a response, read off its result. */
  ghost predicate HasPages(response: BusinessResponse, pages: seq<EventPage>) {
    if response.result.Some? && response.result.value.Events? then pages == response.result.value.book.pages
    else pages == []
  }

  /**
   * A key at any place of a generated handler's `#[rejected]` arms: whenever the router answers, the
   * first arm for the key ran on the notification and its pages are in the merged book.
   */
  lemma DeclaredRejectionIsMerged<S, M>(w: Wire, fs: seq<Factory>, k: nat, a: Aggregate<S, M>, i: nat,
                                        cmd: ContextualCommand)
    returns (state: S, response: BusinessResponse, front: seq<EventPage>, pages: seq<EventPage>, back: seq<EventPage>,
             next: uint32)
    requires k < |fs| && fs[k] == AggregateFactory(w, a) && i < |a.rejected|
    requires CommandAny(cmd).Ok? && CommandAny(cmd).value.typeUrl == NOTIFICATION_URL
    requires ExtractRejectionKey(w, cmd) == Ok(a.rejected[i].key)
    requires RouteCommand(w, fs, cmd).Ok?
    ensures w.decodeNotification(CommandAny(cmd).value.value).Ok? && PriorState(a, cmd) == Ok(state)
    ensures a.rejected[FirstIndex(Keys(a.rejected), a.rejected[i].key)].body.compensate(
              w.decodeNotification(CommandAny(cmd).value.value).value, state) == Ok(response)
    ensures HasPages(response, pages)
    ensures RouteCommand(w, fs, cmd) ==
            Ok(BusinessResponse(Some(Events(EventBook(None, front + pages + back, None, next)))))
  {
    var key := a.rejected[i].key;
    assert Keys(a.rejected)[i] == key;
    assert fs[k].config.rejected[i] == key;
    var visits, n := DeclaringHandlerTurn(fs, k, i, cmd);
    SelectedRejectionRunsItsArm(w, a, cmd, visits[n].received);
    state := PriorState(a, cmd).value;
    response := AsCommandResponse(fs[k].Dispatch(CommandRequest(Scoped(cmd, visits[n].received)))).value;
    pages := visits[n].emitted;
    front, back := EmissionsHold(visits, n);
    next := MergeRejections(fs, cmd, key).value.nextSequence;
  }

  /** The key of a rejection, from the fields of the notification. */
  lemma RejectionKeyByFields(w: Wire, cmd: ContextualCommand, book: CommandBook, any: Any)
    requires cmd.command == Some(book) && |book.pages| > 0 && book.pages[0].payload == Some(Command(any))
    ensures match w.decodeNotification(any.value)
            case Err(cause) => ExtractRejectionKey(w, cmd) == Err(NotificationDecodeFailed(cause))
            case Ok(Notification(_, None)) => ExtractRejectionKey(w, cmd) == Ok(("", ""))
            case Ok(Notification(_, Some(payload))) =>
              match w.decodeRejection(payload.value)
              case Err(cause) => ExtractRejectionKey(w, cmd) == Err(RejectionNotificationDecodeFailed(cause))
              case Ok(RejectionNotification(None, _)) => ExtractRejectionKey(w, cmd) == Ok(("", ""))
              case Ok(RejectionNotification(Some(rejected), _)) =>
                && ExtractRejectionKey(w, cmd).Ok?
                && ExtractRejectionKey(w, cmd).value.0 ==
                   (if rejected.cover.Some? then rejected.cover.value.domain else "")
                && ExtractRejectionKey(w, cmd).value.1 ==
                   (if |rejected.pages| > 0 && rejected.pages[0].payload.Some? &&
                       rejected.pages[0].payload.value.Command?
                    then AfterLast(AfterLast(rejected.pages[0].payload.value.command.typeUrl, '/'), '.')
                    else "")
  {
  }

  /** The factory's config declares the type URL, at some place, for the domain. */
  ghost predicate DeclaresUrl(f: Factory, domain: string, url: string) {
    f.config.CommandHandlerConfig? && f.config.domain == domain &&
    exists i :: 0 <= i < |f.config.handled| && f.config.handled[i] == url
  }

  lemma DeclaresUrlIsKey(f: Factory, domain: string, url: string)
    ensures DeclaresUrl(f, domain, url) <==> HandlesKey(f, domain, url)
  {
  }

  /** A command is answered by the first factory that declares its first page's type for its domain. */
  lemma FirstDeclaringAnswers(w: Wire, fs: seq<Factory>, cmd: ContextualCommand, book: CommandBook, any: Any, k: nat)
    requires cmd.command == Some(book) && |book.pages| > 0 && book.pages[0].payload == Some(Command(any))
    requires any.typeUrl != NOTIFICATION_URL && k < |fs|
    requires DeclaresUrl(fs[k], if book.cover.Some? then book.cover.value.domain else "", any.typeUrl)
    requires forall j :: 0 <= j < k ==>
               !DeclaresUrl(fs[j], if book.cover.Some? then book.cover.value.domain else "", any.typeUrl)
    ensures RouteCommand(w, fs, cmd) ==
            match fs[k].Dispatch(CommandRequest(cmd))
            case Err(e) => Err(e)
            case Ok(CommandResponse(response)) => Ok(response)
            case Ok(_) => Err(HandlerWrongResponseKind("CommandHandler"))
  {
    var domain := if book.cover.Some? then book.cover.value.domain else "";
    forall j | 0 <= j <= k ensures DeclaresUrl(fs[j], domain, any.typeUrl) <==> HandlesKey(fs[j], domain, any.typeUrl) {
      DeclaresUrlIsKey(fs[j], domain, any.typeUrl);
    }
    FirstMatchSkips(fs, k, domain, any.typeUrl, cmd);
  }

  /** Without such a factory the error names the cover's domain, or "<missing>". */
  lemma UndeclaredCommand(w: Wire, fs: seq<Factory>, cmd: ContextualCommand, book: CommandBook, any: Any)
    requires cmd.command == Some(book) && |book.pages| > 0 && book.pages[0].payload == Some(Command(any))
    requires any.typeUrl != NOTIFICATION_URL
    requires forall k :: 0 <= k < |fs| ==>
               !DeclaresUrl(fs[k], if book.cover.Some? then book.cover.value.domain else "", any.typeUrl)
    ensures RouteCommand(w, fs, cmd) ==
            Err(NoHandlerRegistered(Some(if book.cover.Some? then book.cover.value.domain else "<missing>"),
                                    any.typeUrl))
  {
    var domain := if book.cover.Some? then book.cover.value.domain else "";
    forall k | 0 <= k < |fs| ensures !HandlesKey(fs[k], domain, any.typeUrl) {
      DeclaresUrlIsKey(fs[k], domain, any.typeUrl);
    }
    FirstMatchMisses(fs, domain, any.typeUrl, cmd);
  }

  /** A command without a book, a page or a command payload is refused, in that order. */
  lemma IncompleteCommand(w: Wire, fs: seq<Factory>, cmd: ContextualCommand)
    ensures cmd.command.None? ==> RouteCommand(w, fs, cmd) == Err(MissingCommandBook)
    ensures cmd.command.Some? && cmd.command.value.pages == [] ==> RouteCommand(w, fs, cmd) == Err(MissingCommandPage)
    ensures cmd.command.Some? && |cmd.command.value.pages| > 0 &&
            (cmd.command.value.pages[0].payload.None? || cmd.command.value.pages[0].payload.value.ExternalCommand?) ==>
              RouteCommand(w, fs, cmd) == Err(MissingCommandPayload)
  {
  }
}
