/** What a router knows about a handler: its kind, its config and how it answers requests. */
module Handlers {
  import opened Foundations
  import opened Proto

  datatype Kind = CommandHandlerKind | SagaKind | ProcessManagerKind | ProjectorKind | UpcasterKind

  datatype HandlerConfig =
    | CommandHandlerConfig(
        domain: string,
        handled: seq<string>,
        rejected: seq<(string, string)>,
        applies: seq<string>,
        handlesFact: seq<string>,
        supportsReplay: bool)
    | SagaConfig(
        name: string,
        source: string,
        target: string,
        sync: bool,
        handled: seq<string>,
        rejected: seq<(string, string)>)
    | ProcessManagerConfig(
        name: string,
        pmDomain: string,
        sources: seq<string>,
        targets: seq<string>,
        syncTargets: seq<string>,
        handled: seq<string>,
        rejected: seq<(string, string)>,
        applies: seq<string>)
    | ProjectorConfig(name: string, domains: seq<string>, handled: seq<string>)
    | UpcasterConfig(name: string, domain: string, upcasts: seq<(string, string)>)

  datatype HandlerRequest =
    | CommandRequest(command: ContextualCommand)
    | HandleFactRequest(fact: FactRequest)
    | HandlerReplayRequest(replay: ReplayRequest)
    | SagaRequest(saga: SagaHandleRequest)
    | ProcessManagerRequest(processManager: ProcessManagerHandleRequest)
    | ProjectorRequest(book: EventBook)
    | UpcasterRequest(upcast: UpcastRequest)

  datatype HandlerResponse =
    | CommandResponse(command: BusinessResponse)
    | HandleFactResponse(book: EventBook)
    | HandlerReplayResponse(replay: ReplayResponse)
    | SagaHandlerResponse(saga: SagaResponse)
    | ProcessManagerResponse(processManager: ProcessManagerHandleResponse)
    | ProjectorResponse(projection: Projection)
    | UpcasterResponse(upcast: UpcastResponse)

  datatype CommandRejectedError = CommandRejectedError(code: string, message: string)

  datatype ClientError =
    | MissingCommandBook
    | MissingCommandPage
    | MissingCommandPayload
    | NoHandlerRegistered(routedDomain: Option<string>, typeUrl: string)
    | AnyDecodeFailed(typeUrl: string, cause: string)
    | StateDecodeFailed(cause: string)
    | NotificationDecodeFailed(cause: string)
    | RejectionNotificationDecodeFailed(cause: string)
    | HandlerWrongRequestKind(expected: string)
    | HandlerWrongResponseKind(expected: string)
    | UpcasterWrongResponseKind
    | MissingSagaSource
    | EmptySagaSource
    | MissingSagaEventPayload
    | SagaInvalidTypeUrl(typeUrl: string)
    | MissingPmTrigger
    | EmptyPmTrigger
    | MissingPmEventPayload
    | PmInvalidTypeUrl(typeUrl: string)
    | MissingDestinationSequence(domain: string)
    | Rejected(rejection: CommandRejectedError)

  /**
   * A registered factory. Every call of `produce` gives an equal fresh instance, so a factory is
   * its kind, its config and what an instance answers after the requests it was given before
   * (`[]` for a fresh one).
   */
  datatype Factory = Factory(
    kind: Kind,
    config: HandlerConfig,
    answer: (seq<HandlerRequest>, HandlerRequest) -> Result<HandlerResponse, ClientError>)
  {
    /** `produce` followed by one `dispatch`. */
    function Dispatch(request: HandlerRequest): Result<HandlerResponse, ClientError> {
      answer([], request)
    }
  }

  /** `map_err(ClientError::Rejected)` on what a user method returned. */
  function UserResult<T>(r: Result<T, CommandRejectedError>): Result<T, ClientError> {
    match r
    case Ok(v) => Ok(v)
    case Err(e) => Err(Rejected(e))
  }

  /** The payload of the command a request carries, or the first missing layer. */
  function CommandAny(cmd: ContextualCommand): Result<Any, ClientError> {
    match cmd.command
    case None => Err(MissingCommandBook)
    case Some(book) =>
      if |book.pages| == 0 then Err(MissingCommandPage)
      else
        match book.pages[0].payload
        case Some(Command(any)) => Ok(any)
        case _ => Err(MissingCommandPayload)
  }

  /** What follows the last `c`: `rsplit(c).next()`. */
  function AfterLast(s: string, c: char): (r: string)
    ensures c !in r
    ensures forall x :: x in r ==> x in s
  {
    if |s| == 0 || s[|s| - 1] == c then ""
    else AfterLast(s[..|s| - 1], c) + [s[|s| - 1]]
  }

  /** `AfterLast` cuts right after an occurrence of `c`, or not at all. */
  lemma {:induction false} AfterLastSplits(s: string, c: char) returns (front: string)
    ensures s == front + AfterLast(s, c)
    ensures front == "" || front[|front| - 1] == c
  {
    if |s| == 0 || s[|s| - 1] == c {
      front := s;
    } else {
      front := AfterLastSplits(s[..|s| - 1], c);
      assert s == s[..|s| - 1] + [s[|s| - 1]];
    }
  }

  /** The short command name of a type URL: after the last '/', then after the last '.'. */
  function CommandSuffix(url: string): (r: string)
    ensures '/' !in r && '.' !in r
  {
    AfterLast(AfterLast(url, '/'), '.')
  }
}
