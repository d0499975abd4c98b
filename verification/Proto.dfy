/** The wire messages the routers read and build. A missing message field is an Option. */
module Proto {
  import opened Foundations

  const U32_LIMIT := 0x1_0000_0000

  type byte = b: int | 0 <= b < 256
  type Bytes = seq<byte>
  type uint32 = n: int | 0 <= n < U32_LIMIT

  datatype Any = Any(typeUrl: string, value: Bytes)

  datatype Edition = Edition(name: string, divergences: seq<(string, uint32)>)

  datatype Cover = Cover(domain: string, correlationId: string, root: Option<Bytes>, edition: Option<Edition>)

  datatype DeferredSequence = DeferredSequence(source: Option<Cover>, sourceSeq: uint32)

  datatype SequenceType =
    | Sequence(number: uint32)
    | ExternalDeferred(externalId: string)
    | AngzarrDeferred(deferred: DeferredSequence)

  datatype PageHeader = PageHeader(sequenceType: Option<SequenceType>, syncMode: Option<int>)

  datatype EventPayload = Event(event: Any) | ExternalEvent(reference: string)

  datatype EventPage = EventPage(
    header: Option<PageHeader>,
    createdAt: Option<int>,
    payload: Option<EventPayload>,
    noCommit: bool,
    cascadeId: Option<string>)

  datatype Snapshot = Snapshot(sequence: uint32, state: Option<Any>)

  datatype EventBook = EventBook(
    cover: Option<Cover>,
    pages: seq<EventPage>,
    snapshot: Option<Snapshot>,
    nextSequence: uint32)

  const EMPTY_EVENT_BOOK := EventBook(None, [], None, 0)

  datatype CommandPayload = Command(command: Any) | ExternalCommand(reference: string)

  datatype CommandPage = CommandPage(header: Option<PageHeader>, mergeStrategy: int, payload: Option<CommandPayload>)

  datatype CommandBook = CommandBook(cover: Option<Cover>, pages: seq<CommandPage>)

  datatype ContextualCommand = ContextualCommand(command: Option<CommandBook>, events: Option<EventBook>)

  datatype Notification = Notification(cover: Option<Cover>, payload: Option<Any>)

  datatype RejectionNotification = RejectionNotification(rejectedCommand: Option<CommandBook>, reason: string)

  datatype BusinessResult = Events(book: EventBook) | Revocation(reason: string)

  datatype BusinessResponse = BusinessResponse(result: Option<BusinessResult>)

  datatype FactRequest = FactRequest(facts: Option<EventBook>, priorEvents: Option<EventBook>)

  datatype ReplayRequest = ReplayRequest(baseSnapshot: Option<Snapshot>, events: seq<EventPage>)

  datatype ReplayResponse = ReplayResponse(state: Option<Any>)

  datatype SagaHandleRequest = SagaHandleRequest(source: Option<EventBook>)

  datatype SagaResponse = SagaResponse(commands: seq<CommandBook>, events: seq<EventBook>)

  datatype ProcessManagerHandleRequest =
    ProcessManagerHandleRequest(trigger: Option<EventBook>, processState: Option<EventBook>)

  datatype ProcessManagerHandleResponse =
    ProcessManagerHandleResponse(commands: seq<CommandBook>, facts: seq<EventBook>, processEvents: seq<EventBook>)

  datatype Projection = Projection(cover: Option<Cover>, projector: string, sequence: uint32)

  datatype UpcastRequest = UpcastRequest(domain: string, events: seq<EventPage>)

  datatype UpcastResponse = UpcastResponse(events: seq<EventPage>)

  const TYPE_URL_PREFIX := "type.googleapis.com/"

  const NOTIFICATION_URL := TYPE_URL_PREFIX + "angzarr_client.proto.angzarr.Notification"

  /** The domain a book's cover names, or "" without a cover. */
  function CoverDomain(cover: Option<Cover>): string {
    match cover
    case Some(c) => c.domain
    case None => ""
  }

  /** The two message decoders the framework itself calls. */
  datatype Wire = Wire(
    decodeNotification: Bytes -> Result<Notification, string>,
    decodeRejection: Bytes -> Result<RejectionNotification, string>)
}
