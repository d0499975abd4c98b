/** State rebuild through `#[applies]` arms: the loop every stateful handler body repeats. */
module Rebuilding {
  import opened Foundations
  import opened Proto
  import opened Handlers

  /** An `#[applies(E)]` method together with the decoder of `E`. */
  datatype ApplyBody<!S, !M> = ApplyBody(decode: Bytes -> Result<M, string>, apply: (S, M) -> S)

  type ApplyArms<!S, !M> = seq<Arm<string, ApplyBody<S, M>>>

  /** The body of the rebuild loop: decode and apply, or skip a page no arm is declared for. */
  function ApplyPage<S, M>(arms: ApplyArms<S, M>, state: S, page: EventPage): Result<S, ClientError> {
    match page.payload
    case Some(Event(any)) =>
      (match Lookup(arms, any.typeUrl)
       case None => Ok(state)
       case Some(body) =>
         match body.decode(any.value)
         case Ok(event) => Ok(body.apply(state, event))
         case Err(cause) => Err(AnyDecodeFailed(any.typeUrl, cause)))
    case _ => Ok(state)
  }

  function Applier<S, M>(arms: ApplyArms<S, M>): (S, EventPage) -> Result<S, ClientError> {
    (state, page) => ApplyPage(arms, state, page)
  }

  /** The state after `pages`, or the first decode error. */
  function Rebuild<S, M>(arms: ApplyArms<S, M>, state: S, pages: seq<EventPage>): Result<S, ClientError> {
    FoldM(Applier(arms), state, pages)
  }

  /** The pages some `#[applies]` arm is declared for. */
  predicate Applicable<S, M>(arms: ApplyArms<S, M>, page: EventPage) {
    page.payload.Some? && page.payload.value.Event? && page.payload.value.event.typeUrl in Keys(arms)
  }

  function IsApplicable<S, M>(arms: ApplyArms<S, M>): EventPage -> bool {
    page => Applicable(arms, page)
  }

  /** Rebuilding from two stretches of events is rebuilding from the second on top of the first. */
  lemma RebuildAppend<S, M>(arms: ApplyArms<S, M>, state: S, xs: seq<EventPage>, ys: seq<EventPage>)
    ensures Rebuild(arms, state, xs + ys) ==
            match Rebuild(arms, state, xs)
            case Ok(mid) => Rebuild(arms, mid, ys)
            case Err(e) => Err(e)
  {
    FoldMAppend(Applier(arms), state, xs, ys);
  }

  /** Only the event pages with an `#[applies]` arm matter, and only their order. */
  lemma {:induction false} RebuildIgnoresOtherPages<S, M>(arms: ApplyArms<S, M>, state: S, pages: seq<EventPage>)
    ensures Rebuild(arms, state, pages) == Rebuild(arms, state, Filter(IsApplicable(arms), pages))
  {
    if |pages| == 0 {
    } else {
      var rest := Filter(IsApplicable(arms), pages[1..]);
      if Applicable(arms, pages[0]) {
        assert Filter(IsApplicable(arms), pages)[1..] == rest;
        if ApplyPage(arms, state, pages[0]).Ok? {
          RebuildIgnoresOtherPages(arms, ApplyPage(arms, state, pages[0]).value, pages[1..]);
        }
      } else {
        if pages[0].payload.Some? && pages[0].payload.value.Event? {
          LookupFirst(arms, pages[0].payload.value.event.typeUrl);
        }
        assert Filter(IsApplicable(arms), pages) == rest;
        RebuildIgnoresOtherPages(arms, state, pages[1..]);
      }
    }
  }

  // ------------------------------------------------- Decode first, then apply

  /** An `#[applies]` method about to run on a decoded event. */
  datatype Application<!S, !M> = Application(body: ApplyBody<S, M>, event: M)

  /** What a page asks for: nothing, or the first arm declared for its type on its decoded event. */
  function Decoded<S, M>(arms: ApplyArms<S, M>, page: EventPage): Result<seq<Application<S, M>>, ClientError> {
    if !Applicable(arms, page) then Ok([])
    else
      var any := page.payload.value.event;
      var body := arms[FirstIndex(Keys(arms), any.typeUrl)].body;
      match body.decode(any.value)
      case Ok(event) => Ok([Application(body, event)])
      case Err(cause) => Err(AnyDecodeFailed(any.typeUrl, cause))
  }

  function Decoder<S, M>(arms: ApplyArms<S, M>): EventPage -> Result<seq<Application<S, M>>, ClientError> {
    page => Decoded(arms, page)
  }

  function ApplyAll<S, M>(state: S, todo: seq<Application<S, M>>): S {
    if |todo| == 0 then state else ApplyAll(todo[0].body.apply(state, todo[0].event), todo[1..])
  }

  lemma ApplyPageIsDecoded<S, M>(arms: ApplyArms<S, M>, state: S, page: EventPage)
    ensures ApplyPage(arms, state, page) ==
            match Decoded(arms, page)
            case Ok(todo) => Ok(ApplyAll(state, todo))
            case Err(e) => Err(e)
  {
    if page.payload.Some? && page.payload.value.Event? {
      LookupFirst(arms, page.payload.value.event.typeUrl);
    }
  }

  /**
   * The interleaved loop is a decoding of the whole list followed by a plain left fold of the
   * `#[applies]` methods: which error it reports, and whether, has nothing to do with the state.
   */
  lemma {:induction false} RebuildDecodesThenApplies<S, M>(arms: ApplyArms<S, M>, state: S, pages: seq<EventPage>)
    ensures Rebuild(arms, state, pages) ==
            match Traverse(Decoder(arms), pages)
            case Ok(todo) => Ok(ApplyAll(state, Concat(todo)))
            case Err(e) => Err(e)
  {
    if |pages| > 0 {
      ApplyPageIsDecoded(arms, state, pages[0]);
      if Decoded(arms, pages[0]).Ok? {
        var first := Decoded(arms, pages[0]).value;
        RebuildDecodesThenApplies(arms, ApplyAll(state, first), pages[1..]);
        if Traverse(Decoder(arms), pages[1..]).Ok? {
          var rest := Traverse(Decoder(arms), pages[1..]).value;
          ConcatCons(first, rest);
          ApplyFirst(state, first, Concat(rest));
        }
      }
    }
  }

  lemma ApplyFirst<S, M>(state: S, first: seq<Application<S, M>>, rest: seq<Application<S, M>>)
    requires |first| <= 1
    ensures ApplyAll(state, first + rest) == ApplyAll(ApplyAll(state, first), rest)
  {
    if |first| == 0 {
      assert first + rest == rest;
    } else {
      assert first[1..] == [] && (first + rest)[1..] == rest;
    }
  }

  /** Rebuild fails only on a payload that does not decode, and from every state alike. */
  lemma RebuildFailsAlike<S, M>(arms: ApplyArms<S, M>, s: S, t: S, pages: seq<EventPage>)
    ensures Rebuild(arms, s, pages).Err? ==>
              Rebuild(arms, s, pages).error.AnyDecodeFailed? && Rebuild(arms, t, pages) == Rebuild(arms, s, pages)
  {
    RebuildDecodesThenApplies(arms, s, pages);
    RebuildDecodesThenApplies(arms, t, pages);
    if Traverse(Decoder(arms), pages).Err? {
      var k := TraverseFirstError(Decoder(arms), pages);
    }
  }
}
