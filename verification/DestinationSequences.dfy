/** `Destinations`: the ordered domain-to-sequence index and the stamping of outbound commands. */
module DestinationSequences {
  import opened Foundations
  import opened Proto
  import opened Handlers

  /** An insertion-ordered map: re-inserting a key keeps its place and replaces its value. */
  datatype Destinations = Destinations(order: seq<string>, sequences: map<string, uint32>) {
    function Insert(domain: string, sequence: uint32): Destinations {
      Destinations(if domain in order then order else order + [domain], sequences[domain := sequence])
    }

    function SequenceFor(domain: string): Option<uint32> {
      if domain in sequences then Some(sequences[domain]) else None
    }

    predicate HasDomain(domain: string) {
      domain in sequences
    }

    function Domains(): seq<string> {
      order
    }
  }

  /** Collects the pairs in the order given. */
  function FromSequences(pairs: seq<(string, uint32)>): Destinations {
    if |pairs| == 0 then Destinations([], map[])
    else
      var last := pairs[|pairs| - 1];
      FromSequences(pairs[..|pairs| - 1]).Insert(last.0, last.1)
  }

  function Names(pairs: seq<(string, uint32)>): (names: seq<string>)
    ensures |names| == |pairs|
    ensures forall i :: 0 <= i < |pairs| ==> names[i] == pairs[i].0
  {
    seq(|pairs|, i requires 0 <= i < |pairs| => pairs[i].0)
  }

  /** `domains` lists the first occurrences in order, and a domain is known exactly when listed. */
  lemma {:induction false} DomainsInOrder(pairs: seq<(string, uint32)>)
    ensures FromSequences(pairs).Domains() == FirstOccurrences(Names(pairs))
    ensures forall d :: FromSequences(pairs).HasDomain(d) <==> d in FromSequences(pairs).Domains()
  {
    if |pairs| > 0 {
      var init := pairs[..|pairs| - 1];
      DomainsInOrder(init);
      assert Names(pairs)[..|pairs| - 1] == Names(init);
    }
  }

  /** Lookup finds exactly the domains given, each with the last value given for it. */
  lemma {:induction false} LastValueWins(pairs: seq<(string, uint32)>, d: string)
    ensures match FromSequences(pairs).SequenceFor(d)
            case None => forall i :: 0 <= i < |pairs| ==> pairs[i].0 != d
            case Some(v) => exists i :: 0 <= i < |pairs| && pairs[i] == (d, v) &&
                                        forall j :: i < j < |pairs| ==> pairs[j].0 != d
  {
    if |pairs| > 0 {
      var n := |pairs| - 1;
      var init := pairs[..n];
      LastValueWins(init, d);
      assert forall i :: 0 <= i < n ==> init[i] == pairs[i];
      if pairs[n].0 == d {
        assert pairs[n] == (d, pairs[n].1);
      } else if FromSequences(init).SequenceFor(d).Some? {
        var i :| 0 <= i < n && init[i] == (d, FromSequences(init).SequenceFor(d).value) &&
                 forall j :: i < j < n ==> init[j].0 != d;
        assert forall j :: i < j < |pairs| ==> pairs[j].0 != d;
        assert pairs[i] == (d, FromSequences(pairs).SequenceFor(d).value);
      }
    }
  }

  // ----------------------------------------------------------- Page headers

  const DEFAULT_HEADER := PageHeader(None, None)

  function ExplicitSequence(header: PageHeader): Option<uint32> {
    match header.sequenceType
    case Some(Sequence(n)) => Some(n)
    case _ => None
  }

  predicate IsDeferred(header: PageHeader) {
    header.sequenceType.Some? &&
    (header.sequenceType.value.ExternalDeferred? || header.sequenceType.value.AngzarrDeferred?)
  }

  /** The page's explicit sequence, or 0 for a page without a header or with a deferred one. */
  function SequenceNum(page: CommandPage): uint32 {
    match page.header
    case Some(header) => ExplicitSequence(header).UnwrapOr(0)
    case None => 0
  }

  // --------------------------------------------------------------- Stamping

  /** A mutable place: what `&mut CommandBook` points to. */
  class Cell<T> {
    var value: T

    constructor (value: T)
      ensures this.value == value
    {
      this.value := value;
    }
  }

  function StampedPage(page: CommandPage, sequence: uint32): CommandPage {
    page.(header := Some(page.header.UnwrapOr(DEFAULT_HEADER).(sequenceType := Some(Sequence(sequence)))))
  }

  function StampedPages(pages: seq<CommandPage>, sequence: uint32): (stamped: seq<CommandPage>)
    ensures |stamped| == |pages|
    ensures forall i :: 0 <= i < |pages| ==> stamped[i] == StampedPage(pages[i], sequence)
  {
    seq(|pages|, i requires 0 <= i < |pages| => StampedPage(pages[i], sequence))
  }

  function Stamped(book: CommandBook, sequence: uint32): CommandBook {
    book.(pages := StampedPages(book.pages, sequence))
  }

  /** `Destinations::stamp_command`: stamps every page in place, or leaves the book alone. */
  method StampCommand(d: Destinations, cmd: Cell<CommandBook>, domain: string) returns (r: Result<(), ClientError>)
    modifies cmd
    ensures r.Ok? <==> d.HasDomain(domain)
    ensures r.Ok? ==> cmd.value == Stamped(old(cmd.value), d.SequenceFor(domain).value)
    ensures r.Err? ==> r.error == MissingDestinationSequence(domain) && cmd.value == old(cmd.value)
  {
    var sequence := d.SequenceFor(domain);
    if sequence.None? {
      return Err(MissingDestinationSequence(domain));
    }
    ghost var book := cmd.value;
    for i := 0 to |cmd.value.pages|
      invariant cmd.value == book.(pages := cmd.value.pages) && |cmd.value.pages| == |book.pages|
      invariant forall k :: 0 <= k < i ==> cmd.value.pages[k] == StampedPage(book.pages[k], sequence.value)
      invariant forall k :: i <= k < |book.pages| ==> cmd.value.pages[k] == book.pages[k]
    {
      var page := cmd.value.pages[i];
      var header := page.header.UnwrapOr(DEFAULT_HEADER);
      header := header.(sequenceType := Some(Sequence(sequence.value)));
      cmd.value := cmd.value.(pages := cmd.value.pages[i := page.(header := Some(header))]);
    }
    assert cmd.value.pages == StampedPages(book.pages, sequence.value);
    return Ok(());
  }

  /**
   * What a stamp does to a book: every page reads that sequence and is deferred no more; the cover,
   * the payloads, the merge strategies and any sync mode stay; and a later stamp wins outright.
   */
  lemma StampSetsOnlySequences(book: CommandBook, first: uint32, second: uint32)
    ensures Stamped(book, first).cover == book.cover && |Stamped(book, first).pages| == |book.pages|
    ensures forall i :: 0 <= i < |book.pages| ==>
              var page := Stamped(book, first).pages[i];
              && page.payload == book.pages[i].payload && page.mergeStrategy == book.pages[i].mergeStrategy
              && SequenceNum(page) == first && page.header.Some?
              && ExplicitSequence(page.header.value) == Some(first) && !IsDeferred(page.header.value)
              && page.header.value.syncMode ==
                 (if book.pages[i].header.Some? then book.pages[i].header.value.syncMode else None)
    ensures Stamped(Stamped(book, first), second) == Stamped(book, second)
  {
    forall i | 0 <= i < |book.pages|
      ensures StampedPage(StampedPage(book.pages[i], first), second) == StampedPage(book.pages[i], second)
    {
    }
    assert Stamped(Stamped(book, first), second).pages == Stamped(book, second).pages;
  }


  /**
   * What a header says: only an explicit sequence is one, both deferred kinds are deferred, and a
   * header without either is neither; a page without an explicit sequence counts as 0.
   */
  lemma HeaderCases(sync: Option<int>, n: uint32, external: string, deferred: DeferredSequence, page: CommandPage)
    ensures ExplicitSequence(PageHeader(Some(Sequence(n)), sync)) == Some(n)
    ensures ExplicitSequence(PageHeader(Some(ExternalDeferred(external)), sync)) == None
    ensures ExplicitSequence(PageHeader(Some(AngzarrDeferred(deferred)), sync)) == None
    ensures ExplicitSequence(PageHeader(None, sync)) == None
    ensures !IsDeferred(PageHeader(Some(Sequence(n)), sync)) && !IsDeferred(PageHeader(None, sync))
    ensures IsDeferred(PageHeader(Some(ExternalDeferred(external)), sync))
    ensures IsDeferred(PageHeader(Some(AngzarrDeferred(deferred)), sync))
    ensures SequenceNum(page) ==
            match page.header
            case Some(PageHeader(Some(Sequence(number)), _)) => number
            case _ => 0
  {
  }
}
