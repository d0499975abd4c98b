/** `collect_method_metadata`: the marker attributes of an impl block, gathered per kind. */
module Metadata {
  import opened Foundations

  /** A method attribute; markers whose arguments do not parse carry None. */
  datatype Attr =
    | Handles(command: Option<string>)
    | HandlesFact(fact: Option<string>)
    | Applies(event: Option<string>)
    | RejectedAttr(key: Option<(string, string)>)
    | StateFactory
    | Upcasts(types: Option<(string, string)>)
    | OtherAttr(path: string)

  datatype Item = Fn(name: string, attrs: seq<Attr>) | OtherItem

  /** Per kind, the config list and the (method, argument) list the arms are generated from. */
  datatype MethodMetadata = MethodMetadata(
    handled: seq<string>,
    handledWithMethods: seq<(string, string)>,
    rejected: seq<(string, string)>,
    rejectedWithMethods: seq<(string, (string, string))>,
    applies: seq<string>,
    appliesWithMethods: seq<(string, string)>,
    stateFactory: Option<string>,
    upcastsWithMethods: seq<(string, (string, string))>,
    handlesFact: seq<string>,
    handlesFactWithMethods: seq<(string, string)>)

  const NO_METADATA := MethodMetadata([], [], [], [], [], [], None, [], [], [])

  // ------------------------------------------------------------ Specification

  /** A method with one of its attributes, in source order over the block. */
  type Marker = (string, Attr)

  function MarkersOf(): Item -> seq<Marker> {
    (item: Item) => ItemMarkers(item)
  }

  function ItemMarkers(item: Item): (markers: seq<Marker>)
    ensures item.Fn? ==> |markers| == |item.attrs|
    ensures item.Fn? ==> forall i :: 0 <= i < |markers| ==> markers[i] == (item.name, item.attrs[i])
    ensures item.OtherItem? ==> markers == []
  {
    match item
    case Fn(name, attrs) => seq(|attrs|, i requires 0 <= i < |attrs| => (name, attrs[i]))
    case OtherItem => []
  }

  function Markers(items: seq<Item>): seq<Marker> {
    FlatMap(MarkersOf(), items)
  }

  function HandlesArg(a: Attr): Option<string> {
    match a case Handles(t) => t case _ => None
  }

  function FactArg(a: Attr): Option<string> {
    match a case HandlesFact(t) => t case _ => None
  }

  function AppliesArg(a: Attr): Option<string> {
    match a case Applies(t) => t case _ => None
  }

  function RejectedArg(a: Attr): Option<(string, string)> {
    match a case RejectedAttr(k) => k case _ => None
  }

  function UpcastsArg(a: Attr): Option<(string, string)> {
    match a case Upcasts(t) => t case _ => None
  }

  /** The markers of one kind, each with its method and its argument. */
  function Marked<V>(arg: Attr -> Option<V>, markers: seq<Marker>): seq<(string, V)> {
    if |markers| == 0 then []
    else
      var last := markers[|markers| - 1];
      Marked(arg, markers[..|markers| - 1])
      + (match arg(last.1) case Some(v) => [(last.0, v)] case None => [])
  }

  function Arguments<V>(marked: seq<(string, V)>): (args: seq<V>)
    ensures |args| == |marked|
    ensures forall i :: 0 <= i < |marked| ==> args[i] == marked[i].1
  {
    seq(|marked|, i requires 0 <= i < |marked| => marked[i].1)
  }

  /** The method of the last `#[state_factory]`: a later one replaces an earlier one. */
  function LastFactory(markers: seq<Marker>): Option<string> {
    if |markers| == 0 then None
    else if markers[|markers| - 1].1.StateFactory? then Some(markers[|markers| - 1].0)
    else LastFactory(markers[..|markers| - 1])
  }

  /** The config lists are the arguments of the arm lists, kind by kind and in order. */
  ghost predicate Describes(meta: MethodMetadata, markers: seq<Marker>) {
    && meta.handledWithMethods == Marked(HandlesArg, markers)
    && meta.handled == Arguments(meta.handledWithMethods)
    && meta.rejectedWithMethods == Marked(RejectedArg, markers)
    && meta.rejected == Arguments(meta.rejectedWithMethods)
    && meta.appliesWithMethods == Marked(AppliesArg, markers)
    && meta.applies == Arguments(meta.appliesWithMethods)
    && meta.upcastsWithMethods == Marked(UpcastsArg, markers)
    && meta.handlesFactWithMethods == Marked(FactArg, markers)
    && meta.handlesFact == Arguments(meta.handlesFactWithMethods)
    && meta.stateFactory == LastFactory(markers)
  }

  // -------------------------------------------------------------------- Loops

  /** The body of the attribute loop. */
  method Collect(meta0: MethodMetadata, name: string, attr: Attr, ghost before: seq<Marker>)
    returns (meta: MethodMetadata)
    requires Describes(meta0, before)
    ensures Describes(meta, before + [(name, attr)])
  {
    meta := meta0;
    assert (before + [(name, attr)])[..|before|] == before;
    match attr {
      case Handles(Some(ty)) =>
        meta := meta.(handled := meta.handled + [ty],
                      handledWithMethods := meta.handledWithMethods + [(name, ty)]);
      case HandlesFact(Some(ty)) =>
        meta := meta.(handlesFact := meta.handlesFact + [ty],
                      handlesFactWithMethods := meta.handlesFactWithMethods + [(name, ty)]);
      case Applies(Some(ty)) =>
        meta := meta.(applies := meta.applies + [ty],
                      appliesWithMethods := meta.appliesWithMethods + [(name, ty)]);
      case RejectedAttr(Some(key)) =>
        meta := meta.(rejected := meta.rejected + [key],
                      rejectedWithMethods := meta.rejectedWithMethods + [(name, key)]);
      case StateFactory =>
        meta := meta.(stateFactory := Some(name));
      case Upcasts(Some(types)) =>
        meta := meta.(upcastsWithMethods := meta.upcastsWithMethods + [(name, types)]);
      case _ =>
    }
  }

  /** The attributes of one method. */
  method CollectAttributes(meta0: MethodMetadata, name: string, attrs: seq<Attr>, ghost before: seq<Marker>)
    returns (meta: MethodMetadata)
    requires Describes(meta0, before)
    ensures Describes(meta, before + ItemMarkers(Fn(name, attrs)))
  {
    meta := meta0;
    ghost var markers := ItemMarkers(Fn(name, attrs));
    ghost var soFar := before;
    for j := 0 to |attrs|
      invariant soFar == before + markers[..j]
      invariant Describes(meta, soFar)
    {
      meta := Collect(meta, name, attrs[j], soFar);
      soFar := soFar + [(name, attrs[j])];
      assert markers[..j + 1] == markers[..j] + [(name, attrs[j])];
    }
    assert soFar == before + markers;
  }

  /** The loop over the items of the block. */
  method CollectMethodMetadata(items: seq<Item>) returns (meta: MethodMetadata)
    ensures Describes(meta, Markers(items))
  {
    meta := NO_METADATA;
    ghost var soFar: seq<Marker> := [];
    for i := 0 to |items|
      invariant soFar == Markers(items[..i])
      invariant Describes(meta, soFar)
    {
      assert items[..i + 1] == items[..i] + [items[i]];
      FlatMapSnoc(MarkersOf(), items[..i], items[i]);
      match items[i] {
        case Fn(name, attrs) =>
          meta := CollectAttributes(meta, name, attrs, soFar);
          soFar := soFar + ItemMarkers(items[i]);
        case OtherItem =>
          assert soFar + [] == soFar;
      }
    }
    assert items[..|items|] == items;
  }

  lemma {:induction false} MarkedMembers<V>(arg: Attr -> Option<V>, markers: seq<Marker>, v: V)
    ensures (exists k :: 0 <= k < |Marked(arg, markers)| && Marked(arg, markers)[k].1 == v) <==>
            (exists i :: 0 <= i < |markers| && arg(markers[i].1) == Some(v))
  {
    if |markers| > 0 {
      var init, last := markers[..|markers| - 1], markers[|markers| - 1];
      MarkedMembers(arg, init, v);
      var front, all := Marked(arg, init), Marked(arg, markers);
      if k :| 0 <= k < |all| && all[k].1 == v {
        if k < |front| {
          assert front[k].1 == v;
          var i :| 0 <= i < |init| && arg(init[i].1) == Some(v);
          assert arg(markers[i].1) == Some(v);
        } else {
          assert arg(markers[|markers| - 1].1) == Some(v);
        }
      }
      if i :| 0 <= i < |markers| && arg(markers[i].1) == Some(v) {
        if i < |init| {
          assert arg(init[i].1) == Some(v);
          var k :| 0 <= k < |front| && front[k].1 == v;
          assert all[k].1 == v;
        } else {
          assert all[|front|].1 == v;
        }
      }
    }
  }

  /** One kind of marker: its config list has an entry exactly when some method is marked with it. */
  lemma ListedExactlyWhenMarked<V>(arg: Attr -> Option<V>, markers: seq<Marker>, v: V)
    ensures v in Arguments(Marked(arg, markers)) <==>
            exists i :: 0 <= i < |markers| && arg(markers[i].1) == Some(v)
  {
    var marked := Marked(arg, markers);
    MarkedMembers(arg, markers, v);
    if k :| 0 <= k < |marked| && marked[k].1 == v {
      assert Arguments(marked)[k] == v;
    }
    if v in Arguments(marked) {
      var k :| 0 <= k < |marked| && Arguments(marked)[k] == v;
      assert marked[k].1 == v;
    }
  }

  /** Some method of the block carries this marker. */
  ghost predicate IsMarked(markers: seq<Marker>, attr: Attr) {
    exists i :: 0 <= i < |markers| && markers[i].1 == attr
  }

  /**
   * What the router reads is what the block declares, for all four kinds a config lists: a type or
   * rejection key is in the config exactly when a method is marked for it.
   */
  lemma ConfigListsMarkers(meta: MethodMetadata, markers: seq<Marker>, ty: string, key: (string, string))
    requires Describes(meta, markers)
    ensures ty in meta.handled <==> IsMarked(markers, Handles(Some(ty)))
    ensures ty in meta.handlesFact <==> IsMarked(markers, HandlesFact(Some(ty)))
    ensures ty in meta.applies <==> IsMarked(markers, Applies(Some(ty)))
    ensures key in meta.rejected <==> IsMarked(markers, RejectedAttr(Some(key)))
  {
    ListedExactlyWhenMarked(HandlesArg, markers, ty);
    ListedExactlyWhenMarked(FactArg, markers, ty);
    ListedExactlyWhenMarked(AppliesArg, markers, ty);
    ListedExactlyWhenMarked(RejectedArg, markers, key);
    assert forall i :: 0 <= i < |markers| ==>
      (HandlesArg(markers[i].1) == Some(ty) <==> markers[i].1 == Handles(Some(ty))) &&
      (FactArg(markers[i].1) == Some(ty) <==> markers[i].1 == HandlesFact(Some(ty))) &&
      (AppliesArg(markers[i].1) == Some(ty) <==> markers[i].1 == Applies(Some(ty))) &&
      (RejectedArg(markers[i].1) == Some(key) <==> markers[i].1 == RejectedAttr(Some(key)));
  }


  // ------------------------------------------------------------- By position

  /** The block's markers in source order: the attributes of each method, other items skipped. */
  lemma MarkersBySource(front: seq<Item>, name: string, attrs: seq<Attr>, back: seq<Item>)
    ensures Markers([]) == []
    ensures Markers(front + [OtherItem] + back) == Markers(front) + Markers(back)
    ensures var all := Markers(front + [Fn(name, attrs)] + back);
            && |all| == |Markers(front)| + |attrs| + |Markers(back)|
            && all[..|Markers(front)|] == Markers(front)
            && all[|Markers(front)| + |attrs|..] == Markers(back)
            && forall j :: 0 <= j < |attrs| ==> all[|Markers(front)| + j] == (name, attrs[j])
  {
    FlatMapAppend(MarkersOf(), front + [OtherItem], back);
    FlatMapSnoc(MarkersOf(), front, OtherItem);
    FlatMapAppend(MarkersOf(), front + [Fn(name, attrs)], back);
    FlatMapSnoc(MarkersOf(), front, Fn(name, attrs));
    assert Markers(front) + [] == Markers(front);
  }

  /** Entry n of an arm list is the marker at position picks[n]. */
  ghost predicate Listed<V(!new)>(arg: Attr -> Option<V>, markers: seq<Marker>, arms: seq<(string, V)>,
                                  picks: seq<nat>)
  {
    && Increasing(picks, |markers|)
    && (forall k: nat :: k < |markers| ==> (k in picks <==> arg(markers[k].1).Some?))
    && |arms| == |picks|
    && (forall n :: 0 <= n < |picks| ==>
          arms[n].0 == markers[picks[n]].0 && arg(markers[picks[n]].1) == Some(arms[n].1))
  }

  lemma ListedSkip<V(!new)>(arg: Attr -> Option<V>, init: seq<Marker>, last: Marker, arms: seq<(string, V)>,
                            picks: seq<nat>)
    requires Listed(arg, init, arms, picks) && arg(last.1).None?
    ensures Listed(arg, init + [last], arms, picks)
  {
  }

  lemma ListedPush<V(!new)>(arg: Attr -> Option<V>, init: seq<Marker>, last: Marker, arms: seq<(string, V)>,
                            picks: seq<nat>)
    requires Listed(arg, init, arms, picks) && arg(last.1).Some?
    ensures Listed(arg, init + [last], arms + [(last.0, arg(last.1).value)], picks + [|init|])
  {
  }

  lemma {:induction false} MarkedIsListed<V(!new)>(arg: Attr -> Option<V>, markers: seq<Marker>)
    returns (picks: seq<nat>)
    ensures Listed(arg, markers, Marked(arg, markers), picks)
  {
    if |markers| == 0 {
      picks := [];
    } else {
      var init, last := markers[..|markers| - 1], markers[|markers| - 1];
      picks := MarkedIsListed(arg, init);
      assert markers == init + [last];
      if arg(last.1).Some? {
        ListedPush(arg, init, last, Marked(arg, init), picks);
        picks := picks + [|init|];
      } else {
        ListedSkip(arg, init, last, Marked(arg, init), picks);
        assert Marked(arg, init) + [] == Marked(arg, init);
      }
    }
  }

  /** The arguments the collector reads, kind by kind. */
  lemma ArgumentsByKind(attr: Attr)
    ensures HandlesArg(attr) == if attr.Handles? then attr.command else None
    ensures FactArg(attr) == if attr.HandlesFact? then attr.fact else None
    ensures AppliesArg(attr) == if attr.Applies? then attr.event else None
    ensures RejectedArg(attr) == if attr.RejectedAttr? then attr.key else None
    ensures UpcastsArg(attr) == if attr.Upcasts? then attr.types else None
  {
  }

  /**
   * Every arm list by position: increasing positions of the markers of its kind whose arguments
   * parse, each with the name of its method and the arguments as written.
   */
  lemma ArmsByPosition(meta: MethodMetadata, markers: seq<Marker>)
    returns (handles: seq<nat>, facts: seq<nat>, applies: seq<nat>, rejected: seq<nat>, upcasts: seq<nat>)
    requires Describes(meta, markers)
    ensures Listed(HandlesArg, markers, meta.handledWithMethods, handles)
    ensures Listed(FactArg, markers, meta.handlesFactWithMethods, facts)
    ensures Listed(AppliesArg, markers, meta.appliesWithMethods, applies)
    ensures Listed(RejectedArg, markers, meta.rejectedWithMethods, rejected)
    ensures Listed(UpcastsArg, markers, meta.upcastsWithMethods, upcasts)
  {
    handles := MarkedIsListed(HandlesArg, markers);
    facts := MarkedIsListed(FactArg, markers);
    applies := MarkedIsListed(AppliesArg, markers);
    rejected := MarkedIsListed(RejectedArg, markers);
    upcasts := MarkedIsListed(UpcastsArg, markers);
  }

  /** The state factory is the method of the last `#[state_factory]` marker, if there is one. */
  lemma {:induction false} StateFactoryByPosition(markers: seq<Marker>) returns (k: nat)
    ensures LastFactory(markers).None? ==> forall j :: 0 <= j < |markers| ==> !markers[j].1.StateFactory?
    ensures LastFactory(markers).Some? ==>
              && k < |markers| && markers[k].1.StateFactory? && markers[k].0 == LastFactory(markers).value
              && forall j :: k < j < |markers| ==> !markers[j].1.StateFactory?
  {
    if |markers| == 0 || markers[|markers| - 1].1.StateFactory? {
      k := if |markers| == 0 then 0 else |markers| - 1;
    } else {
      var init := markers[..|markers| - 1];
      k := StateFactoryByPosition(init);
      assert forall j :: 0 <= j < |init| ==> init[j] == markers[j];
    }
  }
}
