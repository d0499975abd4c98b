/** The `Router` builder and what its duplicate check buys command dispatch. */
module Building {
  import opened Foundations
  import opened Proto
  import opened Handlers
  import opened CommandRouting

  datatype BuildError =
    | Empty(routerName: string)
    | MixedKinds(first: Kind, other: Kind, routerName: string)
    | DuplicateCommandHandler(domain: string, typeUrl: string, routerName: string)

  datatype Built =
    | CommandHandlerRouter(factories: seq<Factory>)
    | SagaRouter(factories: seq<Factory>)
    | ProcessManagerRouter(factories: seq<Factory>)
    | ProjectorRouter(factories: seq<Factory>)
    | UpcasterRouter(factories: seq<Factory>)

  function BuiltFor(kind: Kind, factories: seq<Factory>): Built {
    match kind
    case CommandHandlerKind => CommandHandlerRouter(factories)
    case SagaKind => SagaRouter(factories)
    case ProcessManagerKind => ProcessManagerRouter(factories)
    case ProjectorKind => ProjectorRouter(factories)
    case UpcasterKind => UpcasterRouter(factories)
  }

  // ----------------------------------------------------------- Routing keys

  type RoutingKey = (string, string)

  function KeysFrom(domain: string, urls: seq<string>): (keys: seq<RoutingKey>)
    ensures |keys| == |urls|
    ensures forall i :: 0 <= i < |urls| ==> keys[i] == (domain, urls[i])
  {
    seq(|urls|, i requires 0 <= i < |urls| => (domain, urls[i]))
  }

  /** The `(domain, type_url)` keys one factory declares. */
  function FactoryKeys(f: Factory): seq<RoutingKey> {
    if f.config.CommandHandlerConfig? then KeysFrom(f.config.domain, f.config.handled) else []
  }

  function KeysOfFactory(): Factory -> seq<RoutingKey> {
    (f: Factory) => FactoryKeys(f)
  }

  /** The keys of a whole router, in registration order. */
  function RouterKeys(fs: seq<Factory>): seq<RoutingKey> {
    FlatMap(KeysOfFactory(), fs)
  }

  ghost predicate Homogeneous(fs: seq<Factory>) {
    forall i :: 0 <= i < |fs| ==> fs[i].kind == fs[0].kind
  }

  /** What `build` accepts. */
  ghost predicate Buildable(fs: seq<Factory>) {
    && |fs| > 0
    && Homogeneous(fs)
    && (fs[0].kind.CommandHandlerKind? ==> NoDuplicates(RouterKeys(fs)))
  }

  lemma HandlesKeyIsKey(f: Factory, domain: string, url: string)
    ensures HandlesKey(f, domain, url) <==> (domain, url) in FactoryKeys(f)
  {
    if HandlesKey(f, domain, url) {
      var i :| 0 <= i < |f.config.handled| && f.config.handled[i] == url;
      assert FactoryKeys(f)[i] == (domain, url);
    }
  }

  // ------------------------------------------------------------ The builder

  class Router {
    const name: string
    var factories: seq<Factory>

    constructor (name: string)
      ensures this.name == name && factories == []
    {
      this.name := name;
      factories := [];
    }

    /** Registers a factory at the end of the list. */
    method WithHandler(f: Factory)
      modifies this`factories
      ensures factories == old(factories) + [f]
    {
      factories := factories + [f];
    }

    /** Checks the list and wraps it in the runtime router of its kind. */
    method Build() returns (r: Result<Built, BuildError>)
      ensures r.Ok? <==> Buildable(factories)
      ensures r.Ok? ==> r.value == BuiltFor(factories[0].kind, factories)
      ensures r.Ok? ==> r.value.factories == factories
      ensures r.Ok? ==> && (r.value.CommandHandlerRouter? <==> factories[0].kind == CommandHandlerKind)
                        && (r.value.SagaRouter? <==> factories[0].kind == SagaKind)
                        && (r.value.ProcessManagerRouter? <==> factories[0].kind == ProcessManagerKind)
                        && (r.value.ProjectorRouter? <==> factories[0].kind == ProjectorKind)
                        && (r.value.UpcasterRouter? <==> factories[0].kind == UpcasterKind)
      ensures r.Err? && r.error.Empty? <==> factories == []
      ensures r.Err? && r.error.MixedKinds? <==> factories != [] && !Homogeneous(factories)
      ensures r.Err? && r.error.MixedKinds? ==>
                exists i :: 0 <= i < |factories| && Homogeneous(factories[..i]) &&
                            r.error == MixedKinds(factories[0].kind, factories[i].kind, name) &&
                            r.error.other != r.error.first
      ensures r.Err? && r.error.DuplicateCommandHandler? ==>
                exists n :: 0 <= n < |RouterKeys(factories)| &&
                            r.error.routerName == name &&
                            RouterKeys(factories)[n] == (r.error.domain, r.error.typeUrl) &&
                            RouterKeys(factories)[n] in RouterKeys(factories)[..n] &&
                            NoDuplicates(RouterKeys(factories)[..n])
    {
      if |factories| == 0 {
        return Err(Empty(name));
      }
      var firstKind := factories[0].kind;
      for i := 0 to |factories|
        invariant forall k :: 0 <= k < i ==> factories[k].kind == firstKind
      {
        if factories[i].kind != firstKind {
          assert Homogeneous(factories[..i]);
          return Err(MixedKinds(firstKind, factories[i].kind, name));
        }
      }
      if firstKind == CommandHandlerKind {
        var seen: set<RoutingKey> := {};
        for i := 0 to |factories|
          invariant forall k :: k in seen <==> k in RouterKeys(factories[..i])
          invariant NoDuplicates(RouterKeys(factories[..i]))
        {
          var f := factories[i];
          ghost var before := RouterKeys(factories[..i]);
          assert factories[..i + 1] == factories[..i] + [f];
          FlatMapSnoc(KeysOfFactory(), factories[..i], f);
          if f.config.CommandHandlerConfig? {
            var handled := f.config.handled;
            for j := 0 to |handled|
              invariant forall k :: k in seen <==> k in before + FactoryKeys(f)[..j]
              invariant NoDuplicates(before + FactoryKeys(f)[..j])
            {
              var key := (f.config.domain, handled[j]);
              assert FactoryKeys(f)[..j + 1] == FactoryKeys(f)[..j] + [key];
              assert before + FactoryKeys(f)[..j + 1] == (before + FactoryKeys(f)[..j]) + [key];
              if key in seen {
                DuplicateFound(factories, i, j);
                return Err(DuplicateCommandHandler(key.0, key.1, name));
              }
              NoDuplicatesSnoc(before + FactoryKeys(f)[..j], key);
              seen := seen + {key};
            }
            assert FactoryKeys(f)[..|handled|] == FactoryKeys(f);
          } else {
            assert before + [] == before;
          }
        }
        assert factories[..|factories|] == factories;
      }
      return Ok(BuiltFor(firstKind, factories));
    }
  }

  /** Where in the whole key list the j-th key of the i-th factory stands. */
  lemma KeyPosition(fs: seq<Factory>, i: nat, j: nat)
    requires i < |fs| && j < |FactoryKeys(fs[i])|
    ensures var n := |RouterKeys(fs[..i])| + j;
            n < |RouterKeys(fs)| && RouterKeys(fs)[n] == FactoryKeys(fs[i])[j] &&
            RouterKeys(fs)[..n] == RouterKeys(fs[..i]) + FactoryKeys(fs[i])[..j]
  {
    var before, own, after := RouterKeys(fs[..i]), FactoryKeys(fs[i]), RouterKeys(fs[i + 1..]);
    assert fs == fs[..i] + fs[i..];
    FlatMapAppend(KeysOfFactory(), fs[..i], fs[i..]);
    assert RouterKeys(fs[i..]) == own + after by {
      assert fs[i..][1..] == fs[i + 1..];
    }
    assert RouterKeys(fs) == before + (own + after);
  }

  /** A key met a second time makes the whole key list one with a duplicate. */
  lemma DuplicateFound(fs: seq<Factory>, i: nat, j: nat)
    requires i < |fs| && j < |FactoryKeys(fs[i])|
    requires FactoryKeys(fs[i])[j] in RouterKeys(fs[..i]) + FactoryKeys(fs[i])[..j]
    ensures var n := |RouterKeys(fs[..i])| + j;
            n < |RouterKeys(fs)| && RouterKeys(fs)[n] == FactoryKeys(fs[i])[j] &&
            RouterKeys(fs)[..n] == RouterKeys(fs[..i]) + FactoryKeys(fs[i])[..j] &&
            !NoDuplicates(RouterKeys(fs))
  {
    KeyPosition(fs, i, j);
    var keys, n := RouterKeys(fs), |RouterKeys(fs[..i])| + j;
    var m :| 0 <= m < n && keys[..n][m] == keys[n];
    assert keys[m] == keys[n];
  }

  // ------------------------------------------------------ Order independence

  /** Two places in the list declaring one key would be a duplicate. */
  lemma OneHandlerPerKey(fs: seq<Factory>, i: nat, j: nat, key: RoutingKey)
    requires NoDuplicates(RouterKeys(fs)) && i < |fs| && j < |fs|
    requires key in FactoryKeys(fs[i]) && key in FactoryKeys(fs[j])
    ensures i == j
  {
    if i < j {
      TwoPlaces(fs, i, j, key);
    } else if j < i {
      TwoPlaces(fs, j, i, key);
    }
  }

  lemma TwoPlaces(fs: seq<Factory>, i: nat, j: nat, key: RoutingKey)
    requires i < j < |fs| && key in FactoryKeys(fs[i]) && key in FactoryKeys(fs[j])
    ensures !NoDuplicates(RouterKeys(fs))
  {
    var a :| 0 <= a < |FactoryKeys(fs[i])| && FactoryKeys(fs[i])[a] == key;
    var b :| 0 <= b < |FactoryKeys(fs[j])| && FactoryKeys(fs[j])[b] == key;
    KeyPosition(fs, i, a);
    KeyPosition(fs, j, b);
    KeyPosition(fs[..j], i, a);
    assert fs[..j][..i] == fs[..i];
    var keys, m, n := RouterKeys(fs), |RouterKeys(fs[..i])| + a, |RouterKeys(fs[..j])| + b;
    assert m < n && keys[m] == key && keys[n] == key;
  }

  /** The first of the factories satisfying HandlesKey, if any does. */
  lemma FindHandler(fs: seq<Factory>, domain: string, url: string) returns (k: nat)
    requires exists i :: 0 <= i < |fs| && HandlesKey(fs[i], domain, url)
    ensures k < |fs| && HandlesKey(fs[k], domain, url)
    ensures forall j :: 0 <= j < k ==> !HandlesKey(fs[j], domain, url)
  {
    k := 0;
    while !HandlesKey(fs[k], domain, url)
      invariant k < |fs| && forall j :: 0 <= j < k ==> !HandlesKey(fs[j], domain, url)
      decreases |fs| - k
    {
      k := k + 1;
    }
  }

  /** Once the keys are distinct, dispatch answers with the one handler that has the key. */
  lemma DispatchIsLookup(fs: seq<Factory>, k: nat, domain: string, url: string, cmd: ContextualCommand)
    requires NoDuplicates(RouterKeys(fs)) && k < |fs| && HandlesKey(fs[k], domain, url)
    ensures FirstMatch(fs, domain, url, cmd) == AsCommandResponse(fs[k].Dispatch(CommandRequest(cmd)))
  {
    var first := FindHandler(fs, domain, url);
    HandlesKeyIsKey(fs[first], domain, url);
    HandlesKeyIsKey(fs[k], domain, url);
    OneHandlerPerKey(fs, first, k, (domain, url));
    FirstMatchSkips(fs, first, domain, url, cmd);
  }

  /** `build` looks at the factories as a collection: order plays no part in what it accepts. */
  lemma BuildableAnyOrder(fs: seq<Factory>, gs: seq<Factory>)
    requires multiset(fs) == multiset(gs) && Buildable(fs)
    ensures Buildable(gs) && gs[0].kind == fs[0].kind
  {
    PermutationMembers(fs, gs);
    forall i | 0 <= i < |gs| ensures gs[i].kind == fs[0].kind {
      assert gs[i] in fs;
    }
    FlatMapPermutation(KeysOfFactory(), fs, gs);
    NoDuplicatesPermutation(RouterKeys(fs), RouterKeys(gs));
  }

  /**
   * Order independence: a command-handler list `build` accepts is accepted in every order, and in
   * every order each command that is not a notification gets the same answer.
   */
  lemma CommandDispatchAnyOrder(w: Wire, fs: seq<Factory>, gs: seq<Factory>, cmd: ContextualCommand)
    requires multiset(fs) == multiset(gs) && Buildable(fs) && fs[0].kind.CommandHandlerKind?
    requires ExtractCommandTypeUrl(cmd) != Ok(NOTIFICATION_URL)
    ensures Buildable(gs) && gs[0].kind.CommandHandlerKind?
    ensures RouteCommand(w, fs, cmd) == RouteCommand(w, gs, cmd)
  {
    BuildableAnyOrder(fs, gs);
    PermutationMembers(fs, gs);
    if ExtractCommandTypeUrl(cmd).Ok? {
      var domain, url := CommandDomain(cmd), ExtractCommandTypeUrl(cmd).value;
      if k :| 0 <= k < |fs| && HandlesKey(fs[k], domain, url) {
        assert fs[k] in gs;
        var j :| 0 <= j < |gs| && gs[j] == fs[k];
        DispatchIsLookup(fs, k, domain, url, cmd);
        DispatchIsLookup(gs, j, domain, url, cmd);
      } else {
        forall j | 0 <= j < |gs| ensures !HandlesKey(gs[j], domain, url) {
          assert gs[j] in fs;
        }
        FirstMatchMisses(fs, domain, url, cmd);
        FirstMatchMisses(gs, domain, url, cmd);
      }
    }
  }

  /**
   * Without the check the answer depends on the order: of any two factories that share a key, the
   * one registered first answers.
   */
  lemma SharedKeyFollowsOrder(f: Factory, g: Factory, domain: string, url: string, cmd: ContextualCommand)
    requires HandlesKey(f, domain, url) && HandlesKey(g, domain, url)
    ensures FirstMatch([f, g], domain, url, cmd) == AsCommandResponse(f.Dispatch(CommandRequest(cmd)))
    ensures FirstMatch([g, f], domain, url, cmd) == AsCommandResponse(g.Dispatch(CommandRequest(cmd)))
    ensures f.kind.CommandHandlerKind? && g.kind.CommandHandlerKind? ==> !Buildable([f, g])
  {
    HandlesKeyIsKey(f, domain, url);
    HandlesKeyIsKey(g, domain, url);
    TwoPlaces([f, g], 0, 1, (domain, url));
  }


  /** Two different places in the configs that declare the same domain and type URL. */
  ghost predicate Clash(fs: seq<Factory>, i: nat, a: nat, j: nat, b: nat) {
    && i < |fs| && j < |fs| && (i < j || (i == j && a < b))
    && fs[i].config.CommandHandlerConfig? && fs[j].config.CommandHandlerConfig?
    && a < |fs[i].config.handled| && b < |fs[j].config.handled|
    && fs[i].config.domain == fs[j].config.domain && fs[i].config.handled[a] == fs[j].config.handled[b]
  }

  lemma {:induction false} PlaceOfKey(fs: seq<Factory>, n: nat) returns (i: nat, a: nat)
    requires n < |RouterKeys(fs)|
    ensures i < |fs| && a < |FactoryKeys(fs[i])| && n == |RouterKeys(fs[..i])| + a
    ensures RouterKeys(fs)[n] == FactoryKeys(fs[i])[a]
  {
    var own := FactoryKeys(fs[0]);
    if n < |own| {
      i, a := 0, n;
      assert RouterKeys(fs[..0]) == [];
    } else {
      var i', a' := PlaceOfKey(fs[1..], n - |own|);
      i, a := i' + 1, a';
      assert fs[..i] == [fs[0]] + fs[1..][..i'];
      assert fs[..i][1..] == fs[1..][..i'];
    }
  }

  lemma {:induction false} KeysBefore(fs: seq<Factory>, i: nat, j: nat)
    requires i <= j <= |fs|
    ensures |RouterKeys(fs[..i])| <= |RouterKeys(fs[..j])|
    ensures i < j ==> |RouterKeys(fs[..i])| + |FactoryKeys(fs[i])| <= |RouterKeys(fs[..j])|
  {
    if i < j {
      KeysBefore(fs, i, j - 1);
      assert fs[..j] == fs[..j - 1] + [fs[j - 1]];
      FlatMapSnoc(KeysOfFactory(), fs[..j - 1], fs[j - 1]);
    }
  }

  /** The duplicate check, from the config fields: no domain and type URL at two places. */
  lemma NoDuplicateKeysByFields(fs: seq<Factory>)
    ensures NoDuplicates(RouterKeys(fs)) <==> !exists i: nat, a: nat, j: nat, b: nat :: Clash(fs, i, a, j, b)
  {
    var keys := RouterKeys(fs);
    if i: nat, a: nat, j: nat, b: nat :| Clash(fs, i, a, j, b) {
      KeyPosition(fs, i, a);
      KeyPosition(fs, j, b);
      KeysBefore(fs, i, j);
      assert keys[|RouterKeys(fs[..i])| + a] == keys[|RouterKeys(fs[..j])| + b];
    }
    if !NoDuplicates(keys) {
      var m, n :| 0 <= m < n < |keys| && keys[m] == keys[n];
      var i, a := PlaceOfKey(fs, m);
      var j, b := PlaceOfKey(fs, n);
      if j < i {
        KeysBefore(fs, j, i);
      }
      assert Clash(fs, i, a, j, b);
    }
  }
}
