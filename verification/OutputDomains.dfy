/** Which downstream domains readiness probes: `output_domains`, `sync_output_domains`, `has_async_outputs`. */
module OutputDomains {
  import opened Foundations
  import opened Handlers

  // ---------------------------------------------------------- What is declared

  predicate NonEmpty(t: string) {
    t != ""
  }

  function NonEmptyTargets(): string -> bool {
    (t: string) => NonEmpty(t)
  }

  /** The non-empty targets one factory declares, all of them or only the sync ones. */
  function SagaTargets(f: Factory, syncOnly: bool): seq<string> {
    if f.config.SagaConfig? && (f.config.sync || !syncOnly) && f.config.target != "" then [f.config.target] else []
  }

  function PmTargets(f: Factory, syncOnly: bool): seq<string> {
    if f.config.ProcessManagerConfig?
    then Filter(NonEmptyTargets(), if syncOnly then f.config.syncTargets else f.config.targets)
    else []
  }

  function SagaTargetsOf(syncOnly: bool): Factory -> seq<string> {
    (f: Factory) => SagaTargets(f, syncOnly)
  }

  function PmTargetsOf(syncOnly: bool): Factory -> seq<string> {
    (f: Factory) => PmTargets(f, syncOnly)
  }

  function SagaDomains(fs: seq<Factory>, syncOnly: bool): seq<string> {
    FirstOccurrences(FlatMap(SagaTargetsOf(syncOnly), fs))
  }

  function PmDomains(fs: seq<Factory>, syncOnly: bool): seq<string> {
    FirstOccurrences(FlatMap(PmTargetsOf(syncOnly), fs))
  }

  /** Some saga publishes to a target over the async bus. */
  predicate SagaHasAsyncOutputs(fs: seq<Factory>) {
    exists i | 0 <= i < |fs| :: fs[i].config.SagaConfig? && !fs[i].config.sync && fs[i].config.target != ""
  }

  /** Some process manager has a target outside its own sync targets. */
  predicate PmHasAsyncOutputs(fs: seq<Factory>) {
    exists i | 0 <= i < |fs| :: HasAsyncTarget(fs[i])
  }

  predicate HasAsyncTarget(f: Factory) {
    f.config.ProcessManagerConfig? &&
    exists t | t in f.config.targets :: t != "" && t !in f.config.syncTargets
  }

  /** The check `#[process_manager]` makes at compile time. */
  ghost predicate SyncTargetsDeclared(fs: seq<Factory>) {
    forall i, t :: 0 <= i < |fs| && fs[i].config.ProcessManagerConfig? && t in fs[i].config.syncTargets ==>
      t in fs[i].config.targets
  }

  // ------------------------------------------------------------------- Loops

  lemma FirstOccurrencesSnoc(xs: seq<string>, x: string)
    ensures FirstOccurrences(xs + [x]) ==
            if x in FirstOccurrences(xs) then FirstOccurrences(xs) else FirstOccurrences(xs) + [x]
  {
    assert (xs + [x])[..|xs|] == xs;
  }

  /** `SagaRouter::output_domains`, or `sync_output_domains` with `syncOnly`. */
  method CollectSagaDomains(fs: seq<Factory>, syncOnly: bool) returns (seen: seq<string>)
    ensures seen == SagaDomains(fs, syncOnly)
  {
    seen := [];
    for i := 0 to |fs|
      invariant seen == SagaDomains(fs[..i], syncOnly)
    {
      var f := fs[i];
      ghost var before := FlatMap(SagaTargetsOf(syncOnly), fs[..i]);
      assert fs[..i + 1] == fs[..i] + [f];
      FlatMapSnoc(SagaTargetsOf(syncOnly), fs[..i], f);
      assert before + [] == before;
      if f.config.SagaConfig? {
        FirstOccurrencesSnoc(before, f.config.target);
        if (f.config.sync || !syncOnly) && f.config.target != "" && f.config.target !in seen {
          seen := seen + [f.config.target];
        }
      }
    }
    assert fs[..|fs|] == fs;
  }

  /** The inner loop: push each non-empty target not seen yet. */
  method PushNew(seen0: seq<string>, targets: seq<string>, ghost before: seq<string>) returns (seen: seq<string>)
    requires seen0 == FirstOccurrences(before)
    ensures seen == FirstOccurrences(before + Filter(NonEmptyTargets(), targets))
  {
    seen := seen0;
    assert before + [] == before;
    for j := 0 to |targets|
      invariant seen == FirstOccurrences(before + Filter(NonEmptyTargets(), targets[..j]))
    {
      var t := targets[j];
      ghost var kept := Filter(NonEmptyTargets(), targets[..j]);
      assert targets[..j + 1] == targets[..j] + [t];
      FilterAppend(NonEmptyTargets(), targets[..j], [t]);
      assert Filter(NonEmptyTargets(), [t]) == if t != "" then [t] else [];
      assert kept + [] == kept && before + (kept + [t]) == (before + kept) + [t];
      FirstOccurrencesSnoc(before + kept, t);
      if t != "" && t !in seen {
        seen := seen + [t];
      }
    }
    assert targets[..|targets|] == targets;
  }

  /** `ProcessManagerRouter::output_domains`, or `sync_output_domains` with `syncOnly`. */
  method CollectPmDomains(fs: seq<Factory>, syncOnly: bool) returns (seen: seq<string>)
    ensures seen == PmDomains(fs, syncOnly)
  {
    seen := [];
    for i := 0 to |fs|
      invariant seen == PmDomains(fs[..i], syncOnly)
    {
      var f := fs[i];
      ghost var before := FlatMap(PmTargetsOf(syncOnly), fs[..i]);
      assert fs[..i + 1] == fs[..i] + [f];
      FlatMapSnoc(PmTargetsOf(syncOnly), fs[..i], f);
      assert before + [] == before;
      if f.config.ProcessManagerConfig? {
        seen := PushNew(seen, if syncOnly then f.config.syncTargets else f.config.targets, before);
      }
    }
    assert fs[..|fs|] == fs;
  }

  // ---------------------------------------------------------------- Coverage

  /** Domain lists repeat nothing and hold what their source lists hold. */
  lemma DomainLists(fs: seq<Factory>, syncOnly: bool)
    ensures NoDuplicates(SagaDomains(fs, syncOnly)) && NoDuplicates(PmDomains(fs, syncOnly))
    ensures forall t :: t in SagaDomains(fs, syncOnly) <==> t in FlatMap(SagaTargetsOf(syncOnly), fs)
    ensures forall t :: t in PmDomains(fs, syncOnly) <==> t in FlatMap(PmTargetsOf(syncOnly), fs)
  {
    FirstOccurrencesSpec(FlatMap(SagaTargetsOf(syncOnly), fs));
    FirstOccurrencesSpec(FlatMap(PmTargetsOf(syncOnly), fs));
  }

  /** The factory is a saga with this target. */
  predicate Targets(f: Factory, t: string) {
    f.config.SagaConfig? && f.config.target == t && t != ""
  }

  /** A domain is listed exactly when it is some saga's target, for the sync list some sync saga's. */
  lemma SagaListed(fs: seq<Factory>, syncOnly: bool, t: string)
    ensures t in SagaDomains(fs, syncOnly) <==>
            exists i :: 0 <= i < |fs| && Targets(fs[i], t) && (syncOnly ==> fs[i].config.sync)
  {
    DomainLists(fs, syncOnly);
    FlatMapMembers(SagaTargetsOf(syncOnly), fs);
    if i :| 0 <= i < |fs| && Targets(fs[i], t) && (syncOnly ==> fs[i].config.sync) {
      assert t in SagaTargetsOf(syncOnly)(fs[i]);
    }
  }

  lemma PmDomainMembers(fs: seq<Factory>, syncOnly: bool)
    ensures forall t :: t in PmDomains(fs, syncOnly) <==>
              exists i :: 0 <= i < |fs| && t in PmTargets(fs[i], syncOnly)
  {
    DomainLists(fs, syncOnly);
    FlatMapMembers(PmTargetsOf(syncOnly), fs);
    forall t
      ensures t in PmDomains(fs, syncOnly) <==> exists i :: 0 <= i < |fs| && t in PmTargets(fs[i], syncOnly)
    {
      if t in PmDomains(fs, syncOnly) {
        var i :| 0 <= i < |fs| && t in PmTargetsOf(syncOnly)(fs[i]);
      }
      if i :| 0 <= i < |fs| && t in PmTargets(fs[i], syncOnly) {
        assert t in PmTargetsOf(syncOnly)(fs[i]);
      }
    }
  }

  /** One domain: it is on the full list if on the sync list, and on both unless some saga is async. */
  lemma SagaDomainCases(fs: seq<Factory>, t: string)
    ensures t in SagaDomains(fs, true) ==> t in SagaDomains(fs, false)
    ensures t in SagaDomains(fs, false) ==> t in SagaDomains(fs, true) || SagaHasAsyncOutputs(fs)
  {
    SagaListed(fs, true, t);
    SagaListed(fs, false, t);
    if t in SagaDomains(fs, false) {
      var i :| 0 <= i < |fs| && Targets(fs[i], t);
      if fs[i].config.sync {
        assert t in SagaDomains(fs, true);
      }
    }
  }

  /** A saga's own target is on the full list. */
  lemma SagaTargetListed(fs: seq<Factory>, i: nat)
    requires i < |fs| && fs[i].config.SagaConfig?
    ensures fs[i].config.target in SagaDomains(fs, false) <==> fs[i].config.target != ""
  {
    SagaListed(fs, false, fs[i].config.target);
    assert fs[i].config.target != "" ==> Targets(fs[i], fs[i].config.target);
  }

  /**
   * Readiness covers every saga target: it is probed directly or the bus is watched. The sync list
   * is part of the full list, and all of it when nothing is async. Neither repeats a domain.
   */
  lemma SagaCoverage(fs: seq<Factory>)
    ensures forall i :: 0 <= i < |fs| && fs[i].config.SagaConfig? && fs[i].config.target != "" ==>
              fs[i].config.target in SagaDomains(fs, false) &&
              (fs[i].config.target in SagaDomains(fs, true) || SagaHasAsyncOutputs(fs))
    ensures forall t :: t in SagaDomains(fs, true) ==> t in SagaDomains(fs, false)
    ensures !SagaHasAsyncOutputs(fs) ==> forall t :: t in SagaDomains(fs, false) <==> t in SagaDomains(fs, true)
    ensures SagaHasAsyncOutputs(fs) <==>
            exists i :: 0 <= i < |fs| && fs[i].config.SagaConfig? && !fs[i].config.sync &&
                        fs[i].config.target in SagaDomains(fs, false)
    ensures NoDuplicates(SagaDomains(fs, false)) && NoDuplicates(SagaDomains(fs, true))
  {
    DomainLists(fs, false);
    DomainLists(fs, true);
    forall t
      ensures t in SagaDomains(fs, true) ==> t in SagaDomains(fs, false)
      ensures t in SagaDomains(fs, false) ==> t in SagaDomains(fs, true) || SagaHasAsyncOutputs(fs)
    {
      SagaDomainCases(fs, t);
    }
    forall i | 0 <= i < |fs| && fs[i].config.SagaConfig?
      ensures fs[i].config.target in SagaDomains(fs, false) <==> fs[i].config.target != ""
    {
      SagaTargetListed(fs, i);
    }
  }

  /** The same for process managers, whose sync targets are checked to be among their targets. */
  lemma PmCoverage(fs: seq<Factory>)
    requires SyncTargetsDeclared(fs)
    ensures forall i, t ::
              0 <= i < |fs| && fs[i].config.ProcessManagerConfig? && t in fs[i].config.targets && t != "" ==>
              t in PmDomains(fs, false) && (t in PmDomains(fs, true) || PmHasAsyncOutputs(fs))
    ensures forall t :: t in PmDomains(fs, true) ==> t in PmDomains(fs, false)
    ensures !PmHasAsyncOutputs(fs) ==> forall t :: t in PmDomains(fs, false) <==> t in PmDomains(fs, true)
    ensures PmHasAsyncOutputs(fs) <==>
            exists i, t :: 0 <= i < |fs| && fs[i].config.ProcessManagerConfig? && t in fs[i].config.targets &&
                           t !in fs[i].config.syncTargets && t in PmDomains(fs, false)
    ensures NoDuplicates(PmDomains(fs, false)) && NoDuplicates(PmDomains(fs, true))
  {
    PmDomainMembers(fs, false);
    PmDomainMembers(fs, true);
    DomainLists(fs, false);
    DomainLists(fs, true);
    forall i, t | 0 <= i < |fs| && fs[i].config.ProcessManagerConfig?
      ensures t in PmTargets(fs[i], false) <==> t in fs[i].config.targets && t != ""
      ensures t in PmTargets(fs[i], true) <==> t in fs[i].config.syncTargets && t != ""
    {
      FilterIdempotent(NonEmptyTargets(), fs[i].config.targets);
      FilterIdempotent(NonEmptyTargets(), fs[i].config.syncTargets);
    }
    forall i, t | 0 <= i < |fs| && t in PmTargets(fs[i], false)
      ensures t in PmTargets(fs[i], true) || PmHasAsyncOutputs(fs)
    {
      if t !in fs[i].config.syncTargets {
        assert HasAsyncTarget(fs[i]);
      }
    }
    forall i, t | 0 <= i < |fs| && t in PmTargets(fs[i], true) ensures t in PmTargets(fs[i], false) {
    }
  }

  /**
   * What the difference of the two lists sees: some domain is only on the full list if and only if
   * some target belongs to async sagas alone.
   */
  lemma SagaListsDifferExactly(fs: seq<Factory>)
    ensures (exists t :: t in SagaDomains(fs, false) && t !in SagaDomains(fs, true)) <==>
            exists i :: 0 <= i < |fs| && fs[i].config.SagaConfig? && fs[i].config.target != "" &&
                        OnlyAsync(fs, fs[i].config.target)
  {
    forall t ensures t in SagaDomains(fs, false) && t !in SagaDomains(fs, true) <==>
                     (exists i :: 0 <= i < |fs| && Targets(fs[i], t)) && OnlyAsync(fs, t)
    {
      SagaListed(fs, false, t);
      SagaListed(fs, true, t);
    }
    forall i | 0 <= i < |fs| && fs[i].config.SagaConfig? && fs[i].config.target != ""
      ensures Targets(fs[i], fs[i].config.target)
    {
    }
  }

  /** No sync saga has this target. */
  predicate OnlyAsync(fs: seq<Factory>, t: string) {
    forall i :: 0 <= i < |fs| && Targets(fs[i], t) ==> !fs[i].config.sync
  }

  /** The process-manager lists differ exactly by the targets that are sync targets of none of them. */
  lemma PmListsDifferExactly(fs: seq<Factory>, t: string)
    ensures t in PmDomains(fs, false) && t !in PmDomains(fs, true) <==>
            && t != ""
            && (exists i :: 0 <= i < |fs| && fs[i].config.ProcessManagerConfig? && t in fs[i].config.targets)
            && (forall i :: 0 <= i < |fs| && fs[i].config.ProcessManagerConfig? ==> t !in fs[i].config.syncTargets)
  {
    PmDomainMembers(fs, false);
    PmDomainMembers(fs, true);
    forall i | 0 <= i < |fs| && fs[i].config.ProcessManagerConfig?
      ensures t in PmTargets(fs[i], false) <==> t in fs[i].config.targets && t != ""
      ensures t in PmTargets(fs[i], true) <==> t in fs[i].config.syncTargets && t != ""
    {
      FilterIdempotent(NonEmptyTargets(), fs[i].config.targets);
      FilterIdempotent(NonEmptyTargets(), fs[i].config.syncTargets);
    }
  }

  lemma TwoSagas(f: Factory, g: Factory, syncOnly: bool)
    ensures FlatMap(SagaTargetsOf(syncOnly), [f, g]) == SagaTargets(f, syncOnly) + SagaTargets(g, syncOnly)
  {
    FlatMapSnoc(SagaTargetsOf(syncOnly), [f], g);
    FlatMapSnoc(SagaTargetsOf(syncOnly), [], f);
    assert [f] + [g] == [f, g] && [] + [f] == [f];
  }

  /**
   * Equal lists do not mean there is no async output: a sync and an async saga with one target give
   * the same list twice.
   */
  lemma EqualListsMayHideAsync(f: Factory, g: Factory)
    requires f.config.SagaConfig? && g.config.SagaConfig? && f.config.target == g.config.target != ""
    requires f.config.sync && !g.config.sync
    ensures SagaDomains([f, g], false) == SagaDomains([f, g], true) == [f.config.target]
    ensures SagaHasAsyncOutputs([f, g])
  {
    var target := f.config.target;
    TwoSagas(f, g, false);
    TwoSagas(f, g, true);
    FirstOccurrencesSnoc([], target);
    FirstOccurrencesSnoc([target], target);
    assert [] + [target] == [target];
    assert [f, g][1] == g;
  }
}
