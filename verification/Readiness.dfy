/** Readiness: probes, the supervisor loop, and its interleaving with the server's life. */
module Readiness {
  import opened Foundations

  datatype Status = Serving | NotServing

  /** How one probe's timed, unwind-caught check can end. */
  datatype ProbeOutcome = Healthy | Unhealthy | Panicked | TimedOut

  ghost predicate AllHealthy(outcomes: seq<ProbeOutcome>) {
    forall i :: 0 <= i < |outcomes| ==> outcomes[i].Healthy?
  }

  /** The status a tick with these outcomes publishes. */
  ghost function TickStatus(outcomes: seq<ProbeOutcome>): Status {
    if AllHealthy(outcomes) then Serving else NotServing
  }

  /** `statuses` after setting every listed name. */
  function SetAll(statuses: map<string, Status>, names: seq<string>, status: Status): map<string, Status> {
    if |names| == 0 then statuses
    else SetAll(statuses, names[..|names| - 1], status)[names[|names| - 1] := status]
  }

  ghost predicate AllAre(statuses: map<string, Status>, names: seq<string>, status: Status) {
    forall i :: 0 <= i < |names| ==> names[i] in statuses && statuses[names[i]] == status
  }

  lemma {:induction false} SetAllSpec(statuses: map<string, Status>, names: seq<string>, status: Status)
    ensures AllAre(SetAll(statuses, names, status), names, status)
    ensures forall n :: n !in names ==>
              (n in SetAll(statuses, names, status) <==> n in statuses) &&
              (n in statuses ==> SetAll(statuses, names, status)[n] == statuses[n])
  {
    if |names| > 0 {
      SetAllSpec(statuses, names[..|names| - 1], status);
      assert names == names[..|names| - 1] + [names[|names| - 1]];
    }
  }

  // -------------------------------------------------------- Transport signal

  class AtomicBool {
    var value: bool

    constructor ()
      ensures !value
    {
      value := false;
    }
  }

  /** The supervisor's end of the transport flag. */
  class TransportProbe {
    const bound: AtomicBool

    constructor (bound: AtomicBool)
      ensures this.bound == bound
    {
      this.bound := bound;
    }

    method Check() returns (outcome: ProbeOutcome)
      ensures outcome == if bound.value then Healthy else Unhealthy
    {
      outcome := if bound.value then Healthy else Unhealthy;
    }
  }

  /** The server's end of the same flag. */
  class TransportSignal {
    const bound: AtomicBool

    constructor (bound: AtomicBool)
      ensures this.bound == bound
    {
      this.bound := bound;
    }

    method MarkBound()
      modifies bound
      ensures bound.value
    {
      bound.value := true;
    }
  }

  /** `TransportProbe::new`: both ends share one flag, not yet set. */
  method NewTransport() returns (probe: TransportProbe, signal: TransportSignal)
    ensures fresh(probe) && fresh(signal) && fresh(probe.bound)
    ensures probe.bound == signal.bound && !probe.bound.value
  {
    var bound := new AtomicBool();
    probe := new TransportProbe(bound);
    signal := new TransportSignal(bound);
  }

  // ------------------------------------------------------- Sequential pieces

  class HealthReporter {
    var statuses: map<string, Status>

    method SetServiceStatus(name: string, status: Status)
      modifies this
      ensures statuses == old(statuses)[name := status]
    {
      statuses := statuses[name := status];
    }
  }

  /** A probe on the list: the transport flag, or a dependency whose check ends in the given way. */
  datatype Probe = Transport(probe: TransportProbe) | Dependency(outcome: ProbeOutcome)

  ghost predicate Watch(probes: seq<Probe>, flag: AtomicBool) {
    forall i :: 0 <= i < |probes| && probes[i].Transport? ==> probes[i].probe.bound == flag
  }

  ghost function Outcome(p: Probe, bound: bool): ProbeOutcome {
    match p
    case Transport(_) => if bound then Healthy else Unhealthy
    case Dependency(outcome) => outcome
  }

  /** How polling the list ends while the flag they watch has the given value. */
  ghost function Outcomes(probes: seq<Probe>, bound: bool): (outcomes: seq<ProbeOutcome>)
    ensures |outcomes| == |probes|
    ensures forall i :: 0 <= i < |probes| ==> outcomes[i] == Outcome(probes[i], bound)
  {
    seq(|probes|, i requires 0 <= i < |probes| => Outcome(probes[i], bound))
  }

  method Poll(p: Probe, ghost flag: AtomicBool) returns (outcome: ProbeOutcome)
    requires p.Transport? ==> p.probe.bound == flag
    ensures outcome == Outcome(p, flag.value)
  {
    match p {
      case Transport(probe) => outcome := probe.Check();
      case Dependency(o) => outcome := o;
    }
  }

  /** `supervisor_tick`: polls every probe, and is true exactly when all are healthy. */
  method SupervisorTick(probes: seq<Probe>, ghost flag: AtomicBool) returns (allOk: bool)
    requires Watch(probes, flag)
    ensures allOk <==> AllHealthy(Outcomes(probes, flag.value))
  {
    allOk := true;
    for i := 0 to |probes|
      invariant allOk <==> forall k :: 0 <= k < i ==> Outcome(probes[k], flag.value).Healthy?
    {
      var outcome := Poll(probes[i], flag);
      var ok := match outcome
        case Healthy => true
        case Unhealthy => false
        case Panicked => false
        case TimedOut => false;
      if !ok {
        allOk := false;
      }
    }
  }

  /** One turn of `run_supervisor`'s loop, undisturbed: tick, then publish to every name. */
  method SupervisorRound(reporter: HealthReporter, names: seq<string>, probes: seq<Probe>, ghost flag: AtomicBool)
    requires Watch(probes, flag)
    modifies reporter
    ensures reporter.statuses == SetAll(old(reporter.statuses), names, TickStatus(Outcomes(probes, flag.value)))
    ensures forall n :: n in names ==>
              && n in reporter.statuses
              && (reporter.statuses[n] == Serving <==>
                  forall i :: 0 <= i < |probes| ==>
                    match probes[i]
                    case Transport(_) => flag.value
                    case Dependency(outcome) => outcome == Healthy)
  {
    ghost var outcomes := Outcomes(probes, flag.value);
    SetAllSpec(reporter.statuses, names, TickStatus(outcomes));
    assert TickStatus(outcomes) == Serving <==> forall i :: 0 <= i < |probes| ==> outcomes[i] == Healthy;
    var allOk := SupervisorTick(probes, flag);
    var status := if allOk then Serving else NotServing;
    PublishAll(reporter, names, status);
  }

  /** A status set on each name in turn. */
  method PublishAll(reporter: HealthReporter, names: seq<string>, status: Status)
    modifies reporter
    ensures reporter.statuses == SetAll(old(reporter.statuses), names, status)
  {
    for i := 0 to |names|
      invariant reporter.statuses == SetAll(old(reporter.statuses), names[..i], status)
    {
      assert names[..i + 1][..i] == names[..i];
      reporter.SetServiceStatus(names[i], status);
    }
    assert names[..|names|] == names;
  }

  /** `publish_shutdown_status`: every registered name ends NOT_SERVING, other names are untouched. */
  method PublishShutdownStatus(reporter: HealthReporter, names: seq<string>)
    modifies reporter
    ensures reporter.statuses == SetAll(old(reporter.statuses), names, NotServing)
    ensures AllAre(reporter.statuses, names, NotServing)
    ensures forall n :: n !in names ==>
              (n in reporter.statuses <==> n in old(reporter.statuses)) &&
              (n in reporter.statuses ==> reporter.statuses[n] == old(reporter.statuses)[n])
  {
    PublishAll(reporter, names, NotServing);
    SetAllSpec(old(reporter.statuses), names, NotServing);
  }

  // -------------------------------------------------------- The two tasks

  /** Where `run_kind` stands. Each constructor is a point between two of its effects. */
  datatype Server =
    | Initialising(next: nat)  // setting name `next` to NOT_SERVING
    | Starting                 // supervisor spawned, transport not yet marked bound
    | Accepting                // mark_bound done, inside serve
    | Returned                 // serve came back
    | Joining                  // abort requested, awaiting the supervisor task
    | Publishing(next: nat)    // shutdown publish of name `next`
    | Done                     // run_kind has returned
    | Lost                     // bind or address panic, or the run_kind future dropped: it never returns

  /** Where the supervisor task stands. */
  datatype Supervisor =
    | NotSpawned
    | Probing(outcomes: seq<ProbeOutcome>)              // probes polled so far this tick
    | Writing(next: nat, outcomes: seq<ProbeOutcome>)   // tick decided, publishing name `next`
    | Sleeping(outcomes: seq<ProbeOutcome>)
    | Gone

  /** The names to publish and the number of probes; probe 0 is the transport probe. */
  datatype Setup = Setup(names: seq<string>, probes: nat)

  datatype State = State(
    server: Server,
    supervisor: Supervisor,
    bound: bool,
    abortRequested: bool,
    statuses: map<string, Status>)

  /** The statuses a new reporter holds are its library's choice, for the names published here at most. */
  ghost predicate Init(c: Setup, s: State) {
    && c.probes >= 1
    && s == State(Initialising(0), NotSpawned, false, false, s.statuses)
    && OnlyNamed(c, s)
  }

  ghost predicate OnlyNamed(c: Setup, s: State) {
    forall n :: n in s.statuses ==> n in c.names
  }

  ghost predicate NoneServing(s: State) {
    forall n :: n in s.statuses ==> s.statuses[n] != Serving
  }

  ghost predicate ServerStep(c: Setup, s: State, t: State) {
    match s.server
    case Initialising(k) =>
      if k < |c.names|
      then t == s.(server := Initialising(k + 1), statuses := s.statuses[c.names[k] := NotServing])
      else t == s.(server := Starting, supervisor := Probing([]))
    case Starting => MarksBound(s, t)
    case Accepting => t == s.(server := Returned)
    case Returned => t == s.(server := Joining, abortRequested := true)
    case Joining => s.supervisor.Gone? && t == s.(server := Publishing(0))
    case Publishing(k) =>
      if k < |c.names|
      then t == s.(server := Publishing(k + 1), statuses := s.statuses[c.names[k] := NotServing])
      else t == s.(server := Done)
    case Done => false
    case Lost => false
  }

  /** `transport_signal.mark_bound()`. */
  ghost predicate MarksBound(s: State, t: State) {
    s.server.Starting? && t == s.(server := Accepting, bound := true)
  }

  /** Before it returns, `run_kind` may panic or be dropped at any point; the supervisor is then on its own. */
  ghost predicate LossStep(s: State, t: State) {
    !s.server.Done? && !s.server.Lost? && t == s.(server := Lost)
  }

  ghost predicate SupervisorStep(c: Setup, s: State, t: State) {
    match s.supervisor
    case NotSpawned => false
    case Probing(outcomes) =>
      if |outcomes| < c.probes
      then exists o :: ProbeEnds(s, |outcomes|, o) && t == s.(supervisor := Probing(outcomes + [o]))
      else t == s.(supervisor := Writing(0, outcomes))
    case Writing(k, outcomes) =>
      if k < |c.names|
      then t == s.(supervisor := Writing(k + 1, outcomes),
                   statuses := s.statuses[c.names[k] := TickStatus(outcomes)])
      else t == s.(supervisor := Sleeping(outcomes))
    case Sleeping(_) => t == s.(supervisor := Probing([]))
    case Gone => false
  }

  /** Probe 0 loads the shared flag; any other probe may end in any way. */
  ghost predicate ProbeEnds(s: State, probe: nat, o: ProbeOutcome) {
    probe == 0 ==> o == if s.bound then Healthy else Unhealthy
  }

  /** Once abort is requested the task may be dropped at whatever await point it has reached. */
  ghost predicate AbortStep(s: State, t: State) {
    s.abortRequested && !s.supervisor.NotSpawned? && !s.supervisor.Gone? && t == s.(supervisor := Gone)
  }

  ghost predicate Step(c: Setup, s: State, t: State) {
    ServerStep(c, s, t) || LossStep(s, t) || SupervisorStep(c, s, t) || AbortStep(s, t)
  }

  /** A run: any interleaving of the two tasks from the start. */
  ghost predicate Run(c: Setup, run: seq<State>) {
    && |run| > 0
    && Init(c, run[0])
    && forall i :: 0 <= i < |run| - 1 ==> Step(c, run[i], run[i + 1])
  }

  // -------------------------------------------------------------- Invariant

  /** A tick that found every probe healthy found the transport bound. */
  ghost predicate SawTransport(s: State, outcomes: seq<ProbeOutcome>) {
    |outcomes| > 0 && outcomes[0].Healthy? ==> s.bound
  }

  ghost predicate ServerInv(c: Setup, s: State) {
    match s.server
    case Initialising(k) =>
      s.supervisor.NotSpawned? && !s.bound && !s.abortRequested && k <= |c.names| &&
      AllAre(s.statuses, c.names[..k], NotServing) && OnlyNamed(c, s)
    case Starting => !s.supervisor.NotSpawned? && !s.bound && !s.abortRequested
    case Accepting => !s.supervisor.NotSpawned? && s.bound && !s.abortRequested
    case Returned => !s.supervisor.NotSpawned? && s.bound && !s.abortRequested
    case Joining => !s.supervisor.NotSpawned? && s.bound && s.abortRequested
    case Publishing(k) =>
      s.supervisor.Gone? && s.bound && k <= |c.names| && AllAre(s.statuses, c.names[..k], NotServing)
    case Done => s.supervisor.Gone? && AllAre(s.statuses, c.names, NotServing)
    case Lost => true
  }

  ghost predicate SupervisorInv(c: Setup, s: State) {
    match s.supervisor
    case NotSpawned => true
    case Probing(outcomes) => |outcomes| <= c.probes && SawTransport(s, outcomes)
    case Writing(k, outcomes) =>
      |outcomes| == c.probes && SawTransport(s, outcomes) && k <= |c.names| &&
      AllAre(s.statuses, c.names[..k], TickStatus(outcomes))
    case Sleeping(outcomes) =>
      |outcomes| == c.probes && SawTransport(s, outcomes) && AllAre(s.statuses, c.names, TickStatus(outcomes))
    case Gone => s.abortRequested
  }

  ghost predicate ServingOnlyBound(s: State) {
    s.supervisor.NotSpawned? || s.bound || NoneServing(s)
  }

  ghost predicate Inv(c: Setup, s: State) {
    c.probes >= 1 && ServerInv(c, s) && SupervisorInv(c, s) && ServingOnlyBound(s)
  }

  lemma WriteExtends(c: Setup, statuses: map<string, Status>, k: nat, status: Status)
    requires k < |c.names| && AllAre(statuses, c.names[..k], status)
    ensures AllAre(statuses[c.names[k] := status], c.names[..k + 1], status)
  {
  }

  lemma ServerStepKeepsInv(c: Setup, s: State, t: State)
    requires Inv(c, s) && ServerStep(c, s, t)
    ensures Inv(c, t)
  {
    match s.server {
      case Initialising(k) =>
        if k < |c.names| {
          WriteExtends(c, s.statuses, k, NotServing);
        } else {
          assert c.names[..k] == c.names;
        }
      case Publishing(k) =>
        if k < |c.names| {
          WriteExtends(c, s.statuses, k, NotServing);
        } else {
          assert c.names[..k] == c.names;
        }
      case _ =>
    }
  }

  lemma SupervisorStepKeepsInv(c: Setup, s: State, t: State)
    requires Inv(c, s) && SupervisorStep(c, s, t)
    ensures Inv(c, t)
  {
    match s.supervisor {
      case Writing(k, outcomes) =>
        if k < |c.names| {
          WriteExtends(c, s.statuses, k, TickStatus(outcomes));
        } else {
          assert c.names[..k] == c.names;
        }
      case _ =>
    }
  }

  lemma StepKeepsInv(c: Setup, s: State, t: State)
    requires Inv(c, s) && Step(c, s, t)
    ensures Inv(c, t)
  {
    if ServerStep(c, s, t) {
      ServerStepKeepsInv(c, s, t);
    } else if SupervisorStep(c, s, t) {
      SupervisorStepKeepsInv(c, s, t);
    }
  }

  lemma {:induction false} RunKeepsInv(c: Setup, run: seq<State>, i: nat)
    requires Run(c, run) && i < |run|
    ensures Inv(c, run[i])
  {
    if i > 0 {
      RunKeepsInv(c, run, i - 1);
      StepKeepsInv(c, run[i - 1], run[i]);
    }
  }

  // ------------------------------------------------------------ Safety of runs

  /** The flag is set by one step of the server and by no other. */
  lemma {:induction false} BoundWasMarked(c: Setup, run: seq<State>, i: nat) returns (j: nat)
    requires Run(c, run) && i < |run| && run[i].bound
    ensures j < i && MarksBound(run[j], run[j + 1])
  {
    if run[i - 1].bound {
      j := BoundWasMarked(c, run, i - 1);
    } else {
      j := i - 1;
      assert Step(c, run[j], run[j + 1]);
    }
  }

  /** A reporter that starts without SERVING shows none before the supervisor exists either. */
  lemma {:induction false} QuietStart(c: Setup, run: seq<State>, i: nat)
    requires Run(c, run) && i < |run| && NoneServing(run[0]) && run[i].supervisor.NotSpawned?
    ensures NoneServing(run[i])
  {
    if i > 0 {
      assert Step(c, run[i - 1], run[i]);
      QuietStart(c, run, i - 1);
    }
  }

  /**
   * Safety over every run, whatever the interleaving: from the moment the supervisor exists, and
   * from the very start with a reporter that begins without it, a name is SERVING only after
   * `mark_bound`; at each supervisor sleep every name shows the conjunction of that tick's probes; and a run that
   * has returned leaves every name NOT_SERVING.
   */
  lemma ReadinessSafety(c: Setup, run: seq<State>, i: nat)
    requires Run(c, run) && i < |run|
    ensures !NoneServing(run[i]) && (!run[i].supervisor.NotSpawned? || NoneServing(run[0])) ==>
              exists j :: 0 <= j < i && MarksBound(run[j], run[j + 1])
    ensures run[i].supervisor.Sleeping? ==>
              AllAre(run[i].statuses, c.names, TickStatus(run[i].supervisor.outcomes)) &&
              |run[i].supervisor.outcomes| == c.probes
    ensures run[i].supervisor.Sleeping? ==>
              forall n :: n in c.names ==>
                && n in run[i].statuses
                && (run[i].statuses[n] == Serving <==>
                    forall p :: 0 <= p < |run[i].supervisor.outcomes| ==> run[i].supervisor.outcomes[p] == Healthy)
    ensures run[i].server.Done? ==> AllAre(run[i].statuses, c.names, NotServing) && run[i].supervisor.Gone?
  {
    RunKeepsInv(c, run, i);
    if run[i].bound {
      var j := BoundWasMarked(c, run, i);
    } else if run[i].supervisor.NotSpawned? && NoneServing(run[0]) {
      QuietStart(c, run, i);
    }
  }

  /** After the return nothing moves any more: the statuses stay as published. */
  lemma ReturnIsFinal(c: Setup, run: seq<State>, i: nat)
    requires Run(c, run) && i < |run| && run[i].server.Done?
    ensures i == |run| - 1
  {
    RunKeepsInv(c, run, i);
    assert i < |run| - 1 ==> Step(c, run[i], run[i + 1]);
  }

  // ------------------------------------------------------ Steps and methods agree

  /** A path of steps, from any state. */
  ghost predicate Path(c: Setup, path: seq<State>) {
    |path| > 0 && forall i :: 0 <= i < |path| - 1 ==> Step(c, path[i], path[i + 1])
  }

  lemma Extend(c: Setup, path: seq<State>, t: State)
    requires Path(c, path) && Step(c, path[|path| - 1], t)
    ensures Path(c, path + [t])
  {
    var longer := path + [t];
    forall i | 0 <= i < |longer| - 1 ensures Step(c, longer[i], longer[i + 1]) {
      if i < |path| - 1 {
        assert Step(c, path[i], path[i + 1]);
      }
    }
  }

  lemma {:induction false} ProbeSteps(c: Setup, s: State, outcomes: seq<ProbeOutcome>) returns (path: seq<State>)
    requires s.supervisor == Probing([]) && |outcomes| <= c.probes
    requires |outcomes| > 0 ==> ProbeEnds(s, 0, outcomes[0])
    ensures Path(c, path) && path[0] == s && path[|path| - 1] == s.(supervisor := Probing(outcomes))
  {
    if |outcomes| == 0 {
      path := [s];
    } else {
      var init, last := outcomes[..|outcomes| - 1], outcomes[|outcomes| - 1];
      path := ProbeSteps(c, s, init);
      var before, after := s.(supervisor := Probing(init)), s.(supervisor := Probing(outcomes));
      assert outcomes == init + [last];
      assert ProbeEnds(before, |init|, last);
      assert SupervisorStep(c, before, after);
      Extend(c, path, after);
      path := path + [after];
    }
  }

  lemma {:induction false} WriteSteps(c: Setup, s: State, outcomes: seq<ProbeOutcome>, k: nat)
    returns (path: seq<State>)
    requires s.supervisor == Writing(0, outcomes) && k <= |c.names|
    ensures Path(c, path) && path[0] == s
    ensures path[|path| - 1] == s.(supervisor := Writing(k, outcomes),
                                   statuses := SetAll(s.statuses, c.names[..k], TickStatus(outcomes)))
  {
    if k == 0 {
      path := [s];
    } else {
      path := WriteSteps(c, s, outcomes, k - 1);
      assert c.names[..k][..k - 1] == c.names[..k - 1];
      var before := path[|path| - 1];
      var after := before.(supervisor := Writing(k, outcomes),
                           statuses := before.statuses[c.names[k - 1] := TickStatus(outcomes)]);
      assert SupervisorStep(c, before, after);
      Extend(c, path, after);
      path := path + [after];
    }
  }

  lemma Chain(c: Setup, p: seq<State>, q: seq<State>)
    requires Path(c, p) && Path(c, q) && Step(c, p[|p| - 1], q[0])
    ensures Path(c, p + q)
  {
    var r := p + q;
    forall i | 0 <= i < |r| - 1 ensures Step(c, r[i], r[i + 1]) {
      if i < |p| - 1 {
        assert Step(c, p[i], p[i + 1]);
      } else if i >= |p| {
        assert Step(c, q[i - |p|], q[i - |p| + 1]);
      }
    }
  }

  /**
   * The steps and the loop agree: left alone, the supervisor's steps take it through a whole round
   * to its sleep, with the statuses the sequential round computes.
   */
  lemma RoundIsSteps(c: Setup, s: State, outcomes: seq<ProbeOutcome>) returns (path: seq<State>)
    requires s.supervisor == Probing([]) && |outcomes| == c.probes >= 1 && ProbeEnds(s, 0, outcomes[0])
    ensures Path(c, path) && path[0] == s
    ensures path[|path| - 1] == s.(supervisor := Sleeping(outcomes),
                                   statuses := SetAll(s.statuses, c.names, TickStatus(outcomes)))
  {
    var probed := ProbeSteps(c, s, outcomes);
    var written := WriteSteps(c, s.(supervisor := Writing(0, outcomes)), outcomes, |c.names|);
    assert c.names[..|c.names|] == c.names;
    Chain(c, probed, written);
    path := probed + written;
    var last := path[|path| - 1];
    var asleep := last.(supervisor := Sleeping(outcomes));
    assert SupervisorStep(c, last, asleep);
    Extend(c, path, asleep);
    path := path + [asleep];
  }

  lemma {:induction false} ShutdownWrites(c: Setup, s: State, k: nat) returns (path: seq<State>)
    requires s.server == Publishing(0) && k <= |c.names|
    ensures Path(c, path) && path[0] == s
    ensures path[|path| - 1] == s.(server := Publishing(k), statuses := SetAll(s.statuses, c.names[..k], NotServing))
  {
    if k == 0 {
      path := [s];
    } else {
      path := ShutdownWrites(c, s, k - 1);
      assert c.names[..k][..k - 1] == c.names[..k - 1];
      var before := path[|path| - 1];
      var after := before.(server := Publishing(k), statuses := before.statuses[c.names[k - 1] := NotServing]);
      assert ServerStep(c, before, after);
      Extend(c, path, after);
      path := path + [after];
    }
  }

  /**
   * Shutdown can always finish: from any state a run can reach in which `serve` has come back and
   * the abort is requested, wherever the supervisor is, there is a way to the return.
   */
  lemma ShutdownCanFinish(c: Setup, s: State) returns (path: seq<State>)
    requires Inv(c, s) && s.server.Joining?
    ensures Path(c, path) && path[0] == s && path[|path| - 1].server.Done?
    ensures path[|path| - 1].statuses == SetAll(s.statuses, c.names, NotServing)
  {
    path := [s];
    var gone := s.(supervisor := Gone);
    if !s.supervisor.Gone? {
      assert AbortStep(s, gone);
      Extend(c, path, gone);
      path := path + [gone];
    }
    var published := ShutdownWrites(c, gone.(server := Publishing(0)), |c.names|);
    assert ServerStep(c, gone, published[0]);
    Chain(c, path, published);
    path := path + published;
    assert c.names[..|c.names|] == c.names;
    var last := path[|path| - 1];
    var done := last.(server := Done);
    assert ServerStep(c, last, done);
    Extend(c, path, done);
    path := path + [done];
  }

  // -------------------------------------------------- `run_kind`, scheduled

  /** Two paths that meet. */
  lemma Join(c: Setup, p: seq<State>, q: seq<State>)
    requires Path(c, p) && Path(c, q) && p[|p| - 1] == q[0]
    ensures Path(c, p + q[1..]) && (p + q[1..])[|p + q[1..]| - 1] == q[|q| - 1]
  {
    if |q| > 1 {
      assert Path(c, q[1..]) by {
        forall i | 0 <= i < |q[1..]| - 1 ensures Step(c, q[1..][i], q[1..][i + 1]) {
          assert Step(c, q[i + 1], q[i + 2]);
        }
      }
      assert Step(c, q[0], q[1]);
      Chain(c, p, q[1..]);
    }
  }

  lemma {:induction false} InitWrites(c: Setup, s: State, k: nat) returns (path: seq<State>)
    requires s.server == Initialising(0) && k <= |c.names|
    ensures Path(c, path) && path[0] == s
    ensures path[|path| - 1] == s.(server := Initialising(k), statuses := SetAll(s.statuses, c.names[..k], NotServing))
  {
    if k == 0 {
      path := [s];
    } else {
      path := InitWrites(c, s, k - 1);
      assert c.names[..k][..k - 1] == c.names[..k - 1];
      var before := path[|path| - 1];
      var after := before.(server := Initialising(k), statuses := before.statuses[c.names[k - 1] := NotServing]);
      assert ServerStep(c, before, after);
      Extend(c, path, after);
      path := path + [after];
    }
  }

  /** The probe list of a tick: the transport probe first, then the dependencies. */
  function ProbeList(transport: TransportProbe, dependencies: seq<ProbeOutcome>): (probes: seq<Probe>)
    ensures |probes| == 1 + |dependencies| && probes[0] == Transport(transport)
    ensures forall i :: 0 <= i < |dependencies| ==> probes[i + 1] == Dependency(dependencies[i])
  {
    [Transport(transport)] + seq(|dependencies|, i requires 0 <= i < |dependencies| => Dependency(dependencies[i]))
  }

  /** The supervisor's loop for some rounds: its writes are the steps of a path. */
  method SupervisorRounds(ghost c: Setup, reporter: HealthReporter, names: seq<string>, transport: TransportProbe,
                          rounds: seq<seq<ProbeOutcome>>, ghost path0: seq<State>)
    returns (ghost path: seq<State>)
    requires c.names == names && forall i :: 0 <= i < |rounds| ==> |rounds[i]| + 1 == c.probes
    requires Path(c, path0) && path0[|path0| - 1].supervisor == Probing([])
    requires path0[|path0| - 1].bound == transport.bound.value && path0[|path0| - 1].statuses == reporter.statuses
    modifies reporter
    ensures Path(c, path) && path[0] == path0[0]
    ensures path[|path| - 1] == path0[|path0| - 1].(statuses := reporter.statuses)
  {
    path := path0;
    for i := 0 to |rounds|
      invariant Path(c, path) && path[0] == path0[0]
      invariant path[|path| - 1] == path0[|path0| - 1].(statuses := reporter.statuses)
    {
      var probes := ProbeList(transport, rounds[i]);
      ghost var outcomes := Outcomes(probes, transport.bound.value);
      ghost var s := path[|path| - 1];
      SupervisorRound(reporter, names, probes, transport.bound);
      ghost var steps := RoundIsSteps(c, s, outcomes);
      Join(c, path, steps);
      path := path + steps[1..];
      ghost var asleep := path[|path| - 1];
      ghost var awake := asleep.(supervisor := Probing([]));
      assert SupervisorStep(c, asleep, awake);
      Extend(c, path, awake);
      path := path + [awake];
    }
  }

  /**
   * `run_kind` under one schedule: the supervisor completes the `early` rounds before the transport
   * is marked bound and the `late` ones while it serves; then the shutdown. What it does to the flag
   * and to the reporter is a run of the protocol, from its start to its return.
   */
  method RunKind(reporter: HealthReporter, names: seq<string>, ghost dependencies: nat,
                 early: seq<seq<ProbeOutcome>>, late: seq<seq<ProbeOutcome>>)
    returns (ghost run: seq<State>)
    requires forall n :: n in reporter.statuses ==> n in names
    requires forall i :: 0 <= i < |early| ==> |early[i]| == dependencies
    requires forall i :: 0 <= i < |late| ==> |late[i]| == dependencies
    modifies reporter
    ensures Run(Setup(names, dependencies + 1), run)
    ensures run[0].statuses == old(reporter.statuses) && run[|run| - 1].statuses == reporter.statuses
    ensures run[|run| - 1].server.Done?
    ensures AllAre(reporter.statuses, names, NotServing)
  {
    ghost var c := Setup(names, dependencies + 1);
    ghost var s := State(Initialising(0), NotSpawned, false, false, reporter.statuses);
    PublishAll(reporter, names, NotServing);
    run := InitWrites(c, s, |names|);
    assert names[..|names|] == names;
    var transport, signal := NewTransport();
    run := Then(c, run, run[|run| - 1].(server := Starting, supervisor := Probing([])));
    run := SupervisorRounds(c, reporter, names, transport, early, run);
    signal.MarkBound();
    run := Then(c, run, run[|run| - 1].(server := Accepting, bound := true));
    run := SupervisorRounds(c, reporter, names, transport, late, run);
    run := Then(c, run, run[|run| - 1].(server := Returned));
    run := Then(c, run, run[|run| - 1].(server := Joining, abortRequested := true));
    assert Run(c, run);
    RunKeepsInv(c, run, |run| - 1);
    ghost var shutdown := ShutdownCanFinish(c, run[|run| - 1]);
    Join(c, run, shutdown);
    run := run + shutdown[1..];
    PublishShutdownStatus(reporter, names);
  }

  lemma Then(c: Setup, path: seq<State>, t: State) returns (longer: seq<State>)
    requires Path(c, path) && Step(c, path[|path| - 1], t)
    ensures Path(c, longer) && longer == path + [t] && longer[0] == path[0] && longer[|longer| - 1] == t
  {
    Extend(c, path, t);
    longer := path + [t];
  }
}
