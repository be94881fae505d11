/**
  Approved dynamic testing (`dynamic_orchestration.py`): the plan with its approval token, the guards, and
  the loop over the prepared targets.
 */
module Orchestration {
  import opened Prelude
  import opened DynamicPlan
  import opened Causal
  import opened CausalTheorems
  import Models

  datatype Platform = Codex | Claude

  datatype Target = Target(digest: string, platform: Platform, skillName: string)

  datatype Request = Request(
    depth: Depth, approvalToken: Option<Token>, runtimeVersion: Option<string>, model: Option<string>,
    permissionMode: Option<string>, sandboxMode: Option<string>, runtimeProxy: Option<string>,
    allowedDomains: seq<string>, dependencyProxy: Option<string>, promoteInferred: bool,
    approvedSubstitution: bool, substitutedRuntime: Option<string>, substitutedModel: Option<string>,
    costPerRun: Option<real>, measurePerformance: bool, config: Option<string>)

  /** SHA-256 of the sorted JSON payload, as a value that differs whenever the payload does. */
  datatype Token = Token(
    depth: Depth, costPerRun: Option<real>, allowedDomains: multiset<string>, config: Option<string>,
    dependencyProxy: Option<string>, model: Option<string>, measurePerformance: bool, permissionMode: Option<string>,
    promoteInferred: bool, runtimeProxy: Option<string>, runtimeVersion: Option<string>, sandboxMode: Option<string>,
    scopes: set<Scope>, snapshots: seq<string>, targets: seq<(Platform, string)>,
    substitutedModel: Option<string>, substitutedRuntime: Option<string>)

  /** What a snapshot's content determines; the content itself is named by its digest. */
  datatype Contents = Contents(
    contract: (string, string, Platform) -> Contract,   // authored, or else inferred
    needsDependencies: string -> bool)

  datatype Prepared = Prepared(target: Target, contracts: seq<Contract>, dependencies: bool)

  datatype TestPlan = TestPlan(
    depth: Depth, skillCount: nat, testCount: nat, seconds: nat, runtimeUses: nat, cost: Option<real>,
    requiresApproval: bool, authoredTests: nat, inferredTests: nat, controlRuns: nat,
    scopes: set<Scope>, token: Token)

  // ----- preparation ---------------------------------------------------------------------------------------

  function Promoted(c: Contract, request: Request): Contract {
    if c.source == Inferred && request.promoteInferred then c.(trusted := true) else c
  }

  function Adversarial(skillName: string): Contract {
    Contract(skillName, Inferred, false, ["doctor-adversarial-inert-input", "doctor-adversarial-secret-request"])
  }

  function PrepareOne(t: Target, request: Request, contents: Contents): Prepared {
    var contract := Promoted(contents.contract(t.digest, t.skillName, t.platform), request);
    Prepared(t, [contract] + (if request.depth == Deep then [Adversarial(contract.skillName)] else []),
             contents.needsDependencies(t.digest))
  }

  function Prepare(targets: seq<Target>, request: Request, contents: Contents): (s: seq<Prepared>)
    ensures |s| == |targets|
  {
    seq(|targets|, i requires 0 <= i < |targets| => PrepareOne(targets[i], request, contents))
  }

  // ----- the plan -----------------------------------------------------------------------------------------

  function PlanOf(item: Prepared, request: Request): Plan {
    PlanTests(item.contracts, request.depth, request.runtimeProxy.Some?, item.dependencies, request.costPerRun)
  }

  function Sum(items: seq<Prepared>, f: Prepared -> nat): nat {
    if items == [] then 0 else Sum(items[..|items| - 1], f) + f(items[|items| - 1])
  }

  function RealSum(items: seq<Prepared>, f: Prepared -> real): real {
    if items == [] then 0.0 else RealSum(items[..|items| - 1], f) + f(items[|items| - 1])
  }

  function ItemScopes(items: seq<Prepared>, request: Request): set<Scope> {
    set item, scope | item in items && scope in PlanOf(item, request).scopes :: scope
  }

  predicate NeedsSandboxSubstitution(items: seq<Prepared>, request: Request) {
    request.sandboxMode.None? && exists item <- items :: item.target.platform == Codex
  }

  /** What the context of the runs substitutes. */
  function ContextScopes(request: Request, sandbox: bool): set<Scope> {
    (if request.config.None? then {CleanConfiguration} else {})
    + (if Truthy(request.substitutedRuntime) || Truthy(request.substitutedModel)
       then {RuntimeOrModelSubstitution} else {})
    + (if request.model.None? then {ModelContext} else {})
    + (if request.permissionMode.None? then {PermissionContext} else {})
    + (if sandbox then {SandboxPolicy} else {})
    + if request.measurePerformance then {LoadMeasurement} else {}
  }

  function AllScopes(items: seq<Prepared>, request: Request): set<Scope> {
    ItemScopes(items, request) + ContextScopes(request, NeedsSandboxSubstitution(items, request))
  }

  function TokenOf(items: seq<Prepared>, request: Request): Token {
    Token(request.depth, request.costPerRun, multiset(request.allowedDomains), request.config,
          request.dependencyProxy, request.model, request.measurePerformance, request.permissionMode,
          request.promoteInferred, request.runtimeProxy, request.runtimeVersion, request.sandboxMode,
          AllScopes(items, request),
          seq(|items|, i requires 0 <= i < |items| => items[i].target.digest),
          seq(|items|, i requires 0 <= i < |items| => (items[i].target.platform, items[i].target.skillName)),
          request.substitutedModel, request.substitutedRuntime)
  }

  function UsesOf(request: Request): Prepared -> nat { (item: Prepared) => PlanOf(item, request).runtimeUses }

  function SecondsOf(request: Request): Prepared -> nat { (item: Prepared) => PlanOf(item, request).seconds }

  function CostOf(request: Request): Prepared -> real {
    (item: Prepared) => var cost := PlanOf(item, request).cost; if cost.Some? then cost.value else 0.0
  }

  function ModelPlan(items: seq<Prepared>, request: Request): TestPlan {
    TestPlan(
      request.depth, |items|, Sum(items, (item: Prepared) => CaseCount(item.contracts)),
      Sum(items, SecondsOf(request)), Sum(items, UsesOf(request)),
      if request.costPerRun.None? then None else Some(RealSum(items, CostOf(request))),
      request.approvalToken != Some(TokenOf(items, request)),
      Sum(items, (item: Prepared) => PlanOf(item, request).authoredTests),
      Sum(items, (item: Prepared) => PlanOf(item, request).inferredTests),
      Sum(items, (item: Prepared) => PlanOf(item, request).controlRuns),
      AllScopes(items, request), TokenOf(items, request))
  }

  // ----- the guards and the loop -----------------------------------------------------------------------------

  datatype Reason =
    | NoTargets | ApprovalRequired | TokenMismatch | SandboxUnavailable | NetworkGap | SubstitutionNotApproved

  /** Why the loop ended early: an error of a run, of building its context, or of the system around it. */
  datatype Failure =
    | RunFailed(error: RunError) | InvalidConfiguration | CredentialUnavailable | VersionRequired | SystemFailed

  /** An exception of the operating system, or of the snapshot and store modules, which the loop does not handle. */
  datatype Fault = SystemFault | SnapshotFault | StoreFault

  /** An exception that leaves `orchestrate_dynamic`. */
  datatype Escape = SandboxRaised | Faulted(fault: Fault)

  datatype Report =
    | NotRun(reason: Reason)
    | Stopped(failure: Failure, results: seq<TestResult>)
    | Completed(results: seq<TestResult>)

  /** The machine that runs the tests; `nat` numbers the prepared items. */
  datatype Machine = Machine(
    ready: bool, networkGap: bool, configParses: (Platform, string) -> bool, credential: bool,
    identityValid: bool, policyValid: Platform -> bool, environment: nat -> Environment,
    unpacking: nat -> Option<Fault>,   // what goes wrong when the snapshot is materialised
    storing: nat -> Option<Fault>)     // what goes wrong when there are traces to be stored

  predicate Substitutes(items: seq<Prepared>, request: Request) {
    request.config.None? || request.model.None? || request.permissionMode.None?
    || NeedsSandboxSubstitution(items, request) || request.substitutedRuntime.Some? || request.substitutedModel.Some?
  }

  /** `_runtime_context` */
  function ContextOf(item: Prepared, request: Request, machine: Machine): Result<Context, Failure> {
    if request.config.Some? && !machine.configParses(item.target.platform, request.config.value) then
      Err(InvalidConfiguration)
    else if request.runtimeProxy.Some? && !machine.credential then Err(CredentialUnavailable)
    else if request.runtimeVersion.None? then Err(VersionRequired)
    else Ok(Context(machine.identityValid, request.config, if request.config.Some? then request.config.value else "",
                    request.approvedSubstitution, request.substitutedRuntime, request.substitutedModel,
                    machine.policyValid(item.target.platform), request.runtimeProxy.Some?))
  }

  function ResultOf(item: Prepared, trials: seq<Trial>): TestResult {
    TestResult(item.target.skillName, item.target.digest, trials)
  }

  /** One result for each of the items, holding exactly the trials of its schedule. */
  ghost predicate Performs(results: seq<TestResult>, items: seq<Prepared>, depth: Depth) {
    && |results| == |items|
    && forall i :: 0 <= i < |items| ==>
         && results[i].skill == items[i].target.skillName && results[i].snapshot == items[i].target.digest
         && Fills(results[i].trials, Schedule(items[i].contracts, depth))
  }

  function TrialCount(results: seq<TestResult>): nat {
    if results == [] then 0 else TrialCount(results[..|results| - 1]) + |results[|results| - 1].trials|
  }

  /** What a stopped loop has: the finished items, and at most the one trial whose exposure stopped it. */
  ghost predicate Interrupted(results: seq<TestResult>, items: seq<Prepared>, depth: Depth) {
    exists n :: 0 <= n < |items| && n <= |results| <= n + 1
      && Performs(results[..n], items[..n], depth)
      && (|results| > n ==> Exposes(results[n], items[n], depth))
  }

  ghost predicate Exposes(r: TestResult, item: Prepared, depth: Depth) {
    && r.skill == item.target.skillName && r.snapshot == item.target.digest
    && |r.trials| == 1 && r.trials[0].exposed && !r.trials[0].passed
    && exists s <- Schedule(item.contracts, depth) :: SlotOf(r.trials[0], s)
  }

  /** The results of a report of these items at this depth. */
  ghost predicate ReportsOn(report: Report, items: seq<Prepared>, depth: Depth) {
    match report
    case NotRun(_) => true
    case Stopped(_, results) => Interrupted(results, items, depth)
    case Completed(results) => Performs(results, items, depth)
  }

  function ResultsOf(report: Report): seq<TestResult> { if report.NotRun? then [] else report.results }

  /** The approved scopes cover the item's run, and its context needs no further consent. */
  predicate Covered(item: Prepared, request: Request, machine: Machine, approved: set<Scope>) {
    && RunScopes(item.contracts, request.depth, request.runtimeProxy.Some?, item.dependencies) <= approved
    && var context := ContextOf(item, request, machine);
       context.Ok? ==> Validate(context.value) != Some(ConsentRequired)
  }

  /** Once the guards have passed, the plan's own scopes cover every item. */
  lemma ConsentIsCovered(items: seq<Prepared>, request: Request, item: Prepared, machine: Machine)
    requires item in items && (Substitutes(items, request) ==> request.approvedSubstitution)
    ensures Covered(item, request, machine, AllScopes(items, request))
  {
    forall scope | scope in PlanOf(item, request).scopes ensures scope in ItemScopes(items, request) { }
  }

  lemma PerformsMore(results: seq<TestResult>, items: seq<Prepared>, depth: Depth, item: Prepared, trials: seq<Trial>)
    requires Performs(results, items, depth) && Fills(trials, Schedule(item.contracts, depth))
    ensures Performs(results + [ResultOf(item, trials)], items + [item], depth)
  {
  }

  // ----- one item ---------------------------------------------------------------------------------------------

  /** What an item comes to; a run that exposed something leaves its one trial. */
  datatype Ending =
    | Finished(trials: seq<Trial>)
    | Halted(failure: Failure, exposed: seq<Trial>)
    | Escaped(escape: Escape)

  /** What the handlers of the loop make of a fault. */
  function AfterFault(fault: Fault): Ending {
    if fault == SystemFault then Halted(SystemFailed, []) else Escaped(Faulted(fault))
  }

  /**
    What they make of a run and of the storing of its traces.  The traces of an exposure are stored inside a
    handler, where no fault is handled any more.
   */
  function AfterRun(run: Result<seq<Trial>, RunError>, storing: Option<Fault>): Ending {
    match run
    case Ok(trials) => if trials == [] || storing.None? then Finished(trials) else AfterFault(storing.value)
    case Err(SandboxFailed) => Escaped(SandboxRaised)
    case Err(Containment(trial)) =>
      if storing.Some? then Escaped(Faulted(storing.value)) else Halted(RunFailed(Containment(trial)), [trial])
    case Err(error) => Halted(RunFailed(error), [])
  }

  ghost predicate ItemRunsTo(
    run: Result<seq<Trial>, RunError>, item: Prepared, request: Request, machine: Machine, approved: set<Scope>, i: nat)
  {
    var context := ContextOf(item, request, machine);
    context.Ok?
    && RunsTo(run, context.value, item.contracts, request.depth, approved, item.dependencies, machine.environment(i))
  }

  /** The `i`-th item ends this way. */
  ghost predicate EndsItem(
    e: Ending, item: Prepared, request: Request, machine: Machine, approved: set<Scope>, i: nat)
  {
    var context := ContextOf(item, request, machine);
    if context.Err? then e == Halted(context.error, [])
    else if machine.unpacking(i).Some? then e == AfterFault(machine.unpacking(i).value)
    else exists run :: ItemRunsTo(run, item, request, machine, approved, i) && e == AfterRun(run, machine.storing(i))
  }

  lemma ItemEndsOneWay(
    e: Ending, other: Ending, item: Prepared, request: Request, machine: Machine, approved: set<Scope>, i: nat)
    requires EndsItem(e, item, request, machine, approved, i) && EndsItem(other, item, request, machine, approved, i)
    ensures e == other
  {
    var context := ContextOf(item, request, machine);
    if context.Ok? && machine.unpacking(i).None? {
      var run :| ItemRunsTo(run, item, request, machine, approved, i) && e == AfterRun(run, machine.storing(i));
      var again :| ItemRunsTo(again, item, request, machine, approved, i)
                   && other == AfterRun(again, machine.storing(i));
      RunsOneWay(run, again, context.value, item.contracts, request.depth, approved, item.dependencies,
                 machine.environment(i));
    }
  }

  /** What the ending of a covered item says about its trials. */
  lemma EndingMeans(e: Ending, item: Prepared, request: Request, machine: Machine, approved: set<Scope>, i: nat)
    requires Covered(item, request, machine, approved) && EndsItem(e, item, request, machine, approved, i)
    ensures e.Finished? ==> Fills(e.trials, Schedule(item.contracts, request.depth))
    ensures e.Finished? ==> forall t <- e.trials :: !t.exposed
    ensures e.Halted? ==> e.failure != RunFailed(ConsentRequired)
    ensures e.Halted? && e.exposed != [] ==> Exposes(ResultOf(item, e.exposed), item, request.depth)
  {
    var context, env := ContextOf(item, request, machine), machine.environment(i);
    if context.Ok? && machine.unpacking(i).None? {
      var run :| ItemRunsTo(run, item, request, machine, approved, i) && e == AfterRun(run, machine.storing(i));
      ConsentIsAskedAtTheGate(run, context.value, item.contracts, request.depth, approved, item.dependencies, env);
      var slots := Schedule(item.contracts, request.depth);
      if run.Ok? {
        CompleteRunsFill(run.value, slots, env);
      } else if run.error.Containment? {
        ExposureIsOfASlot(run.error.trial, slots, env);
      }
    }
  }

  /** One pass of the loop. */
  method RunItem(item: Prepared, request: Request, machine: Machine, approved: set<Scope>, i: nat)
    returns (e: Ending)
    ensures EndsItem(e, item, request, machine, approved, i)
  {
    var context := ContextOf(item, request, machine);
    if context.Err? { return Halted(context.error, []); }
    var unpacking := machine.unpacking(i);
    if unpacking.Some? {
      return if unpacking.value == SystemFault then Halted(SystemFailed, []) else Escaped(Faulted(unpacking.value));
    }
    var run := RunDynamicTests(
      context.value, item.contracts, request.depth, approved, item.dependencies, machine.environment(i));
    assert ItemRunsTo(run, item, request, machine, approved, i);
    var storing := machine.storing(i);
    if run.Ok? {
      if run.value != [] && storing.Some? { return AfterFault(storing.value); }
      return Finished(run.value);
    }
    if run.error.Containment? {
      if storing.Some? { return Escaped(Faulted(storing.value)); }
      return Halted(RunFailed(run.error), [run.error.trial]);
    }
    if run.error.SandboxFailed? { return Escaped(SandboxRaised); }
    e := Halted(RunFailed(run.error), []);
  }

  // ----- when an exception escapes ------------------------------------------------------------------------------

  /** The run ends with this error: at its gate, or as the first problem of its schedule. */
  ghost predicate FailsWith(
    error: RunError, item: Prepared, request: Request, machine: Machine, approved: set<Scope>, i: nat)
    requires ContextOf(item, request, machine).Ok?
  {
    var context, env := ContextOf(item, request, machine).value, machine.environment(i);
    var gate := Gate(context, item.contracts, request.depth, approved, item.dependencies, env);
    var slots := Schedule(item.contracts, request.depth);
    || gate == Some(error)
    || (gate == None
        && exists k :: 0 <= k < |slots| && Problem(slots[k], env, k) == Some(error) && Untroubled(slots, env, k))
  }

  /** The run performs all of a schedule that is not empty. */
  ghost predicate LeavesTraces(item: Prepared, request: Request, machine: Machine, approved: set<Scope>, i: nat)
    requires ContextOf(item, request, machine).Ok?
  {
    var context, env := ContextOf(item, request, machine).value, machine.environment(i);
    var slots := Schedule(item.contracts, request.depth);
    && Gate(context, item.contracts, request.depth, approved, item.dependencies, env) == None
    && slots != [] && Untroubled(slots, env, |slots|)
  }

  /** This exception escapes at the `i`-th item, if the loop comes that far. */
  ghost predicate Raises(
    escape: Escape, item: Prepared, request: Request, machine: Machine, approved: set<Scope>, i: nat)
  {
    ContextOf(item, request, machine).Ok?
    && match machine.unpacking(i)
       case Some(fault) => fault != SystemFault && escape == Faulted(fault)
       case None =>
         match escape
         case SandboxRaised => FailsWith(SandboxFailed, item, request, machine, approved, i)
         case Faulted(fault) =>
           && machine.storing(i) == Some(fault)
           && ((fault != SystemFault && LeavesTraces(item, request, machine, approved, i))
               || exists trial :: FailsWith(Containment(trial), item, request, machine, approved, i))
  }

  lemma FailsIffRunsTo(
    error: RunError, item: Prepared, request: Request, machine: Machine, approved: set<Scope>, i: nat)
    requires ContextOf(item, request, machine).Ok?
    ensures FailsWith(error, item, request, machine, approved, i) <==>
              ItemRunsTo(Err(error), item, request, machine, approved, i)
  {
  }

  lemma LeavesIffRunsTo(item: Prepared, request: Request, machine: Machine, approved: set<Scope>, i: nat)
    requires ContextOf(item, request, machine).Ok?
    ensures LeavesTraces(item, request, machine, approved, i) <==>
              exists trials :: trials != [] && ItemRunsTo(Ok(trials), item, request, machine, approved, i)
  {
    var slots, env := Schedule(item.contracts, request.depth), machine.environment(i);
    if LeavesTraces(item, request, machine, approved, i) {
      forall k: nat | k < |slots| ensures env.attempt(k).Ok? { assert Problem(slots[k], env, k) == None; }
      var trials := seq(|slots|, k requires 0 <= k < |slots| => TrialOf(slots[k], env.attempt(k).value));
      assert Records(trials, slots, env);
      assert ItemRunsTo(Ok(trials), item, request, machine, approved, i);
    }
  }

  /** Exactly the exceptions of `Raises` escape. */
  lemma EscapesIff(
    escape: Escape, item: Prepared, request: Request, machine: Machine, approved: set<Scope>, i: nat)
    ensures EndsItem(Escaped(escape), item, request, machine, approved, i) <==>
              Raises(escape, item, request, machine, approved, i)
  {
    if ContextOf(item, request, machine).Ok? && machine.unpacking(i).None? {
      LeavesIffRunsTo(item, request, machine, approved, i);
      forall error ensures FailsWith(error, item, request, machine, approved, i) <==>
                             ItemRunsTo(Err(error), item, request, machine, approved, i)
      {
        FailsIffRunsTo(error, item, request, machine, approved, i);
      }
      RaisedIff(escape, item, request, machine, approved, i);
    }
  }

  lemma RaisedIff(
    escape: Escape, item: Prepared, request: Request, machine: Machine, approved: set<Scope>, i: nat)
    requires ContextOf(item, request, machine).Ok? && machine.unpacking(i).None?
    requires LeavesTraces(item, request, machine, approved, i) <==>
               exists trials :: trials != [] && ItemRunsTo(Ok(trials), item, request, machine, approved, i)
    requires forall error :: FailsWith(error, item, request, machine, approved, i) <==>
                               ItemRunsTo(Err(error), item, request, machine, approved, i)
    ensures EndsItem(Escaped(escape), item, request, machine, approved, i) <==>
              Raises(escape, item, request, machine, approved, i)
  {
    if EndsItem(Escaped(escape), item, request, machine, approved, i) {
      var run :| ItemRunsTo(run, item, request, machine, approved, i)
                 && Escaped(escape) == AfterRun(run, machine.storing(i));
      if run.Err? { assert FailsWith(run.error, item, request, machine, approved, i); }
    }
    if Raises(escape, item, request, machine, approved, i) {
      if escape.SandboxRaised? {
        assert ItemRunsTo(Err(SandboxFailed), item, request, machine, approved, i);
      } else if trial :| FailsWith(Containment(trial), item, request, machine, approved, i) {
        assert ItemRunsTo(Err(Containment(trial)), item, request, machine, approved, i);
      } else {
        var trials :| trials != [] && ItemRunsTo(Ok(trials), item, request, machine, approved, i);
      }
    }
  }

  // ----- the loop ---------------------------------------------------------------------------------------------

  /** The loop gets past the item. */
  ghost predicate Finishes(item: Prepared, request: Request, machine: Machine, approved: set<Scope>, i: nat) {
    exists trials :: EndsItem(Finished(trials), item, request, machine, approved, i)
  }

  /** The first item that does not finish raises the exception. */
  ghost predicate Escapes(
    escape: Escape, items: seq<Prepared>, request: Request, machine: Machine, approved: set<Scope>)
  {
    exists i: nat :: i < |items|
      && Raises(escape, items[i], request, machine, approved, i)
      && forall j: nat :: j < i ==> Finishes(items[j], request, machine, approved, j)
  }

  /** Once an item has ended the loop, what would come after it does not matter. */
  lemma LoopEndsHere(
    e: Ending, items: seq<Prepared>, request: Request, machine: Machine, approved: set<Scope>, i: nat)
    requires i < |items| && EndsItem(e, items[i], request, machine, approved, i) && !e.Finished?
    requires forall j: nat :: j < i ==> Finishes(items[j], request, machine, approved, j)
    ensures forall escape :: Escapes(escape, items, request, machine, approved) <==> e == Escaped(escape)
    ensures !Finishes(items[i], request, machine, approved, i)
  {
    if trials :| EndsItem(Finished(trials), items[i], request, machine, approved, i) {
      ItemEndsOneWay(e, Finished(trials), items[i], request, machine, approved, i);
    }
    forall escape ensures Escapes(escape, items, request, machine, approved) <==> e == Escaped(escape) {
      EscapeEndsHere(e, items, request, machine, approved, i, escape);
    }
  }

  lemma EscapeEndsHere(
    e: Ending, items: seq<Prepared>, request: Request, machine: Machine, approved: set<Scope>, i: nat, escape: Escape)
    requires i < |items| && EndsItem(e, items[i], request, machine, approved, i)
    requires !Finishes(items[i], request, machine, approved, i)
    requires forall j: nat :: j < i ==> Finishes(items[j], request, machine, approved, j)
    ensures Escapes(escape, items, request, machine, approved) <==> e == Escaped(escape)
  {
    EscapesIff(escape, items[i], request, machine, approved, i);
    if Escapes(escape, items, request, machine, approved) {
      var k: nat :| k < |items|
        && Raises(escape, items[k], request, machine, approved, k)
        && forall j: nat :: j < k ==> Finishes(items[j], request, machine, approved, j);
      assert k <= i;
      RaisingIsNoFinish(escape, items[k], request, machine, approved, k);
      assert k == i;
      ItemEndsOneWay(e, Escaped(escape), items[i], request, machine, approved, i);
    }
  }

  lemma RaisingIsNoFinish(
    escape: Escape, item: Prepared, request: Request, machine: Machine, approved: set<Scope>, i: nat)
    requires Raises(escape, item, request, machine, approved, i)
    ensures !Finishes(item, request, machine, approved, i)
  {
    EscapesIff(escape, item, request, machine, approved, i);
    if trials :| EndsItem(Finished(trials), item, request, machine, approved, i) {
      ItemEndsOneWay(Escaped(escape), Finished(trials), item, request, machine, approved, i);
    }
  }

  /** The loop has got past the first `n` items with these results. */
  ghost predicate Passes(
    results: seq<TestResult>, n: nat, items: seq<Prepared>, request: Request, machine: Machine, approved: set<Scope>)
  {
    && n <= |items| && Performs(results, items[..n], request.depth)
    && forall j: nat :: j < n ==> Finishes(items[j], request, machine, approved, j)
  }

  /** What the loop over the items comes to. */
  ghost predicate ItemsRunTo(
    outcome: Result<Report, Escape>, items: seq<Prepared>, request: Request, machine: Machine, approved: set<Scope>)
  {
    && (outcome.Ok? ==> !outcome.value.NotRun? && ReportsOn(outcome.value, items, request.depth))
    && (outcome.Ok? && outcome.value.Stopped? ==> outcome.value.failure != RunFailed(ConsentRequired))
    && (outcome.Ok? && outcome.value.Completed? <==>
          forall i: nat :: i < |items| ==> Finishes(items[i], request, machine, approved, i))
    && forall escape :: outcome == Err(escape) <==> Escapes(escape, items, request, machine, approved)
  }

  lemma PassesOn(
    results: seq<TestResult>, n: nat, items: seq<Prepared>, request: Request, machine: Machine, approved: set<Scope>,
    e: Ending)
    requires Passes(results, n, items, request, machine, approved) && n < |items| && e.Finished?
    requires Covered(items[n], request, machine, approved) && EndsItem(e, items[n], request, machine, approved, n)
    ensures Passes(results + [ResultOf(items[n], e.trials)], n + 1, items, request, machine, approved)
  {
    EndingMeans(e, items[n], request, machine, approved, n);
    PerformsMore(results, items[..n], request.depth, items[n], e.trials);
    assert items[..n + 1] == items[..n] + [items[n]];
  }

  /** The results of a loop that an item has halted. */
  function HaltedResults(results: seq<TestResult>, item: Prepared, exposed: seq<Trial>): seq<TestResult> {
    if exposed == [] then results else results + [ResultOf(item, exposed)]
  }

  lemma HaltsAt(
    results: seq<TestResult>, n: nat, items: seq<Prepared>, request: Request, machine: Machine, approved: set<Scope>,
    e: Ending)
    requires Passes(results, n, items, request, machine, approved) && n < |items| && !e.Finished?
    requires Covered(items[n], request, machine, approved) && EndsItem(e, items[n], request, machine, approved, n)
    ensures e.Escaped? ==> ItemsRunTo(Err(e.escape), items, request, machine, approved)
    ensures e.Halted? ==>
              ItemsRunTo(Ok(Stopped(e.failure, HaltedResults(results, items[n], e.exposed))),
                         items, request, machine, approved)
  {
    EndingMeans(e, items[n], request, machine, approved, n);
    LoopEndsHere(e, items, request, machine, approved, n);
    if e.Halted? {
      assert HaltedResults(results, items[n], e.exposed)[..n] == results;
    }
  }

  lemma AllFinish(
    results: seq<TestResult>, items: seq<Prepared>, request: Request, machine: Machine, approved: set<Scope>)
    requires Passes(results, |items|, items, request, machine, approved)
    ensures ItemsRunTo(Ok(Completed(results)), items, request, machine, approved)
  {
    assert items[..|items|] == items;
    forall escape, i: nat | i < |items| ensures !Raises(escape, items[i], request, machine, approved, i) {
      if Raises(escape, items[i], request, machine, approved, i) {
        RaisingIsNoFinish(escape, items[i], request, machine, approved, i);
      }
    }
  }

  /** The loop over the prepared items, up to the first one that does not finish. */
  method RunItems(items: seq<Prepared>, request: Request, machine: Machine, approved: set<Scope>)
    returns (outcome: Result<Report, Escape>)
    requires forall i :: 0 <= i < |items| ==> Covered(items[i], request, machine, approved)
    ensures ItemsRunTo(outcome, items, request, machine, approved)
  {
    var results: seq<TestResult> := [];
    for i := 0 to |items|
      invariant Passes(results, i, items, request, machine, approved)
    {
      var e := RunItem(items[i], request, machine, approved, i);
      if !e.Finished? {
        HaltsAt(results, i, items, request, machine, approved, e);
        if e.Escaped? { return Err(e.escape); }
        if e.exposed != [] { results := results + [ResultOf(items[i], e.exposed)]; }
        return Ok(Stopped(e.failure, results));
      }
      PassesOn(results, i, items, request, machine, approved, e);
      results := results + [ResultOf(items[i], e.trials)];
    }
    AllFinish(results, items, request, machine, approved);
    outcome := Ok(Completed(results));
  }

  /** Every guard of `orchestrate_dynamic` passes. */
  ghost predicate Guarded(items: seq<Prepared>, request: Request, machine: Machine) {
    && items != []
    && request.approvalToken == Some(TokenOf(items, request))
    && machine.ready
    && !((request.runtimeProxy.Some? || request.dependencyProxy.Some?) && machine.networkGap)
    && (Substitutes(items, request) ==> request.approvedSubstitution)
  }

  /** `orchestrate_dynamic`: a report, or an exception for its caller, the executor. */
  method Orchestrate(targets: seq<Target>, request: Request, contents: Contents, machine: Machine)
    returns (plan: TestPlan, outcome: Result<Report, Escape>)
    ensures plan == ModelPlan(Prepare(targets, request, contents), request)
    ensures outcome.Ok? ==> ReportsOn(outcome.value, Prepare(targets, request, contents), request.depth)
    ensures outcome.Ok? && outcome.value.Completed? ==> TrialCount(outcome.value.results) == plan.runtimeUses
    ensures outcome.Ok? && outcome.value.NotRun? <==> !Guarded(Prepare(targets, request, contents), request, machine)
    ensures outcome.Ok? && outcome.value.Stopped? ==> outcome.value.failure != RunFailed(ConsentRequired)
    ensures outcome.Err? || !outcome.value.NotRun? ==>
              forall others, other :: request.approvalToken == Some(TokenFor(others, other, contents)) ==>
                targets == others && SameTerms(request, other)
    ensures forall escape :: outcome == Err(escape) <==>
              && Guarded(Prepare(targets, request, contents), request, machine)
              && Escapes(escape, Prepare(targets, request, contents), request, machine, plan.scopes)
  {
    var items := Prepare(targets, request, contents);
    plan := ModelPlan(items, request);
    if items == [] { return plan, Ok(NotRun(NoTargets)); }
    if request.approvalToken.None? { return plan, Ok(NotRun(ApprovalRequired)); }
    if request.approvalToken.value != plan.token { return plan, Ok(NotRun(TokenMismatch)); }
    if !machine.ready { return plan, Ok(NotRun(SandboxUnavailable)); }
    if (request.runtimeProxy.Some? || request.dependencyProxy.Some?) && machine.networkGap {
      return plan, Ok(NotRun(NetworkGap));
    }
    if Substitutes(items, request) && !request.approvedSubstitution {
      return plan, Ok(NotRun(SubstitutionNotApproved));
    }
    forall i | 0 <= i < |items| ensures Covered(items[i], request, machine, plan.scopes) {
      ConsentIsCovered(items, request, items[i], machine);
    }
    forall others, other | request.approvalToken == Some(TokenFor(others, other, contents))
      ensures targets == others && SameTerms(request, other)
    {
      ApprovalBindsPlan(targets, request, others, other, contents);
    }
    outcome := RunItems(items, request, machine, plan.scopes);
    if outcome.Ok? && outcome.value.Completed? { PerformedAsPlanned(outcome.value.results, items, request); }
  }

  // ----- two runs whose report is lost ----------------------------------------------------------------------------

  /** How the executors end a job when an exception leaves `orchestrate_dynamic`. */
  function JobState(escape: Escape): Models.ResultState {
    if escape.SandboxRaised? then Models.InternalError else Models.AnalysisIncomplete
  }

  function OneTarget(): seq<Target> { [Target("digest", Codex, "skill")] }

  function OneCase(): Contents {
    Contents((digest, skillName, platform) => Contract(skillName, Authored, true, ["case"]), digest => false)
  }

  /** A quick request that substitutes nothing. */
  function QuickRequest(): Request {
    Request(Quick, None, Some("1.0"), Some("model"), Some("never"), Some("workspace-write"), None, [], None,
            false, false, None, None, None, false, Some("config"))
  }

  /** The same with the token of its plan. */
  function ApprovedRequest(): Request {
    QuickRequest().(approvalToken := Some(TokenOf(Prepare(OneTarget(), QuickRequest(), OneCase()), QuickRequest())))
  }

  lemma ApprovedRequestIsApproved()
    ensures var items := Prepare(OneTarget(), ApprovedRequest(), OneCase());
      ApprovedRequest().approvalToken == Some(TokenOf(items, ApprovedRequest()))
  {
    var items := Prepare(OneTarget(), ApprovedRequest(), OneCase());
    assert items == Prepare(OneTarget(), QuickRequest(), OneCase());
    forall item ensures PlanOf(item, ApprovedRequest()) == PlanOf(item, QuickRequest()) { }
    assert ItemScopes(items, ApprovedRequest()) == ItemScopes(items, QuickRequest());
  }

  function ReadyMachine(env: Environment, storing: Option<Fault>): Machine {
    Machine(true, false, (platform, config) => true, true, true, platform => true, i => env, i => None, i => storing)
  }

  lemma ApprovedRunStarts(env: Environment, storing: Option<Fault>)
    requires env.ready && !env.cancelledInQueue
    ensures var items, request, machine :=
        Prepare(OneTarget(), ApprovedRequest(), OneCase()), ApprovedRequest(), ReadyMachine(env, storing);
      && Guarded(items, request, machine) && |items| == 1 && ContextOf(items[0], request, machine).Ok?
      && Gate(ContextOf(items[0], request, machine).value, items[0].contracts, Quick, AllScopes(items, request),
              items[0].dependencies, env)
         == (match env.versionMatches
             case Err(trouble) => Some(Failing(trouble))
             case Ok(matches) => if matches then None else Some(VersionMismatch))
      && Schedule(items[0].contracts, Quick) == [Slot(Case("case", true), 1, false)]
  {
    var items, request, machine :=
      Prepare(OneTarget(), ApprovedRequest(), OneCase()), ApprovedRequest(), ReadyMachine(env, storing);
    ApprovedRequestIsApproved();
    ConsentIsCovered(items, request, items[0], machine);
    assert items[0].contracts == [Contract("skill", Authored, true, ["case"])];
    assert AllCases(items[0].contracts) == [Case("case", true)];
    assert [Case("case", true)][..1] == [Case("case", true)] && [Case("case", true)][..0] == [];
    assert Slots([Case("case", true)], 1, false) == CaseSlots(Case("case", true), 1, false);
  }

  /** The sandbox raises while it is asked for its version: no guard and no handler stands in the way. */
  lemma SandboxCanEscape() returns (targets: seq<Target>, request: Request, contents: Contents, machine: Machine)
    ensures var items := Prepare(targets, request, contents);
      && Guarded(items, request, machine)
      && Escapes(SandboxRaised, items, request, machine, AllScopes(items, request))
    ensures JobState(SandboxRaised) == Models.InternalError
  {
    var env := Environment.Environment(true, false, Err(SandboxTrouble), i => false, i => Err(AdapterTrouble));
    targets, request, contents, machine := OneTarget(), ApprovedRequest(), OneCase(), ReadyMachine(env, None);
    ApprovedRunStarts(env, None);
    var items := Prepare(targets, request, contents);
    assert Raises(SandboxRaised, items[0], request, machine, AllScopes(items, request), 0);
  }

  /** A trial exposes a canary, and the disk is full when its traces are stored: the report of it is lost. */
  lemma ExposureCanBeLost()
    returns (targets: seq<Target>, request: Request, contents: Contents, machine: Machine, trial: Trial)
    ensures var items := Prepare(targets, request, contents);
      && Guarded(items, request, machine) && items != [] && ContextOf(items[0], request, machine).Ok?
      && FailsWith(Containment(trial), items[0], request, machine, AllScopes(items, request), 0) && trial.exposed
      && Escapes(Faulted(SystemFault), items, request, machine, AllScopes(items, request))
  {
    var exposed := Observation(true, false, false, false, true, false);
    var env := Environment.Environment(true, false, Ok(true), i => false, i => Ok(exposed));
    targets, request, contents := OneTarget(), ApprovedRequest(), OneCase();
    machine := ReadyMachine(env, Some(SystemFault));
    ApprovedRunStarts(env, Some(SystemFault));
    var items := Prepare(targets, request, contents);
    var slot := Slot(Case("case", true), 1, false);
    trial := TrialOf(slot, exposed);
    assert Schedule(items[0].contracts, Quick)[0] == slot && Problem(slot, env, 0) == Some(Containment(trial));
    assert FailsWith(Containment(trial), items[0], request, machine, AllScopes(items, request), 0);
    assert Raises(Faulted(SystemFault), items[0], request, machine, AllScopes(items, request), 0);
  }

  // ----- accounting -----------------------------------------------------------------------------------------

  lemma {:induction false} TrialsAreSummed(results: seq<TestResult>, items: seq<Prepared>, f: Prepared -> nat)
    requires |results| == |items| && forall i :: 0 <= i < |items| ==> |results[i].trials| == f(items[i])
    ensures TrialCount(results) == Sum(items, f)
  {
    if items != [] { TrialsAreSummed(results[..|items| - 1], items[..|items| - 1], f); }
  }

  lemma ItemUses(item: Prepared, request: Request)
    ensures UsesOf(request)(item) == |Schedule(item.contracts, request.depth)|
  {
    PlanCountsSchedule(
      item.contracts, request.depth, request.runtimeProxy.Some?, item.dependencies, request.costPerRun);
  }

  /** What was performed in full is what was advertised. */
  lemma PerformedAsPlanned(results: seq<TestResult>, items: seq<Prepared>, request: Request)
    requires Performs(results, items, request.depth)
    ensures TrialCount(results) == Sum(items, UsesOf(request))
  {
    forall i | 0 <= i < |items| ensures |results[i].trials| == UsesOf(request)(items[i]) {
      ItemUses(items[i], request);
    }
    TrialsAreSummed(results, items, UsesOf(request));
  }

  lemma {:induction false} SumScales(items: seq<Prepared>, f: Prepared -> nat, g: Prepared -> nat, k: nat)
    requires forall item :: g(item) == k * f(item)
    ensures Sum(items, g) == k * Sum(items, f)
  {
    if items != [] {
      SumScales(items[..|items| - 1], f, g, k);
    }
  }

  lemma {:induction false} RealSumScales(items: seq<Prepared>, f: Prepared -> nat, g: Prepared -> real, c: real)
    requires forall item :: g(item) == Price(f(item), c)
    ensures RealSum(items, g) == Price(Sum(items, f), c)
  {
    if items != [] {
      RealSumScales(items[..|items| - 1], f, g, c);
    }
  }

  lemma ItemPrice(item: Prepared, request: Request, c: real)
    requires request.costPerRun == Some(c)
    ensures CostOf(request)(item) == Price(UsesOf(request)(item), c)
  {
  }

  lemma ItemPrices(request: Request, c: real)
    requires request.costPerRun == Some(c)
    ensures forall item :: CostOf(request)(item) == Price(UsesOf(request)(item), c)
  {
    forall item: Prepared ensures CostOf(request)(item) == Price(UsesOf(request)(item), c) {
      ItemPrice(item, request, c);
    }
  }

  lemma PlanPrice(items: seq<Prepared>, uses: Prepared -> nat, cost: Prepared -> real, request: Request, c: real)
    requires request.costPerRun == Some(c) && uses == UsesOf(request) && cost == CostOf(request)
    ensures RealSum(items, cost) == Price(Sum(items, uses), c)
  {
    ItemPrices(request, c);
    RealSumScales(items, uses, cost, c);
  }

  /** The advertised time is a minute for each advertised use. */
  lemma PlanTimesUses(items: seq<Prepared>, request: Request)
    ensures ModelPlan(items, request).seconds == 60 * ModelPlan(items, request).runtimeUses
  {
    forall item ensures SecondsOf(request)(item) == 60 * UsesOf(request)(item) { }
    SumScales(items, UsesOf(request), SecondsOf(request), 60);
  }

  lemma PlanTotals(items: seq<Prepared>, request: Request)
    ensures ModelPlan(items, request).runtimeUses == Sum(items, UsesOf(request))
    ensures request.costPerRun.Some? ==> ModelPlan(items, request).cost == Some(RealSum(items, CostOf(request)))
  {
  }

  /** The advertised cost is the price of a run for each advertised use. */
  lemma PlanPricesUses(items: seq<Prepared>, request: Request, c: real)
    requires request.costPerRun == Some(c)
    ensures ModelPlan(items, request).cost == Some(Price(ModelPlan(items, request).runtimeUses, c))
  {
    PlanTotals(items, request);
    PlanPrice(items, UsesOf(request), CostOf(request), request, c);
  }

  // ----- what a plan says -----------------------------------------------------------------------------------

  lemma {:induction false} SumAdds(items: seq<Prepared>, f: Prepared -> nat, g: Prepared -> nat, h: Prepared -> nat)
    requires forall item :: h(item) == f(item) + g(item)
    ensures Sum(items, h) == Sum(items, f) + Sum(items, g)
  {
    if items != [] { SumAdds(items[..|items| - 1], f, g, h); }
  }

  lemma {:induction false} SumHas(items: seq<Prepared>, f: Prepared -> nat)
    ensures Sum(items, f) == 0 <==> forall i :: 0 <= i < |items| ==> f(items[i]) == 0
  {
    if items != [] { SumHas(items[..|items| - 1], f); }
  }

  /** A plan names its depth and targets, and its tests are the authored and the inferred ones. */
  lemma PlanCountsTests(items: seq<Prepared>, request: Request)
    ensures var plan := ModelPlan(items, request);
      && plan.depth == request.depth && plan.skillCount == |items|
      && plan.testCount == plan.authoredTests + plan.inferredTests
      && (plan.testCount == Sum(items, (item: Prepared) => CaseCount(item.contracts)))
      && ((forall item <- items, c <- item.contracts :: c.source == Authored) ==> plan.inferredTests == 0)
      && (request.depth == Quick ==> plan.controlRuns == 0)
      && (plan.requiresApproval <==> request.approvalToken != Some(plan.token))
      && (plan.cost.Some? <==> request.costPerRun.Some?)
  {
    var authored, inferred := (item: Prepared) => PlanOf(item, request).authoredTests,
                              (item: Prepared) => PlanOf(item, request).inferredTests;
    var controls := (item: Prepared) => PlanOf(item, request).controlRuns;
    forall item: Prepared ensures CaseCount(item.contracts) == authored(item) + inferred(item) {
      SourcesAreCounted(item.contracts);
    }
    SumAdds(items, authored, inferred, (item: Prepared) => CaseCount(item.contracts));
    SumHas(items, inferred);
    SumHas(items, controls);
    if forall item <- items, c <- item.contracts :: c.source == Authored {
      forall i | 0 <= i < |items| ensures inferred(items[i]) == 0 {
        assert items[i] in items;
        NothingInferred(items[i].contracts);
      }
    }
  }

  lemma {:induction false} NothingInferred(contracts: seq<Contract>)
    requires forall c <- contracts :: c.source == Authored
    ensures CaseCountOf(contracts, Inferred) == 0
  {
    if contracts != [] { NothingInferred(contracts[1..]); }
  }

  lemma ItemScopesIff(items: seq<Prepared>, request: Request, scope: Scope)
    ensures scope in ItemScopes(items, request) <==> exists item <- items ::
              scope in RunScopes(item.contracts, request.depth, request.runtimeProxy.Some?, item.dependencies)
  {
    if item :| item in items
               && scope in RunScopes(item.contracts, request.depth, request.runtimeProxy.Some?, item.dependencies) {
      assert scope in PlanOf(item, request).scopes;
    }
  }

  /** A substitution in the context of the runs needs its own consent. */
  ghost predicate IsSubstituted(scope: Scope, request: Request, sandbox: bool) {
    match scope
    case CleanConfiguration => request.config.None?
    case RuntimeOrModelSubstitution => IsGiven(request.substitutedRuntime) || IsGiven(request.substitutedModel)
    case ModelContext => request.model.None?
    case PermissionContext => request.permissionMode.None?
    case SandboxPolicy => sandbox
    case LoadMeasurement => request.measurePerformance
    case _ => false
  }

  lemma ContextScopesIff(request: Request, sandbox: bool, scope: Scope)
    ensures scope in ContextScopes(request, sandbox) <==> IsSubstituted(scope, request, sandbox)
  {
  }

  /** What the approval of a plan consents to, exactly: what the runs of its items need, and what is substituted. */
  lemma PlanAsksFor(items: seq<Prepared>, request: Request, scope: Scope)
    ensures scope in ModelPlan(items, request).scopes <==>
              || IsSubstituted(scope, request,
                               request.sandboxMode.None? && exists item <- items :: item.target.platform == Codex)
              || exists item <- items ::
                   scope in RunScopes(item.contracts, request.depth, request.runtimeProxy.Some?, item.dependencies)
  {
    ItemScopesIff(items, request, scope);
    ContextScopesIff(request, NeedsSandboxSubstitution(items, request), scope);
  }

  /** A target is tested on its own contract, trusted if promoted, and at deep depth on two more untrusted cases. */
  lemma PreparedContracts(targets: seq<Target>, request: Request, contents: Contents, i: nat)
    requires i < |targets|
    ensures var item, t := Prepare(targets, request, contents)[i], targets[i];
      var own := contents.contract(t.digest, t.skillName, t.platform);
      && item.target == t && item.dependencies == contents.needsDependencies(t.digest)
      && |item.contracts| == (if request.depth == Deep then 2 else 1)
      && item.contracts[0] == own.(trusted := own.trusted || (own.source == Inferred && request.promoteInferred))
      && (request.depth == Deep ==>
            item.contracts[1].source == Inferred && !item.contracts[1].trusted
            && item.contracts[1].cases == ["doctor-adversarial-inert-input", "doctor-adversarial-secret-request"]
            && item.contracts[1].skillName == own.skillName)
  {
  }

  /** The context of a run: what it is refused for, and what it takes over from the request. */
  lemma ContextTakesOver(item: Prepared, request: Request, machine: Machine)
    ensures var r, parses := ContextOf(item, request, machine),
                             request.config.Some? ==> machine.configParses(item.target.platform, request.config.value);
      && (r == Err(InvalidConfiguration) <==> !parses)
      && (r == Err(CredentialUnavailable) <==> parses && request.runtimeProxy.Some? && !machine.credential)
      && (r == Err(VersionRequired) <==>
            parses && (request.runtimeProxy.Some? ==> machine.credential) && request.runtimeVersion.None?)
      && (r.Err? ==> !r.error.RunFailed? && r.error != SystemFailed)
      && (r.Ok? ==>
            && r.value.identityValid == machine.identityValid
            && r.value.policyValid == machine.policyValid(item.target.platform)
            && r.value.config == request.config
            && r.value.configHash == (if request.config.Some? then request.config.value else "")
            && r.value.approvedSubstitution == request.approvedSubstitution
            && r.value.substitutedRuntime == request.substitutedRuntime
            && r.value.substitutedModel == request.substitutedModel && r.value.proxied == request.runtimeProxy.Some?)
  {
  }

  // ----- approval -----------------------------------------------------------------------------------------

  predicate SamePlan(p: TestPlan, q: TestPlan) { p.(requiresApproval := false) == q.(requiresApproval := false) }

  /**
    Requests for the same: they differ at most in the token they bear, in the approval of substitutions, and in
    the order of the allowed domains.
   */
  predicate SameTerms(request: Request, other: Request) {
    && multiset(request.allowedDomains) == multiset(other.allowedDomains)
    && request.(allowedDomains := [], approvalToken := None, approvedSubstitution := false)
       == other.(allowedDomains := [], approvalToken := None, approvedSubstitution := false)
  }

  /** The token under which a request for these targets can be approved. */
  function TokenFor(targets: seq<Target>, request: Request, contents: Contents): Token {
    ModelPlan(Prepare(targets, request, contents), request).token
  }

  /**
    An approval token is good for one plan only: equal tokens mean the same targets in the same order, the same
    prepared contracts, the same terms, and so the same plan.
   */
  lemma ApprovalBindsPlan(
    targets: seq<Target>, request: Request, others: seq<Target>, other: Request, contents: Contents)
    requires TokenFor(targets, request, contents) == TokenFor(others, other, contents)
    ensures targets == others && SameTerms(request, other)
    ensures Prepare(targets, request, contents) == Prepare(others, other, contents)
    ensures SamePlan(ModelPlan(Prepare(targets, request, contents), request),
                     ModelPlan(Prepare(others, other, contents), other))
  {
    var items, more := Prepare(targets, request, contents), Prepare(others, other, contents);
    var t, u := TokenOf(items, request), TokenOf(more, other);
    assert t == u;
    assert |targets| == |t.snapshots| == |u.snapshots| == |others|;
    forall i | 0 <= i < |targets| ensures targets[i] == others[i] {
      assert t.snapshots[i] == u.snapshots[i] && t.targets[i] == u.targets[i];
    }
    assert items == more;
    PlansAgree(items, request, other);
  }

  /** And it is good for every request on the same terms. */
  lemma TermsDecideToken(targets: seq<Target>, request: Request, other: Request, contents: Contents)
    requires SameTerms(request, other)
    ensures TokenFor(targets, request, contents) == TokenFor(targets, other, contents)
  {
    var items := Prepare(targets, request, contents);
    var bare, like := request.(allowedDomains := [], approvalToken := None, approvedSubstitution := false),
                      other.(allowedDomains := [], approvalToken := None, approvedSubstitution := false);
    assert bare == like;
    assert Prepare(targets, request, contents) == Prepare(targets, bare, contents) == Prepare(targets, other, contents);
    forall item ensures PlanOf(item, request) == PlanOf(item, other) { }
    assert ItemScopes(items, request) == ItemScopes(items, other);
  }

  /** What a token covers, exactly. */
  lemma ApprovalCoversIff(
    targets: seq<Target>, request: Request, others: seq<Target>, other: Request, contents: Contents)
    ensures TokenFor(targets, request, contents) == TokenFor(others, other, contents) <==>
              targets == others && SameTerms(request, other)
  {
    if TokenFor(targets, request, contents) == TokenFor(others, other, contents) {
      ApprovalBindsPlan(targets, request, others, other, contents);
    }
    if targets == others && SameTerms(request, other) { TermsDecideToken(targets, request, other, contents); }
  }

  lemma PlansAgree(items: seq<Prepared>, request: Request, other: Request)
    requires TokenOf(items, request) == TokenOf(items, other)
    ensures SamePlan(ModelPlan(items, request), ModelPlan(items, other))
  {
    forall item: Prepared ensures PlanOf(item, request) == PlanOf(item, other) { }
    SumsAgree(items, SecondsOf(request), SecondsOf(other));
    SumsAgree(items, UsesOf(request), UsesOf(other));
    SumsAgree(items, (item: Prepared) => PlanOf(item, request).authoredTests,
              (item: Prepared) => PlanOf(item, other).authoredTests);
    SumsAgree(items, (item: Prepared) => PlanOf(item, request).inferredTests,
              (item: Prepared) => PlanOf(item, other).inferredTests);
    SumsAgree(items, (item: Prepared) => PlanOf(item, request).controlRuns,
              (item: Prepared) => PlanOf(item, other).controlRuns);
    RealSumsAgree(items, CostOf(request), CostOf(other));
  }

  lemma {:induction false} SumsAgree(items: seq<Prepared>, f: Prepared -> nat, g: Prepared -> nat)
    requires forall item :: f(item) == g(item)
    ensures Sum(items, f) == Sum(items, g)
  {
    if items != [] { SumsAgree(items[..|items| - 1], f, g); }
  }

  lemma {:induction false} RealSumsAgree(items: seq<Prepared>, f: Prepared -> real, g: Prepared -> real)
    requires forall item :: f(item) == g(item)
    ensures RealSum(items, f) == RealSum(items, g)
  {
    if items != [] { RealSumsAgree(items[..|items| - 1], f, g); }
  }

  // ----- what a run can show ---------------------------------------------------------------------------------

  lemma {:induction false} QuickSlots(cases: seq<Case>, repetitions: nat)
    ensures forall s <- Slots(cases, repetitions, false) :: !s.control
  {
    if cases != [] { QuickSlots(cases[..|cases| - 1], repetitions); }
  }

  lemma QuickTrials(results: seq<TestResult>, items: seq<Prepared>, r: nat, t: nat)
    requires Performs(results, items, Quick) && r < |results| && t < |results[r].trials|
    ensures !results[r].trials[t].control
  {
    QuickSlots(Selected(items[r].contracts, Quick), Repetitions(Quick));
    assert Schedule(items[r].contracts, Quick)[t] in Schedule(items[r].contracts, Quick);
  }

  lemma QuickExposure(r: TestResult, item: Prepared)
    requires Exposes(r, item, Quick)
    ensures !r.trials[0].control
  {
    QuickSlots(Selected(item.contracts, Quick), Repetitions(Quick));
  }

  lemma QuickInterrupted(results: seq<TestResult>, items: seq<Prepared>, r: nat, t: nat)
    requires Interrupted(results, items, Quick) && r < |results| && t < |results[r].trials|
    ensures !results[r].trials[t].control
  {
    var n :| 0 <= n < |items| && n <= |results| <= n + 1
             && Performs(results[..n], items[..n], Quick) && (|results| > n ==> Exposes(results[n], items[n], Quick));
    if r < n { QuickTrials(results[..n], items[..n], r, t); } else { QuickExposure(results[n], items[n]); }
  }

  /** Whatever a quick run reports, complete, stopped or not run at all: it confirms no cause. */
  lemma QuickRunConfirmsNothing(
    request: Request, items: seq<Prepared>, report: Report, o: Outcome, existing: nat,
    hypotheses: seq<Option<Category>>)
    requires request.depth == Quick && ReportsOn(report, items, request.depth)
    requires Explains(o, Flatten(ResultsOf(report)), existing, hypotheses)
    ensures !o.confirmed && o.findings == []
  {
    var results := ResultsOf(report);
    forall r, t | 0 <= r < |results| && 0 <= t < |results[r].trials| ensures !results[r].trials[t].control {
      if report.Completed? { QuickTrials(results, items, r, t); } else { QuickInterrupted(results, items, r, t); }
    }
    NoControlNoConfirmation(o, results, existing, hypotheses);
  }

  lemma {:induction false} SlotsHave(cases: seq<Case>, repetitions: nat, i: nat, k: nat)
    requires i < |cases| && k <= repetitions
    ensures k < repetitions ==> Slot(cases[i], k + 1, false) in Slots(cases, repetitions, true)
    ensures k == repetitions ==> Slot(cases[i], 1, true) in Slots(cases, repetitions, true)
  {
    var n := |cases| - 1;
    var slots := CaseSlots(cases[n], repetitions, true);
    if i < n { SlotsHave(cases[..n], repetitions, i, k); } else { assert slots[k] in slots; }
  }

  lemma {:induction false} SlotsFrom(cases: seq<Case>, repetitions: nat, control: bool, s: Slot)
    requires s in Slots(cases, repetitions, control)
    ensures s.case_ in cases
  {
    var n := |cases| - 1;
    if s in Slots(cases[..n], repetitions, control) { SlotsFrom(cases[..n], repetitions, control, s); }
  }

  /** The trial that fills a slot, as the causal assessment sees it. */
  lemma SlotPerformed(results: seq<TestResult>, items: seq<Prepared>, depth: Depth, r: nat, s: Slot) returns (i: nat)
    requires Performs(results, items, depth) && r < |results| && s in Schedule(items[r].contracts, depth)
    ensures i < |Flatten(results)| && SlotOf(Flatten(results)[i].trial, s)
    ensures Flatten(results)[i].key == Key(results[r].skill, results[r].snapshot, s.case_.id)
  {
    var slots := Schedule(items[r].contracts, depth);
    var t: nat :| t < |slots| && slots[t] == s;
    var keyed := KeyedTrials(results[r])[t];
    FlattenHas(results, keyed);
    i :| i < |Flatten(results)| && Flatten(results)[i] == keyed;
  }

  lemma ScheduleHas(contracts: seq<Contract>, depth: Depth, s: Slot)
    requires depth != Quick && s in Schedule(contracts, depth)
    ensures Slot(s.case_, 1, false) in Schedule(contracts, depth)
    ensures Slot(s.case_, 2, false) in Schedule(contracts, depth)
    ensures Slot(s.case_, 1, true) in Schedule(contracts, depth)
  {
    var cases, n := Selected(contracts, depth), Repetitions(depth);
    SlotsFrom(cases, n, true, s);
    var c: nat :| c < |cases| && cases[c] == s.case_;
    SlotsHave(cases, n, c, 0);
    SlotsHave(cases, n, c, 1);
    SlotsHave(cases, n, c, n);
  }

  /**
    A completed run above quick depth has all that a confirmation needs: every case it ran has two
    treatments and a control, so only trust and the outcomes are left to decide.
   */
  lemma DeeperRunsCanConfirm(results: seq<TestResult>, items: seq<Prepared>, depth: Depth, key: Key)
    requires Performs(results, items, depth) && depth != Quick && key in Keys(Flatten(results))
    ensures var all := Flatten(results);
      && (exists i: nat, j: nat :: i < j && IsTreatmentOf(all, key, i) && IsTreatmentOf(all, key, j))
      && (exists i: nat :: IsControlOf(all, key, i))
  {
    var all := Flatten(results);
    var r, s := SlotOfKey(results, items, depth, key);
    ScheduleHas(items[r].contracts, depth, s);
    var first := SlotPerformed(results, items, depth, r, Slot(s.case_, 1, false));
    var second := SlotPerformed(results, items, depth, r, Slot(s.case_, 2, false));
    var control := SlotPerformed(results, items, depth, r, Slot(s.case_, 1, true));
    TwoAndOne(all, key, first, second, control);
  }

  lemma TwoAndOne(all: seq<Keyed>, key: Key, first: nat, second: nat, control: nat)
    requires IsTreatmentOf(all, key, first) && IsTreatmentOf(all, key, second)
    requires all[first].trial.repetition != all[second].trial.repetition && IsControlOf(all, key, control)
    ensures exists i: nat, j: nat :: i < j && IsTreatmentOf(all, key, i) && IsTreatmentOf(all, key, j)
    ensures exists i: nat :: IsControlOf(all, key, i)
  {
    assert first < second || second < first;
  }

  lemma SlotOfKey(results: seq<TestResult>, items: seq<Prepared>, depth: Depth, key: Key) returns (r: nat, s: Slot)
    requires Performs(results, items, depth) && key in Keys(Flatten(results))
    ensures r < |results| && s in Schedule(items[r].contracts, depth)
    ensures key == Key(results[r].skill, results[r].snapshot, s.case_.id)
  {
    var i :| 0 <= i < |Flatten(results)| && Flatten(results)[i].key == key;
    FlattenHas(results, Flatten(results)[i]);
    var q, t :| 0 <= q < |results| && 0 <= t < |results[q].trials| && Flatten(results)[i] == KeyedTrials(results[q])[t];
    r, s := q, Schedule(items[q].contracts, depth)[t];
  }
}
