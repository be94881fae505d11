/**
  Planning and running the dynamic tests of one skill (`runtime.py`): what is promised before a run, and the
  trials that the run performs.
 */
module DynamicPlan {
  import opened Prelude
  import Causal

  datatype Depth = Quick | Standard | Deep

  datatype ContractSource = Authored | Inferred

  datatype Contract = Contract(skillName: string, source: ContractSource, trusted: bool, cases: seq<string>)

  datatype Scope =
    | DynamicExecution | AtDepth(depth: Depth)
    | AllowlistedNetwork | ProxiedRuntimeAuth | DependencyInstall | RegistryNetwork | PromoteInferredContract
    | CleanConfiguration | RuntimeOrModelSubstitution | ModelContext | PermissionContext | SandboxPolicy
    | LoadMeasurement

  datatype Plan = Plan(
    depth: Depth, skillCount: nat, authoredTests: nat, inferredTests: nat, repetitions: nat, controlRuns: nat,
    runtimeUses: nat, seconds: nat, cost: Option<real>, scopes: set<Scope>)

  // ----- the plan -----------------------------------------------------------------------------------------

  /** A case with the trust of the contract it comes from. */
  datatype Case = Case(id: string, trusted: bool)

  function CasesOf(c: Contract): (s: seq<Case>)
    ensures |s| == |c.cases|
  {
    seq(|c.cases|, i requires 0 <= i < |c.cases| => Case(c.cases[i], c.trusted))
  }

  function AllCases(contracts: seq<Contract>): seq<Case> {
    if contracts == [] then [] else CasesOf(contracts[0]) + AllCases(contracts[1..])
  }

  function CaseCount(contracts: seq<Contract>): nat {
    if contracts == [] then 0 else |contracts[0].cases| + CaseCount(contracts[1..])
  }

  function CaseCountOf(contracts: seq<Contract>, source: ContractSource): nat {
    if contracts == [] then 0
    else (if contracts[0].source == source then |contracts[0].cases| else 0) + CaseCountOf(contracts[1..], source)
  }

  function Repetitions(depth: Depth): nat { match depth case Quick => 1 case Standard => 3 case Deep => 5 }

  function SelectedCount(depth: Depth, cases: nat): nat {
    match depth case Quick => Min(1, cases) case Standard => Min(3, cases) case Deep => cases
  }

  predicate Promotes(contracts: seq<Contract>) { exists c <- contracts :: c.source == Inferred && c.trusted }

  function RunScopes(contracts: seq<Contract>, depth: Depth, network: bool, dependencies: bool): set<Scope> {
    {DynamicExecution, AtDepth(depth)}
    + (if network then {AllowlistedNetwork, ProxiedRuntimeAuth} else {})
    + (if dependencies then {DependencyInstall, RegistryNetwork} else {})
    + if Promotes(contracts) then {PromoteInferredContract} else {}
  }

  /** Every selected case in all its repetitions, and a control for each above quick depth. */
  function Uses(depth: Depth, selected: nat): nat {
    match depth case Quick => selected case Standard => selected * 3 + selected case Deep => selected * 5 + selected
  }

  function Price(uses: nat, costPerRun: real): real { uses as real * costPerRun }

  /** `plan_dynamic_tests` */
  function PlanTests(
    contracts: seq<Contract>, depth: Depth, network: bool, dependencies: bool, costPerRun: Option<real>): Plan
  {
    var selected := SelectedCount(depth, CaseCount(contracts));
    var controls := if depth == Quick then 0 else selected;
    var uses := Uses(depth, selected);
    Plan(depth, |contracts|, CaseCountOf(contracts, Authored), CaseCountOf(contracts, Inferred),
         Repetitions(depth), controls, uses, uses * 60,
         if costPerRun.None? then None else Some(Price(uses, costPerRun.value)),
         RunScopes(contracts, depth, network, dependencies))
  }

  // ----- the schedule that a plan stands for ----------------------------------------------------------------

  /** One use of the runtime, before its outcome is known. */
  datatype Slot = Slot(case_: Case, repetition: nat, control: bool)

  function CaseSlots(c: Case, repetitions: nat, control: bool): (s: seq<Slot>)
    ensures |s| == repetitions + if control then 1 else 0
    ensures forall i :: 0 <= i < repetitions ==> s[i] == Slot(c, i + 1, false)
    ensures control ==> s[repetitions] == Slot(c, 1, true)
  {
    seq(repetitions, i requires 0 <= i < repetitions => Slot(c, i + 1, false))
    + if control then [Slot(c, 1, true)] else []
  }

  function Slots(cases: seq<Case>, repetitions: nat, control: bool): seq<Slot> {
    if cases == [] then []
    else Slots(cases[..|cases| - 1], repetitions, control) + CaseSlots(cases[|cases| - 1], repetitions, control)
  }

  function Selected(contracts: seq<Contract>, depth: Depth): seq<Case> {
    var all := AllCases(contracts);
    match depth case Quick => all[..Min(1, |all|)] case Standard => all[..Min(3, |all|)] case Deep => all
  }

  /** Each selected case in turn: repetitions 1 to n, and then one control except at quick depth. */
  function Schedule(contracts: seq<Contract>, depth: Depth): seq<Slot> {
    Slots(Selected(contracts, depth), Repetitions(depth), depth != Quick)
  }

  lemma {:induction false} CasesAreCounted(contracts: seq<Contract>)
    ensures |AllCases(contracts)| == CaseCount(contracts)
  {
    if contracts != [] { CasesAreCounted(contracts[1..]); }
  }

  lemma {:induction false} SlotsAreCounted(cases: seq<Case>, repetitions: nat, control: bool)
    ensures |Slots(cases, repetitions, control)| == |cases| * repetitions + if control then |cases| else 0
  {
    if cases != [] {
      SlotsAreCounted(cases[..|cases| - 1], repetitions, control);
      assert |cases| * repetitions == (|cases| - 1) * repetitions + repetitions;
    }
  }

  /** The advertised number of runtime uses is the length of the schedule. */
  lemma PlanCountsSchedule(
    contracts: seq<Contract>, depth: Depth, network: bool, dependencies: bool, costPerRun: Option<real>)
    ensures PlanTests(contracts, depth, network, dependencies, costPerRun).runtimeUses == |Schedule(contracts, depth)|
  {
    CasesAreCounted(contracts);
    SlotsAreCounted(Selected(contracts, depth), Repetitions(depth), depth != Quick);
  }

  // ----- a run -------------------------------------------------------------------------------------------

  /** What one trial observed. */
  datatype Observation = Observation(
    assertionsPass: bool, timedOut: bool, cancelled: bool, truncated: bool, canaryExposed: bool, orphanLeaked: bool)

  /**
    An exception inside a trial: of the adapter, the system or a value, as when dependencies cannot be
    installed; or of the sandbox itself, which is no subclass of those.
   */
  datatype Trouble = AdapterTrouble | SandboxTrouble

  /** Everything outside the program that a run depends on; `nat` numbers the uses and cancellation checks. */
  datatype Environment = Environment(
    ready: bool, cancelledInQueue: bool, versionMatches: Result<bool, Trouble>,
    cancelledBefore: nat -> bool, attempt: nat -> Result<Observation, Trouble>)

  datatype Context = Context(
    identityValid: bool,            // version, model and hash are well formed
    config: Option<string>, configHash: string,
    approvedSubstitution: bool, substitutedRuntime: Option<string>, substitutedModel: Option<string>,
    policyValid: bool,              // permission and sandbox modes and the credentials are supported
    proxied: bool)

  datatype RunError =
    | InvalidValue | ConsentRequired | NotReady | CancelledQueued | VersionMismatch | CancelledRunning
    | TrialFailed | SandboxFailed | Containment(trial: Causal.Trial)

  predicate Truthy(s: Option<string>) { s.Some? && s.value != "" }

  /** `RuntimeContext.validate`, with SHA-256 taken to be injective. */
  function Validate(ctx: Context): Option<RunError> {
    if !ctx.identityValid then Some(InvalidValue)
    else if ctx.config.None? && !ctx.approvedSubstitution then Some(ConsentRequired)
    else if ctx.config.Some? && ctx.config.value != ctx.configHash then Some(InvalidValue)
    else if (Truthy(ctx.substitutedRuntime) || Truthy(ctx.substitutedModel)) && !ctx.approvedSubstitution then
      Some(ConsentRequired)
    else if !ctx.policyValid then Some(InvalidValue)
    else None
  }

  /** `TrialResult.passed` */
  predicate Passed(o: Observation) {
    !o.timedOut && !o.cancelled && !o.canaryExposed && !o.orphanLeaked && !o.truncated && o.assertionsPass
  }

  function TrialOf(s: Slot, o: Observation): Causal.Trial {
    Causal.Trial(s.case_.id, s.repetition, s.control, s.case_.trusted, Passed(o),
                 o.canaryExposed || o.orphanLeaked, o.timedOut)
  }

  function Failing(trouble: Trouble): RunError { if trouble.SandboxTrouble? then SandboxFailed else TrialFailed }

  /** What ends the run at its `i`-th use, if anything does; before a control nobody asks for a cancellation. */
  function Problem(s: Slot, env: Environment, i: nat): Option<RunError> {
    if !s.control && env.cancelledBefore(i) then Some(CancelledRunning)
    else
      match env.attempt(i)
      case Err(trouble) => Some(Failing(trouble))
      case Ok(o) => if TrialOf(s, o).exposed then Some(Containment(TrialOf(s, o))) else None
  }

  predicate SlotOf(t: Causal.Trial, s: Slot) {
    t.caseId == s.case_.id && t.repetition == s.repetition && t.control == s.control && t.trusted == s.case_.trusted
  }

  ghost predicate Fills(trials: seq<Causal.Trial>, slots: seq<Slot>) {
    |trials| == |slots| && forall i :: 0 <= i < |slots| ==> SlotOf(trials[i], slots[i])
  }

  ghost predicate Untroubled(slots: seq<Slot>, env: Environment, n: nat)
    requires n <= |slots|
  {
    forall i :: 0 <= i < n ==> Problem(slots[i], env, i) == None
  }

  /** Trial by trial, what was observed of the slot at that point of the run. */
  ghost predicate Records(trials: seq<Causal.Trial>, slots: seq<Slot>, env: Environment) {
    && |trials| == |slots| && Untroubled(slots, env, |slots|)
    && forall i :: 0 <= i < |slots| ==> env.attempt(i).Ok? && trials[i] == TrialOf(slots[i], env.attempt(i).value)
  }

  /** The run ends with its first problem, and without one with a trial for every slot. */
  ghost predicate EndsAs(r: Result<seq<Causal.Trial>, RunError>, slots: seq<Slot>, env: Environment) {
    match r
    case Ok(trials) => Records(trials, slots, env)
    case Err(e) => exists i :: 0 <= i < |slots| && Problem(slots[i], env, i) == Some(e) && Untroubled(slots, env, i)
  }

  lemma RecordsMore(trials: seq<Causal.Trial>, slots: seq<Slot>, s: Slot, env: Environment)
    requires Records(trials, slots, env) && Problem(s, env, |slots|) == None
    ensures Records(trials + [TrialOf(s, env.attempt(|slots|).value)], slots + [s], env)
  {
  }

  /** A problem ends every run that has come so far, whatever was still planned. */
  lemma EndsEarly(e: RunError, done: seq<Slot>, s: Slot, more: seq<Slot>, env: Environment)
    requires Untroubled(done, env, |done|) && Problem(s, env, |done|) == Some(e)
    ensures EndsAs(Err(e), done + [s] + more, env)
  {
    var all := done + [s] + more;
    assert all[|done|] == s;
    assert forall i :: 0 <= i < |done| ==> all[i] == done[i];
  }

  lemma EndsBeforeMore(e: RunError, slots: seq<Slot>, more: seq<Slot>, env: Environment)
    requires EndsAs(Err(e), slots, env)
    ensures EndsAs(Err(e), slots + more, env)
  {
    var i :| 0 <= i < |slots| && Problem(slots[i], env, i) == Some(e) && Untroubled(slots, env, i);
    var all := slots + more;
    assert forall k :: 0 <= k < |slots| ==> all[k] == slots[k];
    assert Problem(all[i], env, i) == Some(e);
  }

  /** One use of the runtime. */
  method RunSlot(s: Slot, env: Environment, before: seq<Causal.Trial>, ghost slots: seq<Slot>)
    returns (r: Result<seq<Causal.Trial>, RunError>)
    requires Records(before, slots, env)
    ensures EndsAs(r, slots + [s], env)
    ensures r.Err? ==> Problem(s, env, |slots|) == Some(r.error)
  {
    if !s.control {
      if env.cancelledBefore(|before|) {
        EndsEarly(CancelledRunning, slots, s, [], env);
        assert slots + [s] + [] == slots + [s];
        return Err(CancelledRunning);
      }
    }
    var attempt := env.attempt(|before|);
    if attempt.Err? {
      var e := Failing(attempt.error);
      EndsEarly(e, slots, s, [], env);
      assert slots + [s] + [] == slots + [s];
      return Err(e);
    }
    var trial := TrialOf(s, attempt.value);
    if trial.exposed {
      EndsEarly(Containment(trial), slots, s, [], env);
      assert slots + [s] + [] == slots + [s];
      return Err(Containment(trial));
    }
    RecordsMore(before, slots, s, env);
    r := Ok(before + [trial]);
  }

  /** The trials of one case, after those of the cases before it. */
  method RunCase(
    c: Case, repetitions: nat, control: bool, env: Environment, before: seq<Causal.Trial>, ghost slots: seq<Slot>)
    returns (r: Result<seq<Causal.Trial>, RunError>)
    requires Records(before, slots, env)
    ensures EndsAs(r, slots + CaseSlots(c, repetitions, control), env)
  {
    ghost var all := CaseSlots(c, repetitions, control);
    r := Ok(before);
    assert slots + all[..0] == slots;
    for repetition := 0 to repetitions
      invariant r.Ok? && Records(r.value, slots + all[..repetition], env)
    {
      var slot := Slot(c, repetition + 1, false);
      assert slots + all[..repetition] + [slot] == slots + all[..repetition + 1];
      r := RunSlot(slot, env, r.value, slots + all[..repetition]);
      if r.Err? {
        EndsBeforeMore(r.error, slots + all[..repetition + 1], all[repetition + 1..], env);
        assert slots + all[..repetition + 1] + all[repetition + 1..] == slots + all;
        return;
      }
    }
    if control {
      assert slots + all[..repetitions] + [Slot(c, 1, true)] == slots + all;
      r := RunSlot(Slot(c, 1, true), env, r.value, slots + all[..repetitions]);
    } else {
      assert all[..repetitions] == all;
    }
  }

  lemma {:induction false} SlotsConcat(a: seq<Case>, b: seq<Case>, repetitions: nat, control: bool)
    ensures Slots(a + b, repetitions, control) == Slots(a, repetitions, control) + Slots(b, repetitions, control)
  {
    if b == [] {
      assert a + b == a;
    } else {
      var n := |b| - 1;
      SlotsConcat(a, b[..n], repetitions, control);
      assert (a + b)[..|a + b| - 1] == a + b[..n] && (a + b)[|a + b| - 1] == b[n];
      var last := CaseSlots(b[n], repetitions, control);
      assert Slots(a, repetitions, control) + (Slots(b[..n], repetitions, control) + last)
          == Slots(a, repetitions, control) + Slots(b[..n], repetitions, control) + last;
    }
  }

  method RunSelected(selected: seq<Case>, repetitions: nat, control: bool, env: Environment)
    returns (r: Result<seq<Causal.Trial>, RunError>)
    ensures EndsAs(r, Slots(selected, repetitions, control), env)
  {
    r := Ok([]);
    for i := 0 to |selected|
      invariant r.Ok? && Records(r.value, Slots(selected[..i], repetitions, control), env)
    {
      ghost var done := Slots(selected[..i], repetitions, control);
      assert selected[..i + 1][..i] == selected[..i];
      r := RunCase(selected[i], repetitions, control, env, r.value, done);
      if r.Err? {
        SlotsConcat(selected[..i + 1], selected[i + 1..], repetitions, control);
        assert selected[..i + 1] + selected[i + 1..] == selected;
        EndsBeforeMore(r.error, Slots(selected[..i + 1], repetitions, control),
                       Slots(selected[i + 1..], repetitions, control), env);
        return;
      }
    }
    assert selected[..|selected|] == selected;
  }

  /** What refuses the run before its first trial. */
  function Gate(
    ctx: Context, contracts: seq<Contract>, depth: Depth, approved: set<Scope>, dependencies: bool, env: Environment)
    : Option<RunError>
  {
    if Validate(ctx).Some? then Validate(ctx)
    else if !(RunScopes(contracts, depth, ctx.proxied, dependencies) <= approved) then Some(ConsentRequired)
    else if !env.ready then Some(NotReady)
    else if env.cancelledInQueue then Some(CancelledQueued)
    else
      match env.versionMatches
      case Err(trouble) => Some(Failing(trouble))
      case Ok(matches) => if matches then None else Some(VersionMismatch)
  }

  /** What a run comes to. */
  ghost predicate RunsTo(
    r: Result<seq<Causal.Trial>, RunError>, ctx: Context, contracts: seq<Contract>, depth: Depth, approved: set<Scope>,
    dependencies: bool, env: Environment)
  {
    var gate := Gate(ctx, contracts, depth, approved, dependencies, env);
    if gate.Some? then r == Err(gate.value) else EndsAs(r, Schedule(contracts, depth), env)
  }

  /**
    `run_dynamic_tests`: behind its gate a run performs the schedule in order, and ends early exactly at the
    first cancellation, exception or exposure.
   */
  method RunDynamicTests(
    ctx: Context, contracts: seq<Contract>, depth: Depth, approved: set<Scope>, dependencies: bool, env: Environment)
    returns (r: Result<seq<Causal.Trial>, RunError>)
    ensures RunsTo(r, ctx, contracts, depth, approved, dependencies, env)
    ensures r.Ok? ==> |r.value| == PlanTests(contracts, depth, ctx.proxied, dependencies, None).runtimeUses
  {
    PlanCountsSchedule(contracts, depth, ctx.proxied, dependencies, None);
    var invalid := Validate(ctx);
    if invalid.Some? { return Err(invalid.value); }
    var plan := PlanTests(contracts, depth, ctx.proxied, dependencies, None);
    if plan.scopes - approved != {} {
      ghost var scope :| scope in plan.scopes - approved;
      return Err(ConsentRequired);
    }
    assert plan.scopes <= approved;
    if !env.ready { return Err(NotReady); }
    var all := AllCases(contracts);
    CasesAreCounted(contracts);
    var selectedCount := if depth == Quick then 1 else if depth == Standard then Min(3, |all|) else |all|;
    var selected := all[..Min(selectedCount, |all|)];
    assert selected == Selected(contracts, depth);
    if env.cancelledInQueue { return Err(CancelledQueued); }
    if env.versionMatches.Err? { return Err(Failing(env.versionMatches.error)); }
    if !env.versionMatches.value { return Err(VersionMismatch); }
    assert plan.controlRuns > 0 <==> depth != Quick && selected != [];
    r := RunSelected(selected, plan.repetitions, plan.controlRuns > 0, env);
    if selected == [] { assert Slots(selected, plan.repetitions, true) == Slots(selected, plan.repetitions, false); }
  }

  // ----- what is planned and asked for ------------------------------------------------------------------------

  lemma {:induction false} BlocksAreCounted(cases: seq<Case>, repetitions: nat, control: bool, per: nat)
    requires per == repetitions + if control then 1 else 0
    ensures |Slots(cases, repetitions, control)| == |cases| * per
  {
    if cases != [] {
      BlocksAreCounted(cases[..|cases| - 1], repetitions, control, per);
      assert |cases| * per == (|cases| - 1) * per + per;
    }
  }

  /** Use `o` of case `b`: the repetitions in order, and then the control. */
  lemma {:induction false} SlotsAt(cases: seq<Case>, repetitions: nat, control: bool, per: nat, b: nat, o: nat)
    requires per == (repetitions + if control then 1 else 0) && b < |cases| && o < per
    ensures var slots := Slots(cases, repetitions, control);
      b * per + o < |slots|
      && slots[b * per + o] == if o < repetitions then Slot(cases[b], o + 1, false) else Slot(cases[b], 1, true)
  {
    var n := |cases| - 1;
    var front := Slots(cases[..n], repetitions, control);
    BlocksAreCounted(cases[..n], repetitions, control, per);
    if b < n {
      SlotsAt(cases[..n], repetitions, control, per, b, o);
    } else {
      assert Slots(cases, repetitions, control) == front + CaseSlots(cases[n], repetitions, control);
    }
  }

  /**
    The schedule, use by use: at quick depth the first case once; at standard depth each of the first three cases
    three times and then a control; at deep depth every case five times and then a control.
   */
  lemma ScheduleAt(contracts: seq<Contract>, depth: Depth, b: nat, o: nat)
    requires b < match depth case Quick => 1 case Standard => 3 case Deep => CaseCount(contracts)
    requires b < CaseCount(contracts) && o < match depth case Quick => 1 case Standard => 4 case Deep => 6
    ensures |AllCases(contracts)| == CaseCount(contracts)
    ensures var s, c := Schedule(contracts, depth), AllCases(contracts)[b];
      match depth
      case Quick => |s| == 1 && s[0] == Slot(c, 1, false)
      case Standard =>
        && |s| == 4 * Min(3, CaseCount(contracts)) && 4 * b + o < |s|
        && s[4 * b + o] == if o < 3 then Slot(c, o + 1, false) else Slot(c, 1, true)
      case Deep =>
        && |s| == 6 * CaseCount(contracts) && 6 * b + o < |s|
        && s[6 * b + o] == if o < 5 then Slot(c, o + 1, false) else Slot(c, 1, true)
  {
    var selected := Selected(contracts, depth);
    CasesAreCounted(contracts);
    match depth
    case Quick =>
      SlotsAt(selected, 1, false, 1, b, o);
      BlocksAreCounted(selected, 1, false, 1);
    case Standard =>
      SlotsAt(selected, 3, true, 4, b, o);
      BlocksAreCounted(selected, 3, true, 4);
    case Deep =>
      SlotsAt(selected, 5, true, 6, b, o);
      BlocksAreCounted(selected, 5, true, 6);
  }

  /** A case bears the trust of the contract it stands in. */
  lemma {:induction false} CasesOfContracts(contracts: seq<Contract>, c: Case)
    ensures c in AllCases(contracts)
       <==> exists contract <- contracts :: c.id in contract.cases && c.trusted == contract.trusted
  {
    if contracts != [] {
      var first := contracts[0];
      CasesOfContracts(contracts[1..], c);
      assert contracts == [first] + contracts[1..];
      if c.id in first.cases && c.trusted == first.trusted {
        var i :| 0 <= i < |first.cases| && first.cases[i] == c.id;
        assert CasesOf(first)[i] == c;
      }
      if c in CasesOf(first) {
        var i :| 0 <= i < |first.cases| && CasesOf(first)[i] == c;
      }
    }
  }

  function WithSource(contracts: seq<Contract>, source: ContractSource): seq<Contract> {
    if contracts == [] then []
    else (if contracts[0].source == source then [contracts[0]] else []) + WithSource(contracts[1..], source)
  }

  lemma {:induction false} SourcesAreCounted(contracts: seq<Contract>)
    ensures CaseCountOf(contracts, Authored) == |AllCases(WithSource(contracts, Authored))|
    ensures CaseCountOf(contracts, Inferred) == |AllCases(WithSource(contracts, Inferred))|
    ensures CaseCountOf(contracts, Authored) + CaseCountOf(contracts, Inferred) == CaseCount(contracts)
  {
    if contracts != [] {
      var first, rest := contracts[0], contracts[1..];
      SourcesAreCounted(rest);
      assert WithSource(contracts, first.source)[1..] == WithSource(rest, first.source);
      assert forall source :: source != first.source ==> WithSource(contracts, source) == WithSource(rest, source);
    }
  }

  /** The numbers of a plan: cases by their source, and every selected case in its repetitions and its control. */
  lemma PlanNumbers(
    contracts: seq<Contract>, depth: Depth, network: bool, dependencies: bool, costPerRun: Option<real>)
    ensures var plan, n := PlanTests(contracts, depth, network, dependencies, costPerRun), CaseCount(contracts);
      && plan.depth == depth && plan.skillCount == |contracts| && plan.authoredTests + plan.inferredTests == n
      && plan.authoredTests == |AllCases(WithSource(contracts, Authored))|
      && plan.inferredTests == |AllCases(WithSource(contracts, Inferred))|
      && plan.seconds == 60 * plan.runtimeUses
      && match depth
         case Quick => plan.repetitions == 1 && plan.controlRuns == 0 && plan.runtimeUses == Min(1, n)
         case Standard =>
           plan.repetitions == 3 && plan.controlRuns == Min(3, n) && plan.runtimeUses == 4 * plan.controlRuns
         case Deep => plan.repetitions == 5 && plan.controlRuns == n && plan.runtimeUses == 6 * n
  {
    SourcesAreCounted(contracts);
  }

  /** What the consent to a run covers, exactly. */
  lemma ScopesAskedFor(contracts: seq<Contract>, depth: Depth, network: bool, dependencies: bool, scope: Scope)
    ensures scope in RunScopes(contracts, depth, network, dependencies) <==>
              match scope
              case DynamicExecution => true
              case AtDepth(d) => d == depth
              case AllowlistedNetwork => network
              case ProxiedRuntimeAuth => network
              case DependencyInstall => dependencies
              case RegistryNetwork => dependencies
              case PromoteInferredContract => exists c <- contracts :: c.source == Inferred && c.trusted
              case _ => false
  {
  }

  /** Another runtime or model is asked for. */
  predicate IsGiven(s: Option<string>) { s.Some? && 0 < |s.value| }

  /** The context is accepted exactly if it is well formed and consents to every substitution in it. */
  lemma ContextIsValidIff(ctx: Context)
    ensures Validate(ctx).None? <==>
              && ctx.identityValid && ctx.policyValid
              && (ctx.config.Some? ==> ctx.config.value == ctx.configHash)
              && (ctx.config.None? || IsGiven(ctx.substitutedRuntime) || IsGiven(ctx.substitutedModel) ==>
                    ctx.approvedSubstitution)
    ensures Validate(ctx) == Some(ConsentRequired) <==>
              && ctx.identityValid && !ctx.approvedSubstitution
              && (ctx.config.None?
                  || (ctx.config.value == ctx.configHash
                      && (IsGiven(ctx.substitutedRuntime) || IsGiven(ctx.substitutedModel))))
    ensures Validate(ctx).Some? ==> Validate(ctx).value in {InvalidValue, ConsentRequired}
  {
  }

  /** The gate opens exactly for a valid context, an approved plan, a ready machine, no cancellation and its version. */
  lemma GateOpensIff(
    ctx: Context, contracts: seq<Contract>, depth: Depth, approved: set<Scope>, dependencies: bool, env: Environment)
    ensures Gate(ctx, contracts, depth, approved, dependencies, env).None? <==>
              && Validate(ctx).None?
              && (forall scope <- RunScopes(contracts, depth, ctx.proxied, dependencies) :: scope in approved)
              && env.ready && !env.cancelledInQueue && env.versionMatches == Ok(true)
    ensures var gate := Gate(ctx, contracts, depth, approved, dependencies, env);
            var consents := forall scope <- RunScopes(contracts, depth, ctx.proxied, dependencies) :: scope in approved;
      Validate(ctx).None? && consents ==>
        && (gate == Some(NotReady) <==> !env.ready)
        && (gate == Some(CancelledQueued) <==> env.ready && env.cancelledInQueue)
        && (env.ready && !env.cancelledInQueue ==>
              && (gate == Some(VersionMismatch) <==> env.versionMatches == Ok(false))
              && (gate == Some(SandboxFailed) <==> env.versionMatches == Err(SandboxTrouble))
              && (gate == Some(TrialFailed) <==> env.versionMatches == Err(AdapterTrouble)))
  {
  }

  // ----- what a run promises ---------------------------------------------------------------------------------

  /** A trial passes if its assertions do and nothing else went wrong; it exposes what leaks or is left behind. */
  ghost predicate Observes(t: Causal.Trial, o: Observation) {
    && (t.passed <==>
          o.assertionsPass && !(o.timedOut || o.cancelled || o.truncated || o.canaryExposed || o.orphanLeaked))
    && (t.exposed <==> o.canaryExposed || o.orphanLeaked) && (t.timedOut <==> o.timedOut)
  }

  /** The trials of a run that returns are what was observed, use by use. */
  lemma CompleteRunsObserve(trials: seq<Causal.Trial>, slots: seq<Slot>, env: Environment)
    requires EndsAs(Ok(trials), slots, env)
    ensures |trials| == |slots| && forall i: nat :: i < |slots| ==>
              env.attempt(i).Ok? && Observes(trials[i], env.attempt(i).value) && SlotOf(trials[i], slots[i])
  {
  }

  ghost predicate Leaks(o: Observation) { o.canaryExposed || o.orphanLeaked }

  /** The use goes through: nobody cancelled it, which counts for treatments alone, and nothing went wrong. */
  ghost predicate Quiet(s: Slot, env: Environment, i: nat) {
    (s.control || !env.cancelledBefore(i)) && env.attempt(i).Ok? && !Leaks(env.attempt(i).value)
  }

  /** Why the use ends the run with `e`. */
  ghost predicate StopsWith(e: RunError, s: Slot, env: Environment, i: nat) {
    if !s.control && env.cancelledBefore(i) then e == CancelledRunning
    else if env.attempt(i).Err? then
      e == match env.attempt(i).error case AdapterTrouble => TrialFailed case SandboxTrouble => SandboxFailed
    else
      && Leaks(env.attempt(i).value) && e.Containment? && SlotOf(e.trial, s) && e.trial.exposed
      && Observes(e.trial, env.attempt(i).value)
  }

  /** The run stops at the first use that does not go through, with the reason of that use. */
  lemma RunStopsIff(e: RunError, slots: seq<Slot>, env: Environment)
    ensures EndsAs(Err(e), slots, env)
       <==> exists i :: 0 <= i < |slots| && StopsWith(e, slots[i], env, i)
                        && forall j :: 0 <= j < i ==> Quiet(slots[j], env, j)
  {
    forall s, i: nat ensures Problem(s, env, i) == Some(e) <==> StopsWith(e, s, env, i) { }
    forall s, i: nat ensures Problem(s, env, i) == None <==> Quiet(s, env, i) { }
  }

  /** A run that returns filled its whole schedule, and exposed nothing. */
  lemma CompleteRunsFill(trials: seq<Causal.Trial>, slots: seq<Slot>, env: Environment)
    requires EndsAs(Ok(trials), slots, env)
    ensures Fills(trials, slots) && forall t <- trials :: !t.exposed
  {
    forall i | 0 <= i < |slots| ensures SlotOf(trials[i], slots[i]) && !trials[i].exposed {
      assert Problem(slots[i], env, i) == None;
    }
  }

  /** A run that ends with an exposure names the trial of a planned slot. */
  lemma ExposureIsOfASlot(trial: Causal.Trial, slots: seq<Slot>, env: Environment)
    requires EndsAs(Err(Containment(trial)), slots, env)
    ensures trial.exposed && !trial.passed && exists s <- slots :: SlotOf(trial, s)
  {
    var i :| 0 <= i < |slots| && Problem(slots[i], env, i) == Some(Containment(trial));
    assert slots[i] in slots && SlotOf(trial, slots[i]);
  }

  /** Consent is asked for at the gate only, and exactly if the context or the approved scopes lack it. */
  lemma ConsentIsAskedAtTheGate(
    r: Result<seq<Causal.Trial>, RunError>, ctx: Context, contracts: seq<Contract>, depth: Depth, approved: set<Scope>,
    dependencies: bool, env: Environment)
    requires RunsTo(r, ctx, contracts, depth, approved, dependencies, env)
    ensures r == Err(ConsentRequired) <==>
              Validate(ctx) == Some(ConsentRequired)
              || (Validate(ctx) == None && !(RunScopes(contracts, depth, ctx.proxied, dependencies) <= approved))
  {
    forall s, i: nat ensures Problem(s, env, i) != Some(ConsentRequired) { }
  }

  /** A run has one result: the first problem decides it, or what was observed of every slot. */
  lemma RunsOneWay(
    r: Result<seq<Causal.Trial>, RunError>, other: Result<seq<Causal.Trial>, RunError>, ctx: Context,
    contracts: seq<Contract>, depth: Depth, approved: set<Scope>, dependencies: bool, env: Environment)
    requires RunsTo(r, ctx, contracts, depth, approved, dependencies, env)
    requires RunsTo(other, ctx, contracts, depth, approved, dependencies, env)
    ensures r == other
  {
    if Gate(ctx, contracts, depth, approved, dependencies, env) == None {
      var slots := Schedule(contracts, depth);
      if r.Err? {
        var i :| 0 <= i < |slots| && Problem(slots[i], env, i) == Some(r.error) && Untroubled(slots, env, i);
        if other.Err? {
          var k :| 0 <= k < |slots| && Problem(slots[k], env, k) == Some(other.error) && Untroubled(slots, env, k);
          assert i == k;
        }
      } else if other.Ok? {
        assert r.value == other.value;
      }
    }
  }
}
