/** The checks an agent plan passes before it is accepted and before each of its steps is
    executed, delegation, and the budget. */
module AgentPlan {
  import opened Wrappers
  import Sorting

  datatype Risk = Low | Medium | High | Critical

  function Rank(r: Risk): nat {
    match r
    case Low => 0
    case Medium => 1
    case High => 2
    case Critical => 3
  }

  datatype Budget = Budget(tokens: int, cost: int, calls: int, seconds: int)
  datatype Manifest = Manifest(id: nat, version: int, toolClasses: set<string>, ceiling: Risk, budget: Budget,
                               policy: string, enabled: bool)
  datatype Tool = Tool(key: string, version: int, command: string, permission: string, risk: Risk, enabled: bool)
  datatype Delegation = Delegation(permissions: set<string>, ceiling: Risk, expiresAt: int)
  datatype Step = Step(key: string, toolKey: string, toolVersion: int, payload: string, resourceVersion: int,
                       risk: Risk, approval: Option<nat>)
  datatype PlanStatus = Proposed | Validated | Accepted
  datatype Plan = Plan(manifest: nat, manifestVersion: int, policy: string, tokens: int, cost: int,
                       steps: seq<Step>, status: PlanStatus)

  datatype Error =
    | NotProposed | ManifestBinding | PolicyChanged | OverBudget | UnknownTool | ClassNotAllowed | RiskTooHigh
    | NaiveClock | Disabled | DelegationExpired | ToolBindingChanged | NotAuthorized | RiskCeiling | ApprovalRequired
    | BudgetExhausted | Amplifies | Unavailable | NoCurrentStep | ExecutorFailed | Terminal

  /** What the plan's own constructor checks. */
  predicate WellFormed(plan: Plan) {
    plan.steps != [] && forall i, j :: 0 <= i < j < |plan.steps| ==> plan.steps[i].key != plan.steps[j].key
  }

  function Keys(steps: seq<Step>): set<string> {
    set step | step in steps :: step.key
  }

  ghost predicate KeysDiffer(steps: seq<Step>) {
    forall i, j :: 0 <= i < j < |steps| ==> steps[i].key != steps[j].key
  }

  /** A plan is well formed exactly if it has steps and as many keys as steps. */
  lemma WellFormedIffKeysDiffer(plan: Plan)
    ensures WellFormed(plan) <==> 0 < |plan.steps| == |Keys(plan.steps)|
  {
    KeysCounted(plan.steps);
    assert WellFormed(plan) <==> plan.steps != [] && KeysDiffer(plan.steps);
  }

  lemma {:induction false} KeysCounted(steps: seq<Step>)
    ensures |Keys(steps)| <= |steps|
    ensures |Keys(steps)| == |steps| <==> KeysDiffer(steps)
  {
    if steps != [] {
      KeysCounted(steps[1..]);
      KeysStep(steps);
      assert Keys(steps) == Keys(steps[1..]) + {steps[0].key} by {
        assert steps == [steps[0]] + steps[1..];
      }
    }
  }

  lemma KeysStep(steps: seq<Step>)
    requires steps != []
    ensures KeysDiffer(steps) <==> KeysDiffer(steps[1..]) && steps[0].key !in Keys(steps[1..])
  {
    var rest := steps[1..];
    assert forall i :: 1 <= i < |steps| ==> steps[i] == rest[i - 1];
    if KeysDiffer(steps) {
      forall step | step in rest ensures step.key != steps[0].key {
        var i :| 0 <= i < |rest| && rest[i] == step;
        assert steps[i + 1] == step;
      }
    }
    if KeysDiffer(rest) && steps[0].key !in Keys(rest) {
      forall j | 0 < j < |steps| ensures steps[0].key != steps[j].key {
        assert rest[j - 1] in rest;
      }
    }
  }

  /** SHA-256 over the command, the canonical payload and the resource version. */
  type Digest = (string, string, int) -> string

  function ActionDigest(d: Digest, tool: Tool, step: Step): string {
    d(tool.command, step.payload, step.resourceVersion)
  }

  /** The part of a tool key before its first dot. */
  function ToolClass(key: string): string {
    if key == "" || key[0] == '.' then "" else [key[0]] + ToolClass(key[1..])
  }

  // ----- Accepting a plan -----

  function StepError(step: Step, manifest: Manifest, tools: map<string, Tool>): Option<Error> {
    if step.toolKey !in tools || tools[step.toolKey].version != step.toolVersion || !tools[step.toolKey].enabled
    then Some(UnknownTool)
    else if ToolClass(step.toolKey) !in manifest.toolClasses then Some(ClassNotAllowed)
    else if step.risk != tools[step.toolKey].risk || Rank(step.risk) > Rank(manifest.ceiling) then Some(RiskTooHigh)
    else None
  }

  function FirstError(steps: seq<Step>, manifest: Manifest, tools: map<string, Tool>): Option<Error> {
    if steps == [] then None
    else if StepError(steps[0], manifest, tools).Some? then StepError(steps[0], manifest, tools)
    else FirstError(steps[1..], manifest, tools)
  }

  function ValidatePlan(plan: Plan, manifest: Manifest, tools: map<string, Tool>): Result<Plan, Error> {
    if !plan.status.Proposed? then Err(NotProposed)
    else if plan.manifest != manifest.id || plan.manifestVersion != manifest.version || !manifest.enabled
    then Err(ManifestBinding)
    else if plan.policy != manifest.policy then Err(PolicyChanged)
    else if plan.tokens > manifest.budget.tokens || plan.cost > manifest.budget.cost
            || |plan.steps| > manifest.budget.calls
    then Err(OverBudget)
    else match FirstError(plan.steps, manifest, tools)
      case Some(e) => Err(e)
      case None => Ok(plan.(status := Validated))
  }

  lemma {:induction false} NoErrorInAnyStep(steps: seq<Step>, manifest: Manifest, tools: map<string, Tool>, i: nat)
    requires FirstError(steps, manifest, tools) == None && i < |steps|
    ensures StepError(steps[i], manifest, tools) == None
  {
    if i > 0 {
      NoErrorInAnyStep(steps[1..], manifest, tools, i - 1);
    }
  }

  /** Risks in their order. */
  predicate AtMost(a: Risk, b: Risk) {
    a == b || a.Low? || b.Critical? || (a.Medium? && b.High?)
  }

  lemma RanksOrder(a: Risk, b: Risk)
    ensures Rank(a) <= Rank(b) <==> AtMost(a, b)
  {
  }

  /** The class of a tool is what comes before the first dot of its key. */
  lemma {:induction false} ToolClassEndsAtDot(key: string)
    ensures ToolClass(key) <= key && '.' !in ToolClass(key)
    ensures ToolClass(key) == key || key[|ToolClass(key)|] == '.'
  {
    if key != "" && key[0] != '.' {
      ToolClassEndsAtDot(key[1..]);
    }
  }

  /** A step the manifest admits: its tool is registered, enabled and of the version and
      risk the step names, its class is admitted and its risk within the ceiling. */
  predicate Admitted(step: Step, manifest: Manifest, tools: map<string, Tool>) {
    && step.toolKey in tools
    && tools[step.toolKey].version == step.toolVersion && tools[step.toolKey].enabled
    && tools[step.toolKey].risk == step.risk
    && ToolClass(step.toolKey) in manifest.toolClasses && AtMost(step.risk, manifest.ceiling)
  }

  lemma StepErrorsInOrder(step: Step, manifest: Manifest, tools: map<string, Tool>)
    ensures var r := StepError(step, manifest, tools);
            var known := && step.toolKey in tools && tools[step.toolKey].version == step.toolVersion
                         && tools[step.toolKey].enabled;
            && (r == None <==> Admitted(step, manifest, tools))
            && (r == Some(UnknownTool) <==> !known)
            && (r == Some(ClassNotAllowed) <==> known && ToolClass(step.toolKey) !in manifest.toolClasses)
            && (r.Some? ==> r.value.UnknownTool? || r.value.ClassNotAllowed? || r.value.RiskTooHigh?)
  {
    RanksOrder(step.risk, manifest.ceiling);
  }

  /** The plan is refused for its first step that is not admitted. */
  lemma {:induction false} FirstErrorIsFirst(steps: seq<Step>, manifest: Manifest, tools: map<string, Tool>)
    ensures FirstError(steps, manifest, tools) == None <==>
              forall i :: 0 <= i < |steps| ==> Admitted(steps[i], manifest, tools)
    ensures FirstError(steps, manifest, tools).Some? ==>
              exists i :: && 0 <= i < |steps|
                          && StepError(steps[i], manifest, tools) == FirstError(steps, manifest, tools)
                          && forall j :: 0 <= j < i ==> Admitted(steps[j], manifest, tools)
  {
    if steps != [] {
      StepErrorsInOrder(steps[0], manifest, tools);
      var rest := steps[1..];
      FirstErrorIsFirst(rest, manifest, tools);
      assert forall i :: 1 <= i < |steps| ==> steps[i] == rest[i - 1];
      assert (forall i :: 0 <= i < |rest| ==> Admitted(rest[i], manifest, tools))
        ==> forall i :: 1 <= i < |steps| ==> Admitted(steps[i], manifest, tools);
      if StepError(steps[0], manifest, tools).None? && FirstError(rest, manifest, tools).Some? {
        var i :| && 0 <= i < |rest| && StepError(rest[i], manifest, tools) == FirstError(rest, manifest, tools)
                 && forall j :: 0 <= j < i ==> Admitted(rest[j], manifest, tools);
        assert steps[i + 1] == rest[i];
        assert forall j :: 0 <= j < i + 1 ==> Admitted(steps[j], manifest, tools);
      }
    }
  }

  /** A plan is accepted exactly when it is proposed, bound to an enabled manifest and its
      policy, within the budget, and every step of it is admitted. */
  lemma PlanAcceptedIff(plan: Plan, manifest: Manifest, tools: map<string, Tool>)
    ensures var r := ValidatePlan(plan, manifest, tools);
            var bound := plan.manifest == manifest.id && plan.manifestVersion == manifest.version && manifest.enabled;
            var fits := && plan.tokens <= manifest.budget.tokens && plan.cost <= manifest.budget.cost
                        && |plan.steps| <= manifest.budget.calls;
            && (r.Ok? <==>
                && plan.status.Proposed? && bound && plan.policy == manifest.policy && fits
                && forall i :: 0 <= i < |plan.steps| ==> Admitted(plan.steps[i], manifest, tools))
            && (r.Ok? ==> r.value == plan.(status := Validated))
            && (r == Err(NotProposed) <==> !plan.status.Proposed?)
            && (r == Err(ManifestBinding) <==> plan.status.Proposed? && !bound)
            && (r == Err(PolicyChanged) <==> plan.status.Proposed? && bound && plan.policy != manifest.policy)
            && (r == Err(OverBudget) <==> plan.status.Proposed? && bound && plan.policy == manifest.policy && !fits)
  {
    FirstErrorIsFirst(plan.steps, manifest, tools);
    forall i | 0 <= i < |plan.steps| {
      StepErrorsInOrder(plan.steps[i], manifest, tools);
    }
  }

  // ----- Executing a step -----

  /** The circumstances of one execution: the clock, the authorizer's and the approval
      validator's answers. */
  datatype Moment = Moment(aware: bool, now: int, authorized: bool, approved: bool)

  predicate NeedsApproval(step: Step) {
    step.risk.High? || step.risk.Critical?
  }

  function ValidateExecution(d: Digest, step: Step, tool: Tool, manifest: Manifest, del: Delegation,
                             m: Moment): Result<string, Error> {
    if !m.aware then Err(NaiveClock)
    else if !manifest.enabled || !tool.enabled then Err(Disabled)
    else if del.expiresAt <= m.now then Err(DelegationExpired)
    else if step.toolKey != tool.key || step.toolVersion != tool.version then Err(ToolBindingChanged)
    else if tool.permission !in del.permissions || !m.authorized then Err(NotAuthorized)
    else if Rank(step.risk) > Rank(manifest.ceiling) || Rank(step.risk) > Rank(del.ceiling) then Err(RiskCeiling)
    else if NeedsApproval(step) && (step.approval == None || !m.approved) then Err(ApprovalRequired)
    else Ok(ActionDigest(d, tool, step))
  }

  /** A step is let through exactly when the clock knows its zone, manifest and tool are
      enabled, the delegation is alive, grants the tool's permission and is authorized, the
      tool is the one the step names, both ceilings admit its risk, and a high or critical
      risk was approved; and then under the digest of its own command and payload. */
  lemma LetThroughIff(d: Digest, step: Step, tool: Tool, manifest: Manifest, del: Delegation, m: Moment)
    ensures var r := ValidateExecution(d, step, tool, manifest, del, m);
            && (r.Ok? <==>
                && m.aware && manifest.enabled && tool.enabled && m.now < del.expiresAt
                && step.toolKey == tool.key && step.toolVersion == tool.version
                && tool.permission in del.permissions && m.authorized
                && AtMost(step.risk, manifest.ceiling) && AtMost(step.risk, del.ceiling)
                && (step.risk.High? || step.risk.Critical? ==> step.approval.Some? && m.approved))
            && (r.Ok? ==> r.value == d(tool.command, step.payload, step.resourceVersion))
  {
    RanksOrder(step.risk, manifest.ceiling);
    RanksOrder(step.risk, del.ceiling);
  }

  /** Of several reasons to refuse a step the first in this order is given. */
  lemma RefusedInOrder(d: Digest, step: Step, tool: Tool, manifest: Manifest, del: Delegation, m: Moment)
    ensures var r := ValidateExecution(d, step, tool, manifest, del, m);
            var enabled, alive := manifest.enabled && tool.enabled, m.now < del.expiresAt;
            var bound := step.toolKey == tool.key && step.toolVersion == tool.version;
            var granted := tool.permission in del.permissions && m.authorized;
            var within := AtMost(step.risk, manifest.ceiling) && AtMost(step.risk, del.ceiling);
            && (r == Err(NaiveClock) <==> !m.aware)
            && (r == Err(Disabled) <==> m.aware && !enabled)
            && (r == Err(DelegationExpired) <==> m.aware && enabled && !alive)
            && (r == Err(ToolBindingChanged) <==> m.aware && enabled && alive && !bound)
            && (r == Err(NotAuthorized) <==> m.aware && enabled && alive && bound && !granted)
            && (r == Err(RiskCeiling) <==> m.aware && enabled && alive && bound && granted && !within)
            && (r.Err? && m.aware && enabled && alive && bound && granted && within ==> r == Err(ApprovalRequired))
  {
    RanksOrder(step.risk, manifest.ceiling);
    RanksOrder(step.risk, del.ceiling);
  }

  /** What can still stop a step of an accepted plan. */
  predicate Stopped(step: Step, tool: Tool, del: Delegation, m: Moment) {
    || !m.aware
    || del.expiresAt <= m.now
    || tool.permission !in del.permissions || !m.authorized
    || Rank(step.risk) > Rank(del.ceiling)
    || (NeedsApproval(step) && (step.approval == None || !m.approved))
  }

  /** A step of an accepted plan, executed with its registered tool and the same manifest,
      is refused only for the clock, the delegation, the authorization or the approval,
      and runs under the digest its acceptance stored. */
  lemma AcceptedStepRefusedIff(d: Digest, plan: Plan, manifest: Manifest, tools: map<string, Tool>, i: nat,
                               del: Delegation, m: Moment)
    requires ValidatePlan(plan, manifest, tools).Ok? && i < |plan.steps|
    requires forall k :: k in tools ==> tools[k].key == k
    ensures plan.steps[i].toolKey in tools
    ensures var step, tool := plan.steps[i], tools[plan.steps[i].toolKey];
            var r := ValidateExecution(d, step, tool, manifest, del, m);
            && (r.Err? <==> Stopped(step, tool, del, m))
            && r != Err(Disabled) && r != Err(ToolBindingChanged)
            && (r.Ok? ==> r.value == ActionDigest(d, tool, step))
  {
    NoErrorInAnyStep(plan.steps, manifest, tools, i);
  }

  // ----- Delegation -----

  function Attenuate(parent: Delegation, child: Delegation): Result<Delegation, Error> {
    if !(child.permissions <= parent.permissions) then Err(Amplifies)
    else if Rank(child.ceiling) > Rank(parent.ceiling) then Err(Amplifies)
    else if child.expiresAt > parent.expiresAt then Err(Amplifies)
    else Ok(child)
  }

  function AttenuateAll(root: Delegation, chain: seq<Delegation>): Result<Delegation, Error> {
    if chain == [] then Ok(root) else
      match AttenuateAll(root, chain[..|chain| - 1])
      case Err(e) => Err(e)
      case Ok(parent) => Attenuate(parent, chain[|chain| - 1])
  }

  /** No delegation outdoes the one it comes from. */
  predicate WithinParent(child: Delegation, parent: Delegation) {
    && child.permissions <= parent.permissions && AtMost(child.ceiling, parent.ceiling)
    && child.expiresAt <= parent.expiresAt
  }

  predicate Linked(root: Delegation, chain: seq<Delegation>, i: nat)
    requires i < |chain|
  {
    WithinParent(chain[i], if i == 0 then root else chain[i - 1])
  }

  /** A chain of delegations is granted exactly when each link stays within the one before. */
  lemma {:induction false} ChainGrantedIff(root: Delegation, chain: seq<Delegation>)
    ensures var r := AttenuateAll(root, chain);
            && (r.Ok? <==> forall i :: 0 <= i < |chain| ==> Linked(root, chain, i))
            && (r.Ok? ==> r.value == if chain == [] then root else chain[|chain| - 1])
            && (r.Err? ==> r.error == Amplifies)
  {
    if chain != [] {
      var n := |chain| - 1;
      var before := chain[..n];
      ChainGrantedIff(root, before);
      RanksOrder(chain[n].ceiling, if n == 0 then root.ceiling else chain[n - 1].ceiling);
      forall i | 0 <= i < n ensures Linked(root, chain, i) <==> Linked(root, before, i) {}
      assert (forall i :: 0 <= i < |chain| ==> Linked(root, chain, i))
        <==> (forall i :: 0 <= i < n ==> Linked(root, before, i)) && Linked(root, chain, n);
    }
  }

  /** Whatever the last delegate of a chain may execute, the root may execute too, under
      the same digest. */
  lemma {:induction false} ChainNeverAmplifies(d: Digest, root: Delegation, chain: seq<Delegation>, step: Step,
                                               tool: Tool,
                                               manifest: Manifest, m: Moment)
    requires AttenuateAll(root, chain).Ok?
    requires ValidateExecution(d, step, tool, manifest, AttenuateAll(root, chain).value, m).Ok?
    ensures ValidateExecution(d, step, tool, manifest, root, m)
            == ValidateExecution(d, step, tool, manifest, AttenuateAll(root, chain).value, m)
  {
    if chain != [] {
      ChainNeverAmplifies(d, root, chain[..|chain| - 1], step, tool, manifest, m);
    }
  }

  // ----- The budget -----

  predicate NonNegative(b: Budget) {
    b.tokens >= 0 && b.cost >= 0 && b.calls >= 0 && b.seconds >= 0
  }

  predicate Within(b: Budget, limit: Budget) {
    b.tokens <= limit.tokens && b.cost <= limit.cost && b.calls <= limit.calls && b.seconds <= limit.seconds
  }

  function Plus(a: Budget, b: Budget): Budget {
    Budget(a.tokens + b.tokens, a.cost + b.cost, a.calls + b.calls, a.seconds + b.seconds)
  }

  function ReserveBudget(available: Budget, asked: Budget): Result<Budget, Error> {
    if !NonNegative(asked) || !Within(asked, available) then Err(BudgetExhausted)
    else Ok(Budget(available.tokens - asked.tokens, available.cost - asked.cost,
                   available.calls - asked.calls, available.seconds - asked.seconds))
  }

  function ReserveAll(available: Budget, asked: seq<Budget>): Result<Budget, Error>
    decreases |asked|
  {
    if asked == [] then Ok(available) else
      match ReserveBudget(available, asked[0])
      case Err(e) => Err(e)
      case Ok(rest) => ReserveAll(rest, asked[1..])
  }

  function Total(asked: seq<Budget>): Budget {
    if asked == [] then Budget(0, 0, 0, 0) else Plus(asked[0], Total(asked[1..]))
  }

  /** A list of reservations succeeds exactly when none is negative and their totals fit;
      what remains and what was reserved always make up the initial budget. */
  lemma {:induction false} ReservationsConserve(available: Budget, asked: seq<Budget>)
    requires NonNegative(available)
    ensures ReserveAll(available, asked).Ok? <==>
            (forall i :: 0 <= i < |asked| ==> NonNegative(asked[i])) && Within(Total(asked), available)
    ensures ReserveAll(available, asked).Err? ==> ReserveAll(available, asked).error == BudgetExhausted
    ensures ReserveAll(available, asked).Ok? ==>
              && Plus(ReserveAll(available, asked).value, Total(asked)) == available
              && NonNegative(ReserveAll(available, asked).value)
    decreases |asked|
  {
    if asked != [] {
      if forall i :: 0 <= i < |asked| ==> NonNegative(asked[i]) {
        TotalNonNegative(asked[1..]);
      }
      if ReserveBudget(available, asked[0]).Ok? {
        ReservationsConserve(ReserveBudget(available, asked[0]).value, asked[1..]);
      }
      assert forall i :: 1 <= i < |asked| ==> asked[i] == asked[1..][i - 1];
    }
  }

  lemma {:induction false} TotalNonNegative(asked: seq<Budget>)
    requires forall i :: 0 <= i < |asked| ==> NonNegative(asked[i])
    ensures NonNegative(Total(asked))
  {
    if asked != [] {
      TotalNonNegative(asked[1..]);
    }
  }

  /** The order in which reservations are made does not matter. */
  lemma OrderDoesNotMatter(available: Budget, a: seq<Budget>, b: seq<Budget>)
    requires NonNegative(available) && multiset(a) == multiset(b)
    ensures ReserveAll(available, a).Ok? == ReserveAll(available, b).Ok?
    ensures ReserveAll(available, a).Ok? ==> ReserveAll(available, a) == ReserveAll(available, b)
  {
    ReservationsConserve(available, a);
    ReservationsConserve(available, b);
    SameTotal(a, b);
    assert forall x :: x in a <==> x in multiset(a);
    assert forall x :: x in b <==> x in multiset(b);
    assert (forall i :: 0 <= i < |a| ==> NonNegative(a[i])) <==> forall x :: x in a ==> NonNegative(x);
    assert (forall i :: 0 <= i < |b| ==> NonNegative(b[i])) <==> forall x :: x in b ==> NonNegative(x);
  }

  lemma {:induction false} SameTotal(a: seq<Budget>, b: seq<Budget>)
    requires multiset(a) == multiset(b)
    ensures Total(a) == Total(b)
  {
    if a == [] {
      assert |multiset(b)| == 0;
    } else {
      assert a[0] in multiset(b);
      var i :| 0 <= i < |b| && b[i] == a[0];
      var rest := b[..i] + b[i + 1..];
      Sorting.ElementsOfRest(a);
      Sorting.ElementsWithout(b, i);
      SameTotal(a[1..], rest);
      TotalWithout(b, i);
    }
  }

  lemma {:induction false} TotalWithout(b: seq<Budget>, i: nat)
    requires i < |b|
    ensures Total(b) == Plus(b[i], Total(b[..i] + b[i + 1..]))
  {
    if i == 0 {
      assert b[..0] + b[1..] == b[1..];
    } else {
      TotalWithout(b[1..], i - 1);
      assert (b[..i] + b[i + 1..])[1..] == b[1..][..i - 1] + b[1..][i..];
    }
  }
}
