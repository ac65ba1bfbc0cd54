/** The step-by-step execution of one accepted plan, with receipts and cancellation. */
module Orchestration {
  import opened Wrappers
  import opened AgentPlan

  datatype Outcome = VerifiedResult | FailedResult | UncertainResult
  datatype Status = Executing | Succeeded | Failed | Cancelled | Uncertain

  datatype Receipt = Receipt(step: string, digest: string, outcome: Outcome)

  /** The orchestration row with its receipts; `cancels` remembers how often `cancel`
      went through. */
  datatype State = State(status: Status, current: Option<string>, version: int, cancelled: bool,
                         receipts: seq<Receipt>, cancels: nat)

  /** What the caller of one execution brings, and what the executor answers: nothing when
      it raises, otherwise whether its result was verified. */
  datatype Attempt = Attempt(manifest: Manifest, tool: Tool, delegation: Delegation, aware: bool, now: int,
                             authorized: bool,
                             approves: (nat, string) -> bool, budget: Budget, answer: Option<Option<bool>>)

  datatype Op = Execute(attempt: Attempt) | Cancel

  datatype Move = Move(state: State, error: Option<Error>)

  function Start(plan: Plan): State
    requires plan.steps != []
  {
    State(Executing, Some(plan.steps[0].key), 1, false, [], 0)
  }

  function IndexOf(steps: seq<Step>, key: string): Option<nat> {
    if steps == [] then None
    else if steps[0].key == key then Some(0)
    else match IndexOf(steps[1..], key)
      case None => None
      case Some(i) => Some(i + 1)
  }

  function OutcomeOf(verified: Option<bool>): Outcome {
    match verified
    case Some(true) => VerifiedResult
    case Some(false) => FailedResult
    case None => UncertainResult
  }

  /** The approval validator is asked about the digest of the step and tool at hand. */
  function MomentOf(d: Digest, step: Step, a: Attempt): Moment {
    Moment(a.aware, a.now, a.authorized,
           NeedsApproval(step) ==>
             step.approval.Some? && a.approves(step.approval.value, ActionDigest(d, a.tool, step)))
  }

  function CurrentStep(plan: Plan, s: State): Option<nat> {
    if s.current.None? then None else IndexOf(plan.steps, s.current.value)
  }

  /** Why an execution does not get as far as a receipt. */
  function Obstacle(d: Digest, plan: Plan, s: State, a: Attempt): Option<Error> {
    if s.cancelled then Some(Unavailable)
    else if CurrentStep(plan, s).None? || CurrentStep(plan, s).value >= |plan.steps| then Some(NoCurrentStep)
    else
      var step := plan.steps[CurrentStep(plan, s).value];
      match ValidateExecution(d, step, a.tool, a.manifest, a.delegation, MomentOf(d, step, a))
      case Err(e) => Some(e)
      case Ok(_) =>
        if ReserveBudget(a.budget, Budget(plan.tokens, plan.cost, 1, 1)).Err? then Some(BudgetExhausted)
        else if a.answer.None? then Some(ExecutorFailed)
        else None
  }

  /** The status when no step follows. */
  function Final(outcome: Outcome): Status {
    match outcome
    case VerifiedResult => Succeeded
    case UncertainResult => Uncertain
    case FailedResult => Failed
  }

  /** The state after the step at position `i` got its receipt. */
  function Receipted(d: Digest, plan: Plan, s: State, i: nat, tool: Tool, outcome: Outcome): State
    requires i < |plan.steps|
  {
    var receipts := s.receipts + [Receipt(plan.steps[i].key, ActionDigest(d, tool, plan.steps[i]), outcome)];
    if outcome.VerifiedResult? && i + 1 < |plan.steps|
    then s.(status := Executing, current := Some(plan.steps[i + 1].key), version := s.version + 1, receipts := receipts)
    else s.(status := Final(outcome),
            current := None, version := s.version + 1, receipts := receipts)
  }

  function Apply(d: Digest, plan: Plan, s: State, op: Op): Move {
    match op
    case Execute(a) =>
      if Obstacle(d, plan, s, a).Some? then Move(s, Obstacle(d, plan, s, a))
      else Move(Receipted(d, plan, s, CurrentStep(plan, s).value, a.tool, OutcomeOf(a.answer.value)), None)
    case Cancel =>
      if s.status.Succeeded? || s.status.Failed? then Move(s, Some(Terminal))
      else Move(s.(status := Cancelled, current := None, version := s.version + 1, cancelled := true,
                   cancels := s.cancels + 1), None)
  }

  function Run(d: Digest, plan: Plan, s: State, ops: seq<Op>): State
    decreases |ops|
  {
    if ops == [] then s else Run(d, plan, Apply(d, plan, s, ops[0]).state, ops[1..])
  }

  // ----- What every run keeps -----

  predicate AllVerified(s: State) {
    forall i :: 0 <= i < |s.receipts| ==> s.receipts[i].outcome.VerifiedResult?
  }

  /** The status is determined by the receipts and the cancellations. */
  predicate StatusFits(plan: Plan, s: State) {
    var n := |s.receipts|;
    if s.cancels > 0 then s.status == Cancelled && s.current == None && !(AllVerified(s) && n == |plan.steps|)
    else if AllVerified(s) && n < |plan.steps| then s.status == Executing && s.current == Some(plan.steps[n].key)
    else if AllVerified(s) then s.status == Succeeded && s.current == None
    else s.current == None && s.status == if s.receipts[n - 1].outcome.FailedResult? then Failed else Uncertain
  }

  /** The receipts are the plan's first steps in order, each once, and all but the last
      are verified. */
  predicate ReceiptsFit(plan: Plan, s: State) {
    && |s.receipts| <= |plan.steps|
    && (forall i :: 0 <= i < |s.receipts| ==> s.receipts[i].step == plan.steps[i].key)
    && (forall i :: 0 <= i < |s.receipts| - 1 ==> s.receipts[i].outcome.VerifiedResult?)
  }

  predicate Inv(plan: Plan, s: State) {
    && ReceiptsFit(plan, s) && StatusFits(plan, s)
    && (s.cancelled <==> s.cancels > 0)
    && s.version == 1 + |s.receipts| + s.cancels
  }

  lemma {:induction false} IndexOfKey(steps: seq<Step>, i: nat)
    requires i < |steps| && forall j, k :: 0 <= j < k < |steps| ==> steps[j].key != steps[k].key
    ensures IndexOf(steps, steps[i].key) == Some(i)
  {
    if i > 0 {
      IndexOfKey(steps[1..], i - 1);
    }
  }

  /** A step runs only while the orchestration is executing, and then it is the next one. */
  lemma RunsOnlyTheNextStep(d: Digest, plan: Plan, s: State, a: Attempt)
    requires WellFormed(plan) && Inv(plan, s) && Apply(d, plan, s, Execute(a)).error == None
    ensures s.status.Executing? && CurrentStep(plan, s) == Some(|s.receipts|) && |s.receipts| < |plan.steps|
  {
    IndexOfKey(plan.steps, |s.receipts|);
  }

  lemma ApplyKeeps(d: Digest, plan: Plan, s: State, op: Op)
    requires WellFormed(plan) && Inv(plan, s)
    ensures Inv(plan, Apply(d, plan, s, op).state)
  {
    if op.Execute? && Apply(d, plan, s, op).error == None {
      RunsOnlyTheNextStep(d, plan, s, op.attempt);
      ReceiptKeeps(d, plan, s, op.attempt.tool, OutcomeOf(op.attempt.answer.value));
    }
  }

  lemma ReceiptKeeps(d: Digest, plan: Plan, s: State, tool: Tool, outcome: Outcome)
    requires Inv(plan, s) && s.status.Executing? && |s.receipts| < |plan.steps|
    ensures Inv(plan, Receipted(d, plan, s, |s.receipts|, tool, outcome))
  {
    var t := Receipted(d, plan, s, |s.receipts|, tool, outcome);
    assert t.receipts[|s.receipts|].outcome == outcome;
    assert AllVerified(t) <==> outcome.VerifiedResult?;
  }

  /** Any interleaving of executions and cancellations, failed ones included. */
  lemma {:induction false} EveryRunKeeps(d: Digest, plan: Plan, s: State, ops: seq<Op>)
    requires WellFormed(plan) && Inv(plan, s)
    ensures Inv(plan, Run(d, plan, s, ops))
    decreases |ops|
  {
    if ops != [] {
      ApplyKeeps(d, plan, s, ops[0]);
      EveryRunKeeps(d, plan, Apply(d, plan, s, ops[0]).state, ops[1..]);
    }
  }

  /** From the start: the receipts are the plan's first steps in order, each once, and all but
      the last verified; executing exactly while all receipts are verified, steps remain and
      nothing was cancelled; succeeded exactly when every step is verified. */
  lemma StatusTellsTheRun(d: Digest, plan: Plan, ops: seq<Op>)
    requires WellFormed(plan)
    ensures var s := Run(d, plan, Start(plan), ops);
            var n := |s.receipts|;
            && n <= |plan.steps| && s.version == 1 + n + s.cancels
            && (forall i :: 0 <= i < n ==> s.receipts[i].step == plan.steps[i].key)
            && (forall i :: 0 <= i < n - 1 ==> s.receipts[i].outcome == VerifiedResult)
            && (s.status.Executing? <==> AllVerified(s) && |s.receipts| < |plan.steps| && s.cancels == 0)
            && (s.status.Succeeded? <==> AllVerified(s) && |s.receipts| == |plan.steps|)
            && (s.status.Cancelled? <==> s.cancels > 0)
  {
    EveryRunKeeps(d, plan, Start(plan), ops);
  }

  // ----- Receipts carry the digests of acceptance -----

  /** Every execution names the registered tool of the step it runs. */
  predicate WithRegisteredTools(d: Digest, plan: Plan, tools: map<string, Tool>, s: State, ops: seq<Op>)
    decreases |ops|
  {
    ops != [] ==>
      && (ops[0].Execute? && CurrentStep(plan, s).Some? && CurrentStep(plan, s).value < |plan.steps| ==>
            var key := plan.steps[CurrentStep(plan, s).value].toolKey;
            key in tools && ops[0].attempt.tool == tools[key])
      && WithRegisteredTools(d, plan, tools, Apply(d, plan, s, ops[0]).state, ops[1..])
  }

  predicate DigestsFit(d: Digest, plan: Plan, tools: map<string, Tool>, s: State) {
    |s.receipts| <= |plan.steps| &&
    forall i :: 0 <= i < |s.receipts| ==>
      && plan.steps[i].toolKey in tools
      && s.receipts[i].digest == ActionDigest(d, tools[plan.steps[i].toolKey], plan.steps[i])
  }

  lemma {:induction false} ReceiptsCarryAcceptedDigests(d: Digest, plan: Plan, tools: map<string, Tool>, s: State,
                                                        ops: seq<Op>)
    requires WellFormed(plan) && Inv(plan, s) && DigestsFit(d, plan, tools, s)
             && WithRegisteredTools(d, plan, tools, s, ops)
    ensures DigestsFit(d, plan, tools, Run(d, plan, s, ops))
    decreases |ops|
  {
    if ops != [] {
      ApplyKeeps(d, plan, s, ops[0]);
      if ops[0].Execute? && Apply(d, plan, s, ops[0]).error == None {
        RunsOnlyTheNextStep(d, plan, s, ops[0].attempt);
      }
      ReceiptsCarryAcceptedDigests(d, plan, tools, Apply(d, plan, s, ops[0]).state, ops[1..]);
    }
  }

  /** A risky step runs only with its approval, given for exactly the digest it runs under. */
  lemma ApprovedDigestIsExecuted(d: Digest, plan: Plan, s: State, a: Attempt)
    requires WellFormed(plan) && Inv(plan, s) && Apply(d, plan, s, Execute(a)).error == None
    ensures var t := Apply(d, plan, s, Execute(a)).state;
            var step := plan.steps[|s.receipts|];
            && |t.receipts| == |s.receipts| + 1
            && t.receipts[|s.receipts|].digest == ActionDigest(d, a.tool, step)
            && (NeedsApproval(step) ==>
                step.approval.Some? && a.approves(step.approval.value, t.receipts[|s.receipts|].digest))
  {
    RunsOnlyTheNextStep(d, plan, s, a);
  }

  // ----- What each call achieves -----

  /** An execution goes through exactly while the orchestration is executing, if the step's
      checks pass, the plan's own tokens and cost, one call and one second fit the budget,
      and the executor answers. */
  lemma ExecutesIff(d: Digest, plan: Plan, s: State, a: Attempt)
    requires WellFormed(plan) && Inv(plan, s)
    ensures var n := |s.receipts|;
            Apply(d, plan, s, Execute(a)).error == None <==>
              && s.status.Executing? && n < |plan.steps|
              && ValidateExecution(d, plan.steps[n], a.tool, a.manifest, a.delegation,
                                   MomentOf(d, plan.steps[n], a)).Ok?
              && 0 <= plan.tokens <= a.budget.tokens && 0 <= plan.cost <= a.budget.cost
              && 1 <= a.budget.calls && 1 <= a.budget.seconds
              && a.answer.Some?
  {
    if s.status.Executing? {
      IndexOfKey(plan.steps, |s.receipts|);
    }
  }

  /** One that does not go through changes nothing, and says why. */
  lemma RefusedExecution(d: Digest, plan: Plan, s: State, a: Attempt)
    requires WellFormed(plan) && Inv(plan, s) && Apply(d, plan, s, Execute(a)).error.Some?
    ensures var move, n := Apply(d, plan, s, Execute(a)), |s.receipts|;
            && move.state == s
            && (move.error == Some(Unavailable) <==> s.status.Cancelled?)
            && (move.error == Some(NoCurrentStep) <==> !s.status.Cancelled? && !s.status.Executing?)
            && (s.status.Executing? ==>
                var checked := ValidateExecution(d, plan.steps[n], a.tool, a.manifest, a.delegation,
                                                 MomentOf(d, plan.steps[n], a));
                && (checked.Err? ==> move.error == Some(checked.error))
                && (checked.Ok? ==>
                    if 0 <= plan.tokens <= a.budget.tokens && 0 <= plan.cost <= a.budget.cost
                       && 1 <= a.budget.calls && 1 <= a.budget.seconds
                    then move.error == Some(ExecutorFailed) else move.error == Some(BudgetExhausted)))
  {
    if s.status.Executing? {
      IndexOfKey(plan.steps, |s.receipts|);
    }
  }

  /** The receipt says what the executor answered, and the status follows from it. */
  lemma OutcomeFollowsAnswer(d: Digest, plan: Plan, s: State, a: Attempt)
    requires WellFormed(plan) && Inv(plan, s) && Apply(d, plan, s, Execute(a)).error == None
    ensures var t, n := Apply(d, plan, s, Execute(a)).state, |s.receipts|;
            && |t.receipts| == n + 1 && t.receipts[..n] == s.receipts
            && t.receipts[n].step == plan.steps[n].key
            && (t.receipts[n].outcome == VerifiedResult <==> a.answer == Some(Some(true)))
            && (t.receipts[n].outcome == FailedResult <==> a.answer == Some(Some(false)))
            && (t.receipts[n].outcome == UncertainResult <==> a.answer == Some(None))
            && (t.status == Failed <==> a.answer == Some(Some(false)))
            && (t.status == Uncertain <==> a.answer == Some(None))
            && (t.status == Succeeded <==> a.answer == Some(Some(true)) && n + 1 == |plan.steps|)
            && (t.status == Executing <==> a.answer == Some(Some(true)) && n + 1 < |plan.steps|)
  {
    RunsOnlyTheNextStep(d, plan, s, a);
  }

  /** Anything but a success or a failure can be cancelled, and then no step runs again. */
  lemma CancelledForGood(d: Digest, plan: Plan, s: State, ops: seq<Op>)
    requires WellFormed(plan) && Inv(plan, s)
    ensures var move := Apply(d, plan, s, Cancel);
            && (move.error == None <==> !s.status.Succeeded? && !s.status.Failed?)
            && (move.error.Some? ==> move.error == Some(Terminal) && move.state == s)
            && (move.error == None ==>
                var t := Run(d, plan, move.state, ops);
                t.status == Cancelled && t.receipts == s.receipts && t.current == None)
  {
    var move := Apply(d, plan, s, Cancel);
    ApplyKeeps(d, plan, s, Cancel);
    if move.error == None {
      StaysCancelled(d, plan, move.state, ops);
    }
  }

  lemma {:induction false} StaysCancelled(d: Digest, plan: Plan, s: State, ops: seq<Op>)
    requires WellFormed(plan) && Inv(plan, s) && s.status.Cancelled?
    ensures var t := Run(d, plan, s, ops); t.status == Cancelled && t.receipts == s.receipts && t.current == None
    decreases |ops|
  {
    if ops != [] {
      ApplyKeeps(d, plan, s, ops[0]);
      StaysCancelled(d, plan, Apply(d, plan, s, ops[0]).state, ops[1..]);
    }
  }

  /** A run is the calls one after another. */
  lemma {:induction false} RunsCompose(d: Digest, plan: Plan, s: State, a: seq<Op>, b: seq<Op>, op: Op)
    ensures Run(d, plan, s, a + b) == Run(d, plan, Run(d, plan, s, a), b)
    ensures Run(d, plan, s, [op]) == Apply(d, plan, s, op).state
    decreases |a|
  {
    if a == [] {
      assert a + b == b;
    } else {
      assert (a + b)[1..] == a[1..] + b;
      RunsCompose(d, plan, Apply(d, plan, s, a[0]).state, a[1..], b, op);
    }
  }

  // ----- The service -----

  class AgentOrchestration {
    const d: Digest
    const plan: Plan
    var status: Status
    var currentStepKey: Option<string>
    var version: int
    var cancelledAt: Option<int>
    var receipts: seq<Receipt>
    ghost var cancels: nat

    ghost function View(): State
      reads this
    {
      State(status, currentStepKey, version, cancelledAt.Some?, receipts, cancels)
    }

    /** The receipts are a prefix of the plan and determine status and version. */
    ghost predicate Valid()
      reads this
    {
      Inv(plan, View())
    }

    constructor (d: Digest, plan: Plan)
      requires plan.steps != []
      ensures this.d == d && this.plan == plan && View() == Start(plan) && Valid()
    {
      this.d, this.plan := d, plan;
      status, currentStepKey, version := Executing, Some(plan.steps[0].key), 1;
      cancelledAt, receipts, cancels := None, [], 0;
    }

    method ExecuteStep(a: Attempt) returns (error: Option<Error>)
      modifies this
      ensures Move(View(), error) == Apply(d, plan, old(View()), Execute(a))
      ensures WellFormed(plan) && old(Valid()) ==> Valid()
    {
      if WellFormed(plan) && Valid() {
        ApplyKeeps(d, plan, View(), Execute(a));
      }
      if cancelledAt.Some? {
        return Some(Unavailable);
      }
      var at := if currentStepKey.None? then None else IndexOf(plan.steps, currentStepKey.value);
      if at.None? || at.value >= |plan.steps| {
        return Some(NoCurrentStep);
      }
      var step := plan.steps[at.value];
      var approved := !NeedsApproval(step);
      if NeedsApproval(step) {
        var provisional := ActionDigest(d, a.tool, step);
        approved := step.approval.Some? && a.approves(step.approval.value, provisional);
      }
      var checked := ValidateExecution(d, step, a.tool, a.manifest, a.delegation,
                                       Moment(a.aware, a.now, a.authorized, approved));
      if checked.Err? {
        return Some(checked.error);
      }
      var reserved := ReserveBudget(a.budget, Budget(plan.tokens, plan.cost, 1, 1));
      if reserved.Err? {
        return Some(BudgetExhausted);
      }
      if a.answer.None? {
        return Some(ExecutorFailed);
      }
      var outcome := OutcomeOf(a.answer.value);
      receipts := receipts + [Receipt(step.key, checked.value, outcome)];
      if outcome.VerifiedResult? && at.value + 1 < |plan.steps| {
        status, currentStepKey := Executing, Some(plan.steps[at.value + 1].key);
      } else {
        status := Final(outcome);
        currentStepKey := None;
      }
      version := version + 1;
      return None;
    }

    method CancelRun(now: int) returns (error: Option<Error>)
      modifies this
      ensures Move(View(), error) == Apply(d, plan, old(View()), Cancel)
      ensures WellFormed(plan) && old(Valid()) ==> Valid()
    {
      if WellFormed(plan) && Valid() {
        ApplyKeeps(d, plan, View(), Cancel);
      }
      if status.Succeeded? || status.Failed? {
        return Some(Terminal);
      }
      status, cancelledAt, currentStepKey := Cancelled, Some(now), None;
      version := version + 1;
      cancels := cancels + 1;
      return None;
    }
  }
}
