/** CelPolicyEngine of packages/presidium/src/presidium/policy/cel.py. The CEL library is two functions: one that
    compiles an expression or fails, and the program it yields, which returns a value or raises. */
module Policy {
  import opened Common
  import opened Model

  datatype Stage = PreTool | PreLlm | PreMessage | Registration | PostTool | PostLlm

  datatype Decision = Allow | Deny | RequireApproval

  datatype Enforcement = Advisory | Soft | Hard

  /** A single stage is a list of one. */
  datatype PolicyRule = PolicyRule(
    name: string,
    stages: seq<Stage>,
    expression: string,
    decision: Decision,
    reason: Option<string>,
    priority: int,
    enforcement: Enforcement,
    approvers: seq<string>,
    enabled: bool)

  datatype ActionRequest = ActionRequest(resource: string, action: string, parameters: map<string, string>)

  datatype EvaluationContext = EvaluationContext(
    agent: AgentRecord,
    request: ActionRequest,
    time: real,
    result: Option<map<string, string>>)

  datatype AgentFacts = AgentFacts(
    name: string,
    agentId: string,
    owner: string,
    status: AgentStatus,
    trustValue: real,
    trustTier: TrustTier)

  datatype GrantView = GrantView(
    resources: seq<string>,
    actions: seq<string>,
    scope: map<string, string>,
    condition: string)

  /** What a program is evaluated against: a grant condition sees neither grants nor the result. */
  datatype Activation =
    | ForCondition(agent: AgentFacts, request: ActionRequest, time: real)
    | ForRule(agent: AgentFacts, grants: seq<GrantView>, request: ActionRequest, time: real, result: map<string, string>)

  /** The text is the value's string form. */
  datatype Evaluation = Value(text: string) | Raises(message: string)

  type Program = Activation -> Evaluation

  datatype Cel = Cel(compile: string -> Result<Program, string>)

  datatype PolicyResult = PolicyResult(
    decision: Decision,
    policyName: Option<string>,
    reason: Option<string>,
    approvers: Option<seq<string>>,
    enforcement: Enforcement)

  datatype CompilationError = CompilationError(policyName: string, expression: string, detail: string)

  datatype CompiledRule = CompiledRule(rule: PolicyRule, program: Program)

  datatype Unmatched = Unmatched(allowUnmatchedRequests: bool, enforcement: Enforcement)

  const UNMATCHED_REASON := "No policy rule matched this request (fail-closed default -- no implicit allow)"

  const ALL_PASSED := "All policies passed"

  const ERROR_PREFIX := "Policy evaluation error (fail-closed): "

  function TextOr(text: Option<string>, default_: string): string {
    if text.Some? then text.value else default_
  }

  // ---- Loading ----

  function Compiled(cel: Cel, rule: PolicyRule): CompiledRule {
    match cel.compile(rule.expression)
    case Ok(program) => CompiledRule(rule, program)
    case Err(detail) => CompiledRule(rule, (a: Activation) => Raises(detail))
  }

  predicate Compiles(cel: Cel, rule: PolicyRule) {
    rule.enabled ==> cel.compile(rule.expression).Ok?
  }

  /** The compilation error of the first enabled rule that does not compile. */
  function LoadError(cel: Cel, rules: seq<PolicyRule>): Option<CompilationError> {
    if rules == [] then None
    else if !Compiles(cel, rules[0]) then
      Some(CompilationError(rules[0].name, rules[0].expression, cel.compile(rules[0].expression).error))
    else LoadError(cel, rules[1..])
  }

  /** The rule once for every time its stage list names the stage. */
  function Copies(c: CompiledRule, stages: seq<Stage>, stage: Stage): seq<CompiledRule> {
    if stages == [] then []
    else (if stages[0] == stage then [c] else []) + Copies(c, stages[1..], stage)
  }

  function Bucket(cel: Cel, rules: seq<PolicyRule>, stage: Stage): seq<CompiledRule> {
    if rules == [] then []
    else
      (if rules[0].enabled then Copies(Compiled(cel, rules[0]), rules[0].stages, stage) else [])
      + Bucket(cel, rules[1..], stage)
  }

  /** Python's stable sort by priority, reversed: equal priorities stay in load order. */
  function InsertByPriority(c: CompiledRule, sorted: seq<CompiledRule>): seq<CompiledRule> {
    if sorted == [] || c.rule.priority >= sorted[0].rule.priority then [c] + sorted
    else [sorted[0]] + InsertByPriority(c, sorted[1..])
  }

  function SortByPriority(s: seq<CompiledRule>): seq<CompiledRule> {
    if s == [] then [] else InsertByPriority(s[0], SortByPriority(s[1..]))
  }

  function Get(m: map<Stage, seq<CompiledRule>>, stage: Stage): seq<CompiledRule> {
    if stage in m then m[stage] else []
  }

  // ---- Grants exposed to the rules ----

  function FactsOf(agent: AgentRecord): AgentFacts {
    AgentFacts(agent.name, agent.agentId, TextOr(agent.owner, ""), agent.status, agent.trustValue, agent.trustTier)
  }

  function ConditionActivation(context: EvaluationContext): Activation {
    ForCondition(FactsOf(context.agent), context.request, context.time)
  }

  /** The condition compiles and evaluates to True in this context. */
  predicate Holds(cel: Cel, condition: string, context: EvaluationContext) {
    var program := cel.compile(condition);
    program.Ok? && program.value(ConditionActivation(context)) == Value("True")
  }

  /** The condition does not compile, or raises in this context. */
  predicate Bad(cel: Cel, condition: string, context: EvaluationContext) {
    var program := cel.compile(condition);
    program.Err? || program.value(ConditionActivation(context)).Raises?
  }

  predicate Expired(g: Grant, now: real) {
    g.expiresAt.Some? && g.expiresAt.value < now
  }

  predicate Conditional(g: Grant) {
    g.condition.Some? && g.condition.value != ""
  }

  predicate Active(cel: Cel, g: Grant, context: EvaluationContext) {
    !Expired(g, context.time) && (Conditional(g) ==> Holds(cel, g.condition.value, context))
  }

  function ViewOf(g: Grant): GrantView {
    GrantView(g.resources, g.actions, g.scope, TextOr(g.condition, ""))
  }

  function Exposed(cel: Cel, grants: seq<Grant>, context: EvaluationContext): seq<GrantView> {
    if grants == [] then []
    else
      (if Active(cel, grants[0], context) then [ViewOf(grants[0])] else []) + Exposed(cel, grants[1..], context)
  }

  /** The conditions an evaluation in this context has to complain about. */
  function BadConditions(cel: Cel, grants: seq<Grant>, context: EvaluationContext): set<string> {
    set g | g in grants && !Expired(g, context.time) && Conditional(g) && Bad(cel, g.condition.value, context)
      :: g.condition.value
  }

  function RuleActivation(cel: Cel, context: EvaluationContext): Activation {
    ForRule(FactsOf(context.agent), Exposed(cel, context.agent.grants, context), context.request, context.time,
            if context.result.Some? then context.result.value else map[])
  }

  // ---- Evaluation ----

  /** The outcome of a rule whose program raised or returned True. */
  function Verdict(rule: PolicyRule, evaluation: Evaluation): PolicyResult {
    match evaluation
    case Raises(message) => PolicyResult(Deny, Some(rule.name), Some(ERROR_PREFIX + message), None, Hard)
    case Value(_) =>
      PolicyResult(rule.decision, Some(rule.name), rule.reason,
                   if rule.approvers != [] then Some(rule.approvers) else None, rule.enforcement)
  }

  predicate Fires(evaluation: Evaluation) {
    evaluation.Raises? || evaluation.text == "True"
  }

  function Default(unmatched: Unmatched): PolicyResult {
    if unmatched.allowUnmatchedRequests then PolicyResult(Allow, None, Some(ALL_PASSED), None, Hard)
    else PolicyResult(Deny, None, Some(UNMATCHED_REASON), None, unmatched.enforcement)
  }

  function Evaluated(rules: seq<CompiledRule>, activation: Activation, unmatched: Unmatched): PolicyResult {
    if rules == [] then Default(unmatched)
    else if Fires(rules[0].program(activation)) then Verdict(rules[0].rule, rules[0].program(activation))
    else Evaluated(rules[1..], activation, unmatched)
  }

  /** What an engine loaded with the rules answers: no cache and no history occurs in it. */
  function Answer(cel: Cel, unmatched: Unmatched, rules: seq<PolicyRule>, stage: Stage, context: EvaluationContext)
    : PolicyResult
  {
    Evaluated(SortByPriority(Bucket(cel, rules, stage)), RuleActivation(cel, context), unmatched)
  }

  lemma MoreCopies(m: map<Stage, seq<CompiledRule>>, c: CompiledRule, stages: seq<Stage>, j: nat, s: Stage)
    requires j < |stages|
    ensures Get(m[stages[j] := Get(m, stages[j]) + [c]], s) + Copies(c, stages[j + 1..], s)
         == Get(m, s) + Copies(c, stages[j..], s)
  {
    assert stages[j..][1..] == stages[j + 1..];
  }

  lemma NoCopies(c: CompiledRule, stages: seq<Stage>)
    ensures forall s :: Copies(c, stages[|stages|..], s) == []
  {
  }

  lemma NothingBucketed()
    ensures forall s :: Get(map[], s) == []
  {
  }

  lemma BucketAt(cel: Cel, rules: seq<PolicyRule>, i: nat, s: Stage, already: seq<CompiledRule>)
    requires i < |rules| && already + Bucket(cel, rules[i..], s) == Bucket(cel, rules, s)
    ensures already + (if rules[i].enabled then Copies(Compiled(cel, rules[i]), rules[i].stages, s) else [])
            + Bucket(cel, rules[i + 1..], s)
         == Bucket(cel, rules, s)
  {
    hide Copies, Compiled;
    assert rules[i..][0] == rules[i] && rules[i..][1..] == rules[i + 1..];
  }

  lemma BucketEnd(cel: Cel, rules: seq<PolicyRule>)
    ensures forall s :: Bucket(cel, rules[|rules|..], s) == []
  {
  }

  lemma {:induction false} FailureAhead(cel: Cel, rules: seq<PolicyRule>, i: nat)
    requires i < |rules| && forall j :: 0 <= j < i ==> Compiles(cel, rules[j])
    ensures LoadError(cel, rules) == LoadError(cel, rules[i..])
  {
    if i > 0 {
      FailureAhead(cel, rules[1..], i - 1);
      assert rules[1..][i - 1..] == rules[i..];
    } else {
      assert rules[0..] == rules;
    }
  }

  lemma {:induction false} NoFailure(cel: Cel, rules: seq<PolicyRule>)
    ensures LoadError(cel, rules).None? <==> forall j :: 0 <= j < |rules| ==> Compiles(cel, rules[j])
  {
    if rules != [] {
      NoFailure(cel, rules[1..]);
      assert forall j :: 1 <= j < |rules| ==> rules[j] == rules[1..][j - 1];
      if forall j :: 0 <= j < |rules[1..]| ==> Compiles(cel, rules[1..][j]) {
        forall j | 1 <= j < |rules| ensures Compiles(cel, rules[j]) {
          assert Compiles(cel, rules[1..][j - 1]);
        }
      }
    }
  }

  class CelPolicyEngine {
    const cel: Cel
    const unmatched: Unmatched
    var rulesByStage: map<Stage, seq<CompiledRule>>
    var conditionPrograms: map<string, Option<Program>>
    var warnedBadConditions: set<string>
    /** The log: the condition each warning is about. */
    var warnings: seq<string>
    /** The rule list of the last load that succeeded. */
    ghost var rules: seq<PolicyRule>

    /** A cached entry is what a fresh compilation gives. */
    ghost predicate CacheAgrees()
      reads this
    {
      forall c :: c in conditionPrograms ==>
        match cel.compile(c)
        case Ok(program) => conditionPrograms[c] == Some(program)
        case Err(_) => conditionPrograms[c] == None && c in warnedBadConditions
    }

    ghost predicate WarnedOnce()
      reads this
    {
      Distinct(warnings) && forall c :: c in warnings <==> c in warnedBadConditions
    }

    ghost predicate Valid()
      reads this
    {
      && CacheAgrees() && WarnedOnce()
      && (forall s :: Get(rulesByStage, s) == SortByPriority(Bucket(cel, rules, s)))
    }

    constructor (cel: Cel, unmatched: Unmatched)
      ensures Valid() && this.cel == cel && this.unmatched == unmatched && rules == [] && warnings == []
    {
      this.cel, this.unmatched := cel, unmatched;
      rulesByStage, conditionPrograms, warnedBadConditions, warnings, rules := map[], map[], {}, [], [];
    }

    /** Appends the compiled rule to every stage its list names. */
    static method Distribute(m: map<Stage, seq<CompiledRule>>, c: CompiledRule, stages: seq<Stage>)
        returns (m': map<Stage, seq<CompiledRule>>)
      ensures forall s :: Get(m', s) == Get(m, s) + Copies(c, stages, s)
    {
      hide Copies, Get;
      m' := m;
      for j := 0 to |stages|
        invariant forall s :: Get(m', s) + Copies(c, stages[j..], s) == Get(m, s) + Copies(c, stages, s)
      {
        ghost var before := m';
        m' := m'[stages[j] := Get(m', stages[j]) + [c]];
        forall s ensures Get(m', s) + Copies(c, stages[j + 1..], s) == Get(before, s) + Copies(c, stages[j..], s) {
          MoreCopies(before, c, stages, j, s);
        }
      }
      NoCopies(c, stages);
    }

    static method SortAll(m: map<Stage, seq<CompiledRule>>) returns (m': map<Stage, seq<CompiledRule>>)
      ensures forall s :: Get(m', s) == SortByPriority(Get(m, s))
    {
      m' := m;
      var remaining := m.Keys;
      while remaining != {}
        invariant m'.Keys == m.Keys && remaining <= m.Keys
        invariant forall s :: s in m ==> m'[s] == if s in remaining then m[s] else SortByPriority(m[s])
        decreases remaining
      {
        var s :| s in remaining;
        m' := m'[s := SortByPriority(m'[s])];
        remaining := remaining - {s};
      }
    }

    /** The loop over the rules: everything enabled is compiled and bucketed, or the first failure is reported. */
    method CompileAll(new_: seq<PolicyRule>)
        returns (failure: Option<CompilationError>, newRules: map<Stage, seq<CompiledRule>>)
      ensures failure == LoadError(cel, new_)
      ensures failure.None? ==> forall s :: Get(newRules, s) == Bucket(cel, new_, s)
    {
      hide Copies, Compiled, LoadError, Bucket, Get;
      newRules := map[];
      NothingBucketed();
      for i := 0 to |new_|
        invariant forall j :: 0 <= j < i ==> Compiles(cel, new_[j])
        invariant forall s :: Get(newRules, s) + Bucket(cel, new_[i..], s) == Bucket(cel, new_, s)
      {
        var rule := new_[i];
        ghost var before := newRules;
        if rule.enabled {
          var program := cel.compile(rule.expression);
          if program.Err? {
            FailureHere(cel, new_, i);
            return Some(CompilationError(rule.name, rule.expression, program.error)), newRules;
          }
          CompiledOk(cel, rule);
          newRules := Distribute(newRules, CompiledRule(rule, program.value), rule.stages);
        }
        forall s ensures Get(newRules, s) + Bucket(cel, new_[i + 1..], s) == Bucket(cel, new_, s) {
          BucketAt(cel, new_, i, s, Get(before, s));
        }
      }
      BucketEnd(cel, new_);
      NoFailure(cel, new_);
      failure := None;
    }

    /** The new rules replace the old ones together or not at all; a failure names the first enabled rule, in list
        order, that does not compile. */
    method LoadPolicies(new_: seq<PolicyRule>) returns (failure: Option<CompilationError>)
      requires Valid()
      modifies this`rulesByStage, this`rules
      ensures Valid()
      ensures failure == LoadError(cel, new_)
      ensures failure.Some? ==> rulesByStage == old(rulesByStage) && rules == old(rules)
      ensures failure.None? ==> rules == new_
    {
      hide SortByPriority, Bucket, Get, LoadError;
      var newRules;
      failure, newRules := CompileAll(new_);
      if failure.None? {
        newRules := SortAll(newRules);
        rulesByStage := newRules;
        rules := new_;
      }
    }

    method GrantConditionHolds(condition: string, context: EvaluationContext) returns (holds: bool)
      requires Valid()
      modifies this`conditionPrograms, this`warnedBadConditions, this`warnings
      ensures Valid()
      ensures holds == Holds(cel, condition, context)
      ensures warnedBadConditions == old(warnedBadConditions) + (if Bad(cel, condition, context) then {condition} else {})
      ensures old(warnings) <= warnings
    {
      hide SortByPriority, Bucket, Get;
      if condition !in conditionPrograms {
        var compiled := cel.compile(condition);
        match compiled {
          case Ok(program) =>
            conditionPrograms := conditionPrograms[condition := Some(program)];
          case Err(_) =>
            if condition !in warnedBadConditions {
              warnings := warnings + [condition];
              warnedBadConditions := warnedBadConditions + {condition};
            }
            conditionPrograms := conditionPrograms[condition := None];
        }
      }
      var program := conditionPrograms[condition];
      if program.None? {
        return false;
      }
      var result := program.value(ConditionActivation(context));
      if result.Raises? {
        if condition !in warnedBadConditions {
          warnings := warnings + [condition];
          warnedBadConditions := warnedBadConditions + {condition};
        }
        return false;
      }
      holds := result.text == "True";
    }

    /** The grants exposed are the order-preserving filter of the active ones, whatever the cache held before. */
    method BuildActivation(context: EvaluationContext) returns (activation: Activation)
      requires Valid()
      modifies this`conditionPrograms, this`warnedBadConditions, this`warnings
      ensures Valid()
      ensures activation == RuleActivation(cel, context)
      ensures warnedBadConditions == old(warnedBadConditions) + BadConditions(cel, context.agent.grants, context)
      ensures old(warnings) <= warnings
    {
      hide SortByPriority, Bucket, Get, CacheAgrees, WarnedOnce, Holds, Bad, Exposed, BadConditions;
      NoneBad(cel, context);
      var grants := context.agent.grants;
      var active: seq<GrantView> := [];
      for i := 0 to |grants|
        invariant Valid()
        invariant active + Exposed(cel, grants[i..], context) == Exposed(cel, grants, context)
        invariant warnedBadConditions == old(warnedBadConditions) + BadConditions(cel, grants[..i], context)
        invariant old(warnings) <= warnings
      {
        var g := grants[i];
        ExposedAt(cel, grants, i, context, active);
        MoreBad(cel, grants, i, context);
        if g.expiresAt.Some? && g.expiresAt.value < context.time {
          continue;
        }
        if g.condition.Some? && g.condition.value != "" {
          var holds := GrantConditionHolds(g.condition.value, context);
          if !holds {
            continue;
          }
        }
        active := active + [GrantView(g.resources, g.actions, g.scope, TextOr(g.condition, ""))];
      }
      ExposedEnd(cel, grants, context, active);
      assert grants[..|grants|] == grants;
      activation := ForRule(FactsOf(context.agent), active, context.request, context.time,
                            if context.result.Some? then context.result.value else map[]);
    }

    /** The answer depends on the rules last loaded and the context, never on the cache or on earlier calls. */
    method Evaluate(stage: Stage, context: EvaluationContext) returns (result: PolicyResult)
      requires Valid()
      modifies this`conditionPrograms, this`warnedBadConditions, this`warnings
      ensures Valid()
      ensures result == Answer(cel, unmatched, rules, stage, context)
      ensures warnedBadConditions == old(warnedBadConditions) + BadConditions(cel, context.agent.grants, context)
      ensures old(warnings) <= warnings
    {
      hide SortByPriority, Bucket, CacheAgrees, WarnedOnce, BadConditions, RuleActivation;
      var compiledRules := Get(rulesByStage, stage);
      var activation := BuildActivation(context);
      for i := 0 to |compiledRules|
        invariant Evaluated(compiledRules[i..], activation, unmatched)
               == Evaluated(compiledRules, activation, unmatched)
      {
        var rule := compiledRules[i].rule;
        var evaluation := compiledRules[i].program(activation);
        if evaluation.Raises? {
          return PolicyResult(Deny, Some(rule.name), Some(ERROR_PREFIX + evaluation.message), None, Hard);
        }
        if evaluation.text == "True" {
          return PolicyResult(rule.decision, Some(rule.name), rule.reason,
                              if rule.approvers != [] then Some(rule.approvers) else None, rule.enforcement);
        }
      }
      if unmatched.allowUnmatchedRequests {
        return PolicyResult(Allow, None, Some(ALL_PASSED), None, Hard);
      }
      result := PolicyResult(Deny, None, Some(UNMATCHED_REASON), None, unmatched.enforcement);
    }
  }

  lemma CompiledOk(cel: Cel, rule: PolicyRule)
    requires cel.compile(rule.expression).Ok?
    ensures Compiled(cel, rule) == CompiledRule(rule, cel.compile(rule.expression).value)
  {
  }

  lemma FailureHere(cel: Cel, rules: seq<PolicyRule>, i: nat)
    requires i < |rules| && forall j :: 0 <= j < i ==> Compiles(cel, rules[j])
    requires !Compiles(cel, rules[i])
    ensures LoadError(cel, rules)
         == Some(CompilationError(rules[i].name, rules[i].expression, cel.compile(rules[i].expression).error))
  {
    FailureAhead(cel, rules, i);
    assert rules[i..][0] == rules[i];
  }

  lemma NoneBad(cel: Cel, context: EvaluationContext)
    ensures BadConditions(cel, [], context) == {}
  {
  }

  lemma MoreBad(cel: Cel, grants: seq<Grant>, i: nat, context: EvaluationContext)
    requires i < |grants|
    ensures var g := grants[i];
            BadConditions(cel, grants[..i + 1], context)
            == BadConditions(cel, grants[..i], context)
               + (if !Expired(g, context.time) && Conditional(g) && Bad(cel, g.condition.value, context)
                  then {g.condition.value} else {})
  {
    assert grants[..i + 1] == grants[..i] + [grants[i]];
  }

  lemma ExposedAt(cel: Cel, grants: seq<Grant>, i: nat, context: EvaluationContext, before: seq<GrantView>)
    requires i < |grants|
    ensures before + Exposed(cel, grants[i..], context)
         == before + (if Active(cel, grants[i], context) then [ViewOf(grants[i])] else [])
            + Exposed(cel, grants[i + 1..], context)
  {
    assert grants[i..][0] == grants[i] && grants[i..][1..] == grants[i + 1..];
  }

  lemma ExposedEnd(cel: Cel, grants: seq<Grant>, context: EvaluationContext, views: seq<GrantView>)
    ensures views + Exposed(cel, grants[|grants|..], context) == views
  {
  }
}
