/** What the policy engine's answer means for the list of rules, without buckets, sorting or an evaluation loop. */
module PolicyLaws {
  import opened Common
  import opened Model
  import opened Policy

  // ---- Loading ----

  /** Rules load exactly when every enabled one compiles; otherwise the error is the one of the first that does not,
      with its name and expression. */
  lemma LoadFails(cel: Cel, rules: seq<PolicyRule>)
    ensures LoadError(cel, rules).None?
       <==> forall j :: 0 <= j < |rules| && rules[j].enabled ==> cel.compile(rules[j].expression).Ok?
    ensures forall i ::
              && 0 <= i < |rules| && rules[i].enabled && cel.compile(rules[i].expression).Err?
              && (forall j :: 0 <= j < i && rules[j].enabled ==> cel.compile(rules[j].expression).Ok?)
              ==> LoadError(cel, rules)
                  == Some(CompilationError(rules[i].name, rules[i].expression,
                                           cel.compile(rules[i].expression).error))
  {
    NoFailure(cel, rules);
    assert forall j :: 0 <= j < |rules| ==>
             (Compiles(cel, rules[j]) <==> (rules[j].enabled ==> cel.compile(rules[j].expression).Ok?));
    forall i | && 0 <= i < |rules| && rules[i].enabled && cel.compile(rules[i].expression).Err?
               && (forall j :: 0 <= j < i && rules[j].enabled ==> cel.compile(rules[j].expression).Ok?)
      ensures LoadError(cel, rules)
           == Some(CompilationError(rules[i].name, rules[i].expression, cel.compile(rules[i].expression).error))
    {
      FailureHere(cel, rules, i);
    }
  }

  // ---- The declarative answer ----

  function EvaluationOf(cel: Cel, rule: PolicyRule, activation: Activation): Evaluation {
    Compiled(cel, rule).program(activation)
  }

  /** The rule is enabled, is meant for the stage, and evaluates to True or raises. */
  predicate Applies(cel: Cel, rule: PolicyRule, stage: Stage, activation: Activation) {
    rule.enabled && stage in rule.stages && Fires(EvaluationOf(cel, rule, activation))
  }

  /** Rule w applies and no applying rule has a greater priority, or the same priority and an earlier place. */
  ghost predicate Wins(cel: Cel, rules: seq<PolicyRule>, stage: Stage, activation: Activation, w: nat) {
    && w < |rules| && Applies(cel, rules[w], stage, activation)
    && forall i :: 0 <= i < |rules| && Applies(cel, rules[i], stage, activation) ==> Yields(rules, i, w)
  }

  ghost predicate Yields(rules: seq<PolicyRule>, i: nat, w: nat)
    requires i < |rules| && w < |rules|
  {
    rules[i].priority < rules[w].priority || (rules[i].priority == rules[w].priority && w <= i)
  }

  // ---- From the loop to the best rule ----

  /** The better of two candidates, the first listed on equal priority. */
  function Better(a: Option<CompiledRule>, b: Option<CompiledRule>): Option<CompiledRule> {
    if a.None? then b
    else if b.None? || b.value.rule.priority <= a.value.rule.priority then a
    else b
  }

  function Candidate(c: CompiledRule, activation: Activation): Option<CompiledRule> {
    if Fires(c.program(activation)) then Some(c) else None
  }

  function Best(s: seq<CompiledRule>, activation: Activation): Option<CompiledRule> {
    if s == [] then None else Better(Candidate(s[0], activation), Best(s[1..], activation))
  }

  function First(s: seq<CompiledRule>, activation: Activation): Option<CompiledRule> {
    if s == [] then None
    else if Fires(s[0].program(activation)) then Some(s[0])
    else First(s[1..], activation)
  }

  function Outcome(best: Option<CompiledRule>, activation: Activation, unmatched: Unmatched): PolicyResult {
    if best.None? then Default(unmatched) else Verdict(best.value.rule, best.value.program(activation))
  }

  lemma {:induction false} LoopTakesFirst(s: seq<CompiledRule>, activation: Activation, unmatched: Unmatched)
    ensures Evaluated(s, activation, unmatched) == Outcome(First(s, activation), activation, unmatched)
  {
    if s != [] {
      LoopTakesFirst(s[1..], activation, unmatched);
    }
  }

  lemma {:induction false} BestOfConcat(s: seq<CompiledRule>, t: seq<CompiledRule>, activation: Activation)
    ensures Best(s + t, activation) == Better(Best(s, activation), Best(t, activation))
  {
    if s == [] {
      assert s + t == t;
    } else {
      assert (s + t)[1..] == s[1..] + t;
      BestOfConcat(s[1..], t, activation);
    }
    hide Candidate;
  }

  ghost predicate Descending(s: seq<CompiledRule>) {
    forall i, j :: 0 <= i < j < |s| ==> s[i].rule.priority >= s[j].rule.priority
  }

  lemma {:induction false} InsertMembers(c: CompiledRule, s: seq<CompiledRule>)
    ensures forall d :: d in InsertByPriority(c, s) <==> d == c || d in s
  {
    if s != [] && c.rule.priority < s[0].rule.priority {
      InsertMembers(c, s[1..]);
      assert s == [s[0]] + s[1..];
    }
  }

  lemma {:induction false} InsertDescends(c: CompiledRule, s: seq<CompiledRule>)
    requires Descending(s)
    ensures Descending(InsertByPriority(c, s))
  {
    if s != [] && c.rule.priority < s[0].rule.priority {
      InsertDescends(c, s[1..]);
      InsertMembers(c, s[1..]);
      var rest := InsertByPriority(c, s[1..]);
      forall k | 0 <= k < |rest| ensures s[0].rule.priority >= rest[k].rule.priority {
        assert rest[k] in rest;
      }
    }
  }

  lemma {:induction false} SortDescends(s: seq<CompiledRule>)
    ensures Descending(SortByPriority(s))
  {
    if s != [] {
      SortDescends(s[1..]);
      InsertDescends(s[0], SortByPriority(s[1..]));
    }
  }

  /** In a list sorted by descending priority the first rule to fire is the best one. */
  lemma {:induction false} FirstIsBest(s: seq<CompiledRule>, activation: Activation)
    requires Descending(s)
    ensures First(s, activation) == Best(s, activation)
    ensures var best := Best(s, activation); best.Some? ==> best.value in s
  {
    if s != [] {
      FirstIsBest(s[1..], activation);
      var best := Best(s[1..], activation);
      if best.Some? {
        var k :| 0 <= k < |s[1..]| && s[1..][k] == best.value;
        assert s[k + 1] == best.value && s[0].rule.priority >= s[k + 1].rule.priority;
      }
    }
  }

  lemma BetterSwaps(a: Option<CompiledRule>, b: Option<CompiledRule>, rest: Option<CompiledRule>)
    requires a.Some? && b.Some? ==> a.value.rule.priority < b.value.rule.priority
    ensures Better(a, Better(b, rest)) == Better(b, Better(a, rest))
  {
  }

  lemma BestCons(c: CompiledRule, s: seq<CompiledRule>, activation: Activation)
    ensures Best([c] + s, activation) == Better(Candidate(c, activation), Best(s, activation))
  {
    assert ([c] + s)[1..] == s;
  }

  lemma {:induction false} BestOfInsert(c: CompiledRule, s: seq<CompiledRule>, activation: Activation)
    ensures Best(InsertByPriority(c, s), activation) == Better(Candidate(c, activation), Best(s, activation))
  {
    if s == [] || c.rule.priority >= s[0].rule.priority {
      BestCons(c, s, activation);
    } else {
      var rest := s[1..];
      BestOfInsert(c, rest, activation);
      BestCons(s[0], InsertByPriority(c, rest), activation);
      BetterSwaps(Candidate(c, activation), Candidate(s[0], activation), Best(rest, activation));
      hide Better;
    }
  }

  /** The stable sort does not change which rule is best. */
  lemma {:induction false} BestOfSorted(s: seq<CompiledRule>, activation: Activation)
    ensures Best(SortByPriority(s), activation) == Best(s, activation)
  {
    if s != [] {
      BestOfSorted(s[1..], activation);
      BestOfInsert(s[0], SortByPriority(s[1..]), activation);
    }
    hide Better, Candidate, InsertByPriority;
  }

  // ---- From the bucket to the rule list ----

  function Chosen(cel: Cel, rule: PolicyRule, stage: Stage, activation: Activation): Option<CompiledRule> {
    if Applies(cel, rule, stage, activation) then Some(Compiled(cel, rule)) else None
  }

  function Choice(cel: Cel, rules: seq<PolicyRule>, stage: Stage, activation: Activation): Option<CompiledRule> {
    if rules == [] then None
    else Better(Chosen(cel, rules[0], stage, activation), Choice(cel, rules[1..], stage, activation))
  }

  lemma {:induction false} BestOfCopies(c: CompiledRule, stages: seq<Stage>, stage: Stage, activation: Activation)
    ensures Best(Copies(c, stages, stage), activation) == if stage in stages then Candidate(c, activation) else None
  {
    if stages != [] {
      BestOfCopies(c, stages[1..], stage, activation);
      assert stages == [stages[0]] + stages[1..];
      BestCons(c, Copies(c, stages[1..], stage), activation);
      assert [] + Copies(c, stages[1..], stage) == Copies(c, stages[1..], stage);
      hide Fires;
    }
  }

  lemma {:induction false} BestOfBucket(cel: Cel, rules: seq<PolicyRule>, stage: Stage, activation: Activation)
    ensures Best(Bucket(cel, rules, stage), activation) == Choice(cel, rules, stage, activation)
  {
    if rules != [] {
      BestOfBucket(cel, rules[1..], stage, activation);
      var c := Compiled(cel, rules[0]);
      var copies := if rules[0].enabled then Copies(c, rules[0].stages, stage) else [];
      BestOfCopies(c, rules[0].stages, stage, activation);
      BestOfConcat(copies, Bucket(cel, rules[1..], stage), activation);
      CompiledRuleIs(cel, rules[0]);
      hide Fires, Compiled, Copies;
    }
  }

  lemma CompiledRuleIs(cel: Cel, rule: PolicyRule)
    ensures Compiled(cel, rule).rule == rule
  {
  }

  /** Bucketing, sorting and the early-exit loop pick the best rule of the list. */
  lemma AnswerIsChoice(cel: Cel, unmatched: Unmatched, rules: seq<PolicyRule>, stage: Stage, context: EvaluationContext)
    ensures var activation := RuleActivation(cel, context);
            Answer(cel, unmatched, rules, stage, context)
            == Outcome(Choice(cel, rules, stage, activation), activation, unmatched)
  {
    hide Bucket, SortByPriority, RuleActivation, Best, First, Choice, Evaluated, Outcome;
    var activation := RuleActivation(cel, context);
    var bucket := Bucket(cel, rules, stage);
    SortDescends(bucket);
    LoopTakesFirst(SortByPriority(bucket), activation, unmatched);
    FirstIsBest(SortByPriority(bucket), activation);
    BestOfSorted(bucket, activation);
    BestOfBucket(cel, rules, stage, activation);
  }

  lemma {:induction false} ChoiceWins(cel: Cel, rules: seq<PolicyRule>, stage: Stage, activation: Activation)
      returns (w: nat)
    requires exists i :: 0 <= i < |rules| && Applies(cel, rules[i], stage, activation)
    ensures Wins(cel, rules, stage, activation, w)
    ensures Choice(cel, rules, stage, activation) == Some(Compiled(cel, rules[w]))
  {
    hide Applies, Compiled;
    var rest := rules[1..];
    CompiledRuleIs(cel, rules[0]);
    if exists i :: 0 <= i < |rest| && Applies(cel, rest[i], stage, activation) {
      var v := ChoiceWins(cel, rest, stage, activation);
      CompiledRuleIs(cel, rest[v]);
      var first := Applies(cel, rules[0], stage, activation) && rules[0].priority >= rest[v].priority;
      w := if first then 0 else v + 1;
      forall i | 0 <= i < |rules| && Applies(cel, rules[i], stage, activation) ensures Yields(rules, i, w) {
        if i > 0 {
          assert rules[i] == rest[i - 1];
          assert Yields(rest, i - 1, v);
        }
      }
    } else {
      forall i | 0 < i < |rules| ensures !Applies(cel, rules[i], stage, activation) {
        assert rules[i] == rest[i - 1];
      }
      NoChoice(cel, rest, stage, activation);
      w := 0;
    }
  }

  lemma {:induction false} NoChoice(cel: Cel, rules: seq<PolicyRule>, stage: Stage, activation: Activation)
    requires forall i :: 0 <= i < |rules| ==> !Applies(cel, rules[i], stage, activation)
    ensures Choice(cel, rules, stage, activation) == None
  {
    if rules != [] {
      assert !Applies(cel, rules[0], stage, activation);
      hide Applies;
      forall i | 0 <= i < |rules[1..]| ensures !Applies(cel, rules[1..][i], stage, activation) {
        assert rules[1..][i] == rules[i + 1];
      }
      NoChoice(cel, rules[1..], stage, activation);
    }
  }

  lemma WinnerUnique(cel: Cel, rules: seq<PolicyRule>, stage: Stage, activation: Activation, v: nat, w: nat)
    requires Wins(cel, rules, stage, activation, v) && Wins(cel, rules, stage, activation, w)
    ensures v == w
  {
    hide Applies;
    assert Yields(rules, v, w) && Yields(rules, w, v);
  }

  /** The rule with the greatest priority among those that apply, the earliest loaded on ties, decides alone. */
  lemma WinnerDecides(cel: Cel, unmatched: Unmatched, rules: seq<PolicyRule>, stage: Stage, context: EvaluationContext,
                      w: nat)
    requires Wins(cel, rules, stage, RuleActivation(cel, context), w)
    ensures Answer(cel, unmatched, rules, stage, context)
         == Verdict(rules[w], EvaluationOf(cel, rules[w], RuleActivation(cel, context)))
  {
    hide RuleActivation, Answer, Applies, Choice;
    var activation := RuleActivation(cel, context);
    AnswerIsChoice(cel, unmatched, rules, stage, context);
    var v := ChoiceWins(cel, rules, stage, activation);
    WinnerUnique(cel, rules, stage, activation, v, w);
    CompiledRuleIs(cel, rules[w]);
    hide Compiled;
  }

  /** Some rule wins exactly when some rule applies; when none does, the configured default is the answer. */
  lemma WinnerExistsIff(cel: Cel, unmatched: Unmatched, rules: seq<PolicyRule>, stage: Stage, context: EvaluationContext)
    ensures var activation := RuleActivation(cel, context);
            && ((exists w :: Wins(cel, rules, stage, activation, w))
                <==> exists i :: 0 <= i < |rules| && Applies(cel, rules[i], stage, activation))
            && ((forall i :: 0 <= i < |rules| ==> !Applies(cel, rules[i], stage, activation))
                ==> Answer(cel, unmatched, rules, stage, context) == Default(unmatched))
  {
    hide RuleActivation, Answer, Applies, Choice, Default;
    var activation := RuleActivation(cel, context);
    if exists i :: 0 <= i < |rules| && Applies(cel, rules[i], stage, activation) {
      var w := ChoiceWins(cel, rules, stage, activation);
      assert Wins(cel, rules, stage, activation, w);
    } else {
      AnswerIsChoice(cel, unmatched, rules, stage, context);
      NoChoice(cel, rules, stage, activation);
    }
  }

  /** The fail-closed default, field by field: when no enabled rule of the stage evaluates to True or raises, the
      request is allowed exactly when unmatched requests are, and a denial carries the configured enforcement. */
  lemma UnmatchedAnswer(cel: Cel, unmatched: Unmatched, rules: seq<PolicyRule>, stage: Stage, context: EvaluationContext)
    requires forall i :: 0 <= i < |rules| && rules[i].enabled && stage in rules[i].stages ==>
               var program := cel.compile(rules[i].expression);
               program.Ok? && var evaluation := program.value(RuleActivation(cel, context));
                              evaluation.Value? && evaluation.text != "True"
    ensures var answer := Answer(cel, unmatched, rules, stage, context);
            && (answer.decision == Allow <==> unmatched.allowUnmatchedRequests)
            && (answer.decision == Deny <==> !unmatched.allowUnmatchedRequests)
            && answer.policyName == None && answer.approvers == None
            && (answer.decision == Allow ==> answer.reason == Some("All policies passed") && answer.enforcement == Hard)
            && (answer.decision == Deny ==>
                  && answer.reason
                     == Some("No policy rule matched this request (fail-closed default -- no implicit allow)")
                  && answer.enforcement == unmatched.enforcement)
  {
    var activation := RuleActivation(cel, context);
    forall i | 0 <= i < |rules| ensures !Applies(cel, rules[i], stage, activation) {
      hide RuleActivation;
    }
    hide RuleActivation, Answer, Applies;
    WinnerExistsIff(cel, unmatched, rules, stage, context);
  }

  /** The answer of the winning rule, field by field: its own when its expression is True, and when it raises a HARD
      denial under its name, with the message, whatever the rule itself would decide. */
  lemma WinnerAnswer(cel: Cel, unmatched: Unmatched, rules: seq<PolicyRule>, stage: Stage, context: EvaluationContext,
                     w: nat)
    requires Wins(cel, rules, stage, RuleActivation(cel, context), w)
    ensures var answer := Answer(cel, unmatched, rules, stage, context);
            var rule := rules[w];
            var program := cel.compile(rule.expression);
            && answer.policyName == Some(rule.name)
            && (program.Ok? ==>
                  match program.value(RuleActivation(cel, context))
                  case Value(text) =>
                    && text == "True"
                    && answer.decision == rule.decision && answer.reason == rule.reason
                    && answer.enforcement == rule.enforcement
                    && (answer.approvers.None? <==> rule.approvers == [])
                    && (answer.approvers.Some? ==> answer.approvers.value == rule.approvers)
                  case Raises(message) =>
                    && answer.decision == Deny && answer.enforcement == Hard && answer.approvers.None?
                    && answer.reason == Some("Policy evaluation error (fail-closed): " + message))
  {
    WinnerDecides(cel, unmatched, rules, stage, context, w);
    assert Applies(cel, rules[w], stage, RuleActivation(cel, context));
    hide RuleActivation, Answer, Wins;
  }

  /** What wins, without the engine's own words: an enabled rule of the stage whose compiled expression is True or
      raises. */
  lemma AppliesIff(cel: Cel, rule: PolicyRule, stage: Stage, activation: Activation)
    requires cel.compile(rule.expression).Ok?
    ensures Applies(cel, rule, stage, activation)
       <==> rule.enabled && stage in rule.stages
            && match cel.compile(rule.expression).value(activation)
               case Raises(_) => true
               case Value(text) => text == "True"
  {
  }

  /** A winning rule whose evaluation raises denies with HARD enforcement, whatever the rule itself would decide. */
  lemma ErrorsFailClosed(cel: Cel, unmatched: Unmatched, rules: seq<PolicyRule>, stage: Stage,
                         context: EvaluationContext, w: nat)
    requires Wins(cel, rules, stage, RuleActivation(cel, context), w)
    requires EvaluationOf(cel, rules[w], RuleActivation(cel, context)).Raises?
    ensures var answer := Answer(cel, unmatched, rules, stage, context);
            answer.decision == Deny && answer.enforcement == Hard && answer.policyName == Some(rules[w].name)
  {
    WinnerDecides(cel, unmatched, rules, stage, context, w);
    hide RuleActivation, Answer, Applies, Wins;
  }

  // ---- Changing the rule set ----

  lemma {:induction false} ChoiceOfConcat(cel: Cel, xs: seq<PolicyRule>, ys: seq<PolicyRule>, stage: Stage,
                                          activation: Activation)
    ensures Choice(cel, xs + ys, stage, activation)
         == Better(Choice(cel, xs, stage, activation), Choice(cel, ys, stage, activation))
  {
    if xs == [] {
      assert xs + ys == ys;
    } else {
      assert (xs + ys)[1..] == xs[1..] + ys;
      ChoiceOfConcat(cel, xs[1..], ys, stage, activation);
    }
    hide Chosen;
  }

  /** Rule r, placed between xs and ys, would be the one to decide. */
  ghost predicate TakesOver(cel: Cel, xs: seq<PolicyRule>, r: PolicyRule, ys: seq<PolicyRule>, stage: Stage,
                            activation: Activation)
  {
    && Applies(cel, r, stage, activation)
    && (forall x :: x in xs && Applies(cel, x, stage, activation) ==> x.priority < r.priority)
    && (forall y :: y in ys && Applies(cel, y, stage, activation) ==> y.priority <= r.priority)
  }

  lemma ChoiceIsMaximal(cel: Cel, rules: seq<PolicyRule>, stage: Stage, activation: Activation)
    ensures var choice := Choice(cel, rules, stage, activation);
            if choice.None? then forall x :: x in rules ==> !Applies(cel, x, stage, activation)
            else && choice.value.rule in rules && Applies(cel, choice.value.rule, stage, activation)
                 && choice.value == Compiled(cel, choice.value.rule)
                 && forall x :: x in rules && Applies(cel, x, stage, activation) ==> x.priority <= choice.value.rule.priority
  {
    hide Applies, Choice, Compiled;
    if exists i :: 0 <= i < |rules| && Applies(cel, rules[i], stage, activation) {
      var w := ChoiceWins(cel, rules, stage, activation);
      CompiledRuleIs(cel, rules[w]);
      forall x | x in rules && Applies(cel, x, stage, activation) ensures x.priority <= rules[w].priority {
        var i :| 0 <= i < |rules| && rules[i] == x;
        assert Yields(rules, i, w);
      }
    } else {
      NoChoice(cel, rules, stage, activation);
    }
  }

  /** Inserting one rule anywhere leaves every answer as it was, except where the new rule outranks the old winner,
      and there the answer is the new rule's own. */
  lemma InsertIsLocal(cel: Cel, unmatched: Unmatched, xs: seq<PolicyRule>, r: PolicyRule, ys: seq<PolicyRule>,
                      stage: Stage, context: EvaluationContext)
    ensures var activation := RuleActivation(cel, context);
            Answer(cel, unmatched, xs + [r] + ys, stage, context)
            == if TakesOver(cel, xs, r, ys, stage, activation) then Verdict(r, EvaluationOf(cel, r, activation))
               else Answer(cel, unmatched, xs + ys, stage, context)
  {
    hide RuleActivation, Answer, Applies, Verdict, Default;
    var activation := RuleActivation(cel, context);
    AnswerIsChoice(cel, unmatched, xs + [r] + ys, stage, context);
    AnswerIsChoice(cel, unmatched, xs + ys, stage, context);
    ChoiceOfConcat(cel, xs + [r], ys, stage, activation);
    ChoiceOfConcat(cel, xs, [r], stage, activation);
    ChoiceOfConcat(cel, xs, ys, stage, activation);
    assert [r][1..] == [];
    assert Choice(cel, [r], stage, activation) == Chosen(cel, r, stage, activation);
    ChoiceIsMaximal(cel, xs, stage, activation);
    ChoiceIsMaximal(cel, ys, stage, activation);
    CompiledRuleIs(cel, r);
    hide Choice, Compiled;
  }

  /** Loading the same rules in another order changes no answer when rules of equal priority are equal. */
  lemma OrderIrrelevant(cel: Cel, unmatched: Unmatched, a: seq<PolicyRule>, b: seq<PolicyRule>, stage: Stage,
                        context: EvaluationContext)
    requires multiset(a) == multiset(b)
    requires forall r, s :: r in a && s in a && r.priority == s.priority ==> r == s
    ensures Answer(cel, unmatched, a, stage, context) == Answer(cel, unmatched, b, stage, context)
  {
    hide RuleActivation, Answer, Applies, Choice, Compiled, Outcome;
    var activation := RuleActivation(cel, context);
    AnswerIsChoice(cel, unmatched, a, stage, context);
    AnswerIsChoice(cel, unmatched, b, stage, context);
    ChoiceIsMaximal(cel, a, stage, activation);
    ChoiceIsMaximal(cel, b, stage, activation);
    forall r ensures r in a <==> r in b {
      assert r in multiset(a) <==> r in multiset(b);
    }
  }

  // ---- Exposed grants ----

  lemma {:induction false} ExposedOfConcat(cel: Cel, xs: seq<Grant>, ys: seq<Grant>, context: EvaluationContext)
    ensures Exposed(cel, xs + ys, context) == Exposed(cel, xs, context) + Exposed(cel, ys, context)
  {
    if xs == [] {
      assert xs + ys == ys;
    } else {
      assert (xs + ys)[1..] == xs[1..] + ys;
      ExposedOfConcat(cel, xs[1..], ys, context);
    }
    hide Active;
  }

  lemma ExposedNone(cel: Cel, g: Grant, context: EvaluationContext)
    requires !Active(cel, g, context)
    ensures Exposed(cel, [g], context) == []
  {
    assert [g][1..] == [];
    hide Active;
  }

  lemma ExposedOne(cel: Cel, g: Grant, context: EvaluationContext)
    ensures Exposed(cel, [g], context) == if Active(cel, g, context) then [ViewOf(g)] else []
  {
    assert [g][1..] == [];
    hide Active;
  }

  /** What the rules see of an agent's grants, in order: a grant shows, by its resources, actions, scope and condition
      text, exactly when it has not expired and its condition, if it has one, compiles and is True of the agent, the
      request and the time alone. */
  lemma GrantShownIff(cel: Cel, context: EvaluationContext, xs: seq<Grant>, g: Grant, ys: seq<Grant>)
    ensures var expired := g.expiresAt.Some? && g.expiresAt.value < context.time;
            var condition := if g.condition.Some? then g.condition.value else "";
            var a := context.agent;
            var facts := AgentFacts(a.name, a.agentId, if a.owner.Some? then a.owner.value else "", a.status,
                                    a.trustValue, a.trustTier);
            var program := cel.compile(condition);
            var holds := program.Ok?
                         && program.value(ForCondition(facts, context.request, context.time)) == Value("True");
            Exposed(cel, xs + [g] + ys, context)
            == Exposed(cel, xs, context)
               + (if !expired && (condition == "" || holds) then [GrantView(g.resources, g.actions, g.scope, condition)]
                  else [])
               + Exposed(cel, ys, context)
  {
    ExposedOfConcat(cel, xs + [g], ys, context);
    ExposedOfConcat(cel, xs, [g], context);
    ExposedOne(cel, g, context);
    hide Exposed;
  }

  /** An evaluation complains about the conditions, of grants that have not expired, that do not compile or raise. */
  lemma ComplainsIff(cel: Cel, grants: seq<Grant>, context: EvaluationContext, condition: string)
    ensures condition in BadConditions(cel, grants, context)
       <==> && (exists g :: g in grants && g.condition == Some(condition) && condition != ""
                            && (g.expiresAt.None? || g.expiresAt.value >= context.time))
            && match cel.compile(condition)
               case Err(_) => true
               case Ok(program) => program(ConditionActivation(context)).Raises?
  {
  }

  /** A rule sees the agent as it is, an absent owner as the empty text, its grants as they show, the request, the
      time, and the result, or an empty one before there is any. */
  lemma RuleSees(cel: Cel, context: EvaluationContext)
    ensures var seen, agent := RuleActivation(cel, context), context.agent;
            && seen.ForRule?
            && seen.agent.name == agent.name && seen.agent.agentId == agent.agentId
            && (agent.owner.Some? ==> seen.agent.owner == agent.owner.value)
            && (agent.owner.None? ==> seen.agent.owner == "")
            && seen.agent.status == agent.status
            && seen.agent.trustValue == agent.trustValue && seen.agent.trustTier == agent.trustTier
            && seen.grants == Exposed(cel, agent.grants, context)
            && seen.request == context.request && seen.time == context.time
            && (context.result.Some? ==> seen.result == context.result.value)
            && (context.result.None? ==> seen.result == map[])
  {
    hide Exposed;
  }

  /** A grant that is expired, or whose condition is bad or not True, is invisible to every rule: the answer is the
      one for an agent without it. */
  lemma InactiveGrantInvisible(cel: Cel, unmatched: Unmatched, rules: seq<PolicyRule>, stage: Stage,
                               context: EvaluationContext, xs: seq<Grant>, g: Grant, ys: seq<Grant>)
    requires context.agent.grants == xs + [g] + ys && !Active(cel, g, context)
    ensures var without := context.(agent := context.agent.(grants := xs + ys));
            Answer(cel, unmatched, rules, stage, context) == Answer(cel, unmatched, rules, stage, without)
  {
    hide Bucket, SortByPriority, Evaluated, Active, Exposed;
    var without := context.(agent := context.agent.(grants := xs + ys));
    ExposedOfConcat(cel, xs + [g], ys, context);
    ExposedOfConcat(cel, xs, [g], context);
    ExposedOfConcat(cel, xs, ys, context);
    ExposedNone(cel, g, context);
    SameConditions(cel, context, without, xs + ys);
    assert Exposed(cel, xs, context) + [] == Exposed(cel, xs, context);
    assert RuleActivation(cel, context) == RuleActivation(cel, without);
  }

  /** Whether a grant is exposed does not depend on the grants of the agent it is judged with. */
  lemma {:induction false} SameConditions(cel: Cel, c: EvaluationContext, d: EvaluationContext, grants: seq<Grant>)
    requires ConditionActivation(c) == ConditionActivation(d)
    ensures Exposed(cel, grants, c) == Exposed(cel, grants, d)
  {
    if grants != [] {
      SameConditions(cel, c, d, grants[1..]);
    }
  }
}
