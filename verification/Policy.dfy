/**
 * The static policy evaluator of internal/agents/policy/static.go: the first
 * rule whose match covers the action decides, otherwise the fallback does.
 */
module Policy {
  import opened Wrappers
  import opened Text

  datatype DecisionState =
    | Allow
    | RequireApproval
    | Deny
    | Unsupported(text: string)       // DecisionState is a string; an evaluator may return any

  datatype Decision = Decision(state: DecisionState, reason: string)

  datatype Action = Action(toolName: string, toolRequiresApproval: bool, targetTenant: string)

  /** The tenant of the run, or None for a nil run. */
  type RunTenant = Option<string>

  datatype Match = Match(
    toolNames: seq<string>,
    toolPrefixes: seq<string>,
    sameTenantOnly: bool,
    crossTenant: bool,
    toolRequiresApproval: bool)

  datatype Rule = Rule(name: string, pattern: Match, decision: Decision)

  predicate IsCrossTenant(run: RunTenant, action: Action) {
    run.Some? && run.value != "" && action.targetTenant != "" && run.value != action.targetTenant
  }

  predicate IsSameTenant(run: RunTenant, action: Action) {
    action.targetTenant == "" || (run.Some? && run.value != "" && run.value == action.targetTenant)
  }

  predicate Matches(m: Match, run: RunTenant, action: Action) {
    && (m.crossTenant ==> IsCrossTenant(run, action))
    && (m.sameTenantOnly ==> IsSameTenant(run, action))
    && (m.toolRequiresApproval ==> action.toolRequiresApproval)
    && ((m.toolNames == [] && m.toolPrefixes == [])
        || action.toolName in m.toolNames
        || HasAnyPrefix(action.toolName, m.toolPrefixes))
  }

  /** A match on tools alone covers the tools it names and those with one of its prefixes, or all if it lists none. */
  lemma ToolsAreListed(m: Match, run: RunTenant, action: Action)
    requires !m.crossTenant && !m.sameTenantOnly && !m.toolRequiresApproval
    ensures Matches(m, run, action) <==>
              || |m.toolNames| + |m.toolPrefixes| == 0
              || (exists k: nat :: k < |m.toolNames| && m.toolNames[k] == action.toolName)
              || (exists k: nat :: k < |m.toolPrefixes| && m.toolPrefixes[k] <= action.toolName)
  {
    assert forall k: nat | k < |m.toolNames| :: m.toolNames[k] in m.toolNames;
    assert forall k: nat | k < |m.toolPrefixes| :: m.toolPrefixes[k] in m.toolPrefixes;
    if p :| p in m.toolPrefixes && HasPrefix(action.toolName, p) {
      var k: nat :| k < |m.toolPrefixes| && m.toolPrefixes[k] == p;
      assert m.toolPrefixes[k] <= action.toolName;
    }
  }

  function Evaluate(rules: seq<Rule>, fallback: Decision, run: RunTenant, action: Action): Decision {
    if rules == [] then fallback
    else if Matches(rules[0].pattern, run, action) then rules[0].decision
    else Evaluate(rules[1..], fallback, run, action)
  }

  /** The first matching rule decides. */
  lemma {:induction false} FirstMatchDecides(rules: seq<Rule>, fallback: Decision, run: RunTenant, action: Action,
                                             k: nat)
    requires k <= |rules|
    requires forall i: nat | i < k :: !Matches(rules[i].pattern, run, action)
    requires k < |rules| ==> Matches(rules[k].pattern, run, action)
    ensures Evaluate(rules, fallback, run, action) == if k < |rules| then rules[k].decision else fallback
  {
    if k > 0 {
      FirstMatchDecides(rules[1..], fallback, run, action, k - 1);
    }
  }

  const CHANGE_PREFIXES := ["ticket.", "runbook.", "action.", "export."]
  const READ_PREFIXES := ["search.", "retrieve.", "query.", "explain."]

  function DefaultRules(): seq<Rule> {
    [Rule("deny-cross-tenant", Match([], [], false, true, false),
          Decision(Deny, "cross-tenant actions are not allowed")),
     Rule("require-approval-for-state-change", Match([], CHANGE_PREFIXES, false, false, false),
          Decision(RequireApproval, "state-changing or external tools require approval")),
     Rule("require-approval-flagged-tool", Match([], [], false, false, true),
          Decision(RequireApproval, "tool is marked as requiring approval")),
     Rule("allow-read-only-investigation", Match([], READ_PREFIXES, true, false, false),
          Decision(Allow, "read-only investigation tools are allowed"))]
  }

  function DefaultDecision(): Decision {
    Decision(RequireApproval, "tool is not covered by a default allow policy")
  }

  function EvaluateDefault(run: RunTenant, action: Action): Decision {
    Evaluate(DefaultRules(), DefaultDecision(), run, action)
  }

  /** No tool name has both a state-changing and a read-only prefix. */
  lemma PrefixesAreDisjoint(name: string)
    ensures !(HasAnyPrefix(name, CHANGE_PREFIXES) && HasAnyPrefix(name, READ_PREFIXES))
  {
    if HasAnyPrefix(name, CHANGE_PREFIXES) {
      var p :| p in CHANGE_PREFIXES && HasPrefix(name, p);
      assert p == "ticket." || p == "runbook." || p == "action." || p == "export.";
      assert name[..4] == p[..4];
      assert p[..4] == "tick" || p[..4] == "runb" || p[..4] == "acti" || p[..4] == "expo";
    }
    if HasAnyPrefix(name, READ_PREFIXES) {
      var q :| q in READ_PREFIXES && HasPrefix(name, q);
      assert q == "search." || q == "retrieve." || q == "query." || q == "explain.";
      assert name[..4] == q[..4];
      assert q[..4] == "sear" || q[..4] == "retr" || q[..4] == "quer" || q[..4] == "expl";
    }
  }

  lemma ReadPrefixes(name: string)
    ensures HasAnyPrefix(name, READ_PREFIXES) <==>
              "search." <= name || "retrieve." <= name || "query." <= name || "explain." <= name
  {
    assert READ_PREFIXES[0] in READ_PREFIXES && READ_PREFIXES[1] in READ_PREFIXES;
    assert READ_PREFIXES[2] in READ_PREFIXES && READ_PREFIXES[3] in READ_PREFIXES;
  }

  /** A tool that changes state is asked about as such, unless it crosses tenants. */
  lemma ChangesAreAskedAbout(run: RunTenant, action: Action)
    requires "ticket." <= action.toolName || "runbook." <= action.toolName
             || "action." <= action.toolName || "export." <= action.toolName
    requires EvaluateDefault(run, action).state != Deny
    ensures EvaluateDefault(run, action)
         == Decision(RequireApproval, "state-changing or external tools require approval")
  {
    assert CHANGE_PREFIXES[0] in CHANGE_PREFIXES && CHANGE_PREFIXES[1] in CHANGE_PREFIXES;
    assert CHANGE_PREFIXES[2] in CHANGE_PREFIXES && CHANGE_PREFIXES[3] in CHANGE_PREFIXES;
    var rules := DefaultRules();
    FirstMatchDecides(rules, DefaultDecision(), run, action, if Matches(rules[0].pattern, run, action) then 0 else 1);
  }

  /**
   * The default rules in one sentence each way: an action is allowed exactly
   * when its tool has a read-only prefix, is not flagged, and stays in the
   * tenant of the run; it is denied exactly when it crosses between two named
   * tenants; anything else waits for approval.
   */
  lemma DefaultRulesMeaning(run: RunTenant, action: Action)
    ensures EvaluateDefault(run, action).state == Allow <==>
              && ("search." <= action.toolName || "retrieve." <= action.toolName
                  || "query." <= action.toolName || "explain." <= action.toolName)
              && !action.toolRequiresApproval
              && (action.targetTenant == "" || (run == Some(action.targetTenant)))
    ensures EvaluateDefault(run, action).state == Deny <==>
              run.Some? && run.value != "" && action.targetTenant != "" && run.value != action.targetTenant
    ensures !EvaluateDefault(run, action).state.Unsupported?
  {
    PrefixesAreDisjoint(action.toolName);
    ReadPrefixes(action.toolName);
    var rules := DefaultRules();
    var k := if Matches(rules[0].pattern, run, action) then 0
             else if Matches(rules[1].pattern, run, action) then 1
             else if Matches(rules[2].pattern, run, action) then 2
             else if Matches(rules[3].pattern, run, action) then 3 else 4;
    FirstMatchDecides(rules, DefaultDecision(), run, action, k);
  }
}
