/** The rule table for task status changes and the checks made on it. */
module TaskTransition {
  import opened Prelude

  datatype TaskStatus = Brief | Production | InternalReview | ClientHandoff | ClientApproval | PendingClosure | Done
  datatype WorkspaceRole = Admin | Manager | Member | ClientView
  datatype TaskEventType = StatusChanged | HandoffAck | ClientApprovalEvent
  datatype ClientApprovalType = Approved | ChangesRequested

  datatype Rule = Rule(from: TaskStatus, to: TaskStatus, allowedRoles: seq<WorkspaceRole>)
  datatype Resolved = Resolved(
    eventType: TaskEventType, approvalType: Option<ClientApprovalType>, requiresComment: bool)
  datatype Check = NotAllowed | Invalid | Allowed(resolved: Resolved)

  const AGENCY_ROLES: seq<WorkspaceRole> := [Admin, Manager]

  const TRANSITION_RULES: seq<Rule> := [
    Rule(Brief, Production, AGENCY_ROLES),
    Rule(Production, InternalReview, AGENCY_ROLES),
    Rule(InternalReview, Production, AGENCY_ROLES),
    Rule(InternalReview, ClientHandoff, AGENCY_ROLES),
    Rule(ClientHandoff, InternalReview, AGENCY_ROLES),
    Rule(ClientHandoff, ClientApproval, [ClientView]),
    Rule(ClientApproval, PendingClosure, [ClientView]),
    Rule(ClientApproval, Production, [ClientView]),
    Rule(PendingClosure, Done, AGENCY_ROLES)
  ]

  function FindRule(rules: seq<Rule>, from: TaskStatus, to: TaskStatus): Option<Rule> {
    if rules == [] then None
    else if rules[0].from == from && rules[0].to == to then Some(rules[0])
    else FindRule(rules[1..], from, to)
  }

  predicate CanTransition(role: WorkspaceRole, from: TaskStatus, to: TaskStatus) {
    from != Done &&
    var rule := FindRule(TRANSITION_RULES, from, to);
    rule.Some? && role in rule.value.allowedRoles
  }

  function TargetsIn(rules: seq<Rule>, role: WorkspaceRole, from: TaskStatus): seq<TaskStatus> {
    if rules == [] then []
    else if rules[0].from == from && role in rules[0].allowedRoles
    then [rules[0].to] + TargetsIn(rules[1..], role, from)
    else TargetsIn(rules[1..], role, from)
  }

  function GetAllowedTargetStatuses(role: WorkspaceRole, from: TaskStatus): seq<TaskStatus> {
    if from == Done then [] else TargetsIn(TRANSITION_RULES, role, from)
  }

  function ResolveTransition(from: TaskStatus, to: TaskStatus): Resolved {
    if from == ClientHandoff && to == ClientApproval then Resolved(HandoffAck, None, false)
    else if from == ClientApproval && to == PendingClosure then Resolved(ClientApprovalEvent, Some(Approved), false)
    else if from == ClientApproval && to == Production then Resolved(ClientApprovalEvent, Some(ChangesRequested), true)
    else Resolved(StatusChanged, None, false)
  }

  function AssertTransitionWithPayload(role: WorkspaceRole, from: TaskStatus, to: TaskStatus,
                                       comment: Option<string>): Check
  {
    if from == to || !CanTransition(role, from, to) then NotAllowed
    else
      var resolved := ResolveTransition(from, to);
      if resolved.requiresComment && (comment.None? || Trim(comment.value) == "") then Invalid
      else Allowed(resolved)
  }

  /** The transition matrix of the product specification, written out by source status. */
  predicate InMatrix(role: WorkspaceRole, from: TaskStatus, to: TaskStatus) {
    var agency := role == Admin || role == Manager;
    var client := role == ClientView;
    match from
    case Brief => to == Production && agency
    case Production => to == InternalReview && agency
    case InternalReview => (to == Production || to == ClientHandoff) && agency
    case ClientHandoff => (to == InternalReview && agency) || (to == ClientApproval && client)
    case ClientApproval => (to == PendingClosure || to == Production) && client
    case PendingClosure => to == Done && agency
    case Done => false
  }

  lemma {:induction false} FindRuleAt(rules: seq<Rule>, from: TaskStatus, to: TaskStatus)
    ensures FindRule(rules, from, to).Some? <==> exists r :: r in rules && r.from == from && r.to == to
    ensures FindRule(rules, from, to).Some? ==>
      var r := FindRule(rules, from, to).value; r in rules && r.from == from && r.to == to
  {
    if rules != [] {
      FindRuleAt(rules[1..], from, to);
    }
  }

  lemma RuleInMatrix(i: nat, role: WorkspaceRole)
    requires i < |TRANSITION_RULES|
    ensures TRANSITION_RULES[i].from != Done
    ensures role in TRANSITION_RULES[i].allowedRoles <==>
      InMatrix(role, TRANSITION_RULES[i].from, TRANSITION_RULES[i].to)
  {
  }

  lemma MatrixHasRule(role: WorkspaceRole, from: TaskStatus, to: TaskStatus) returns (i: int)
    requires InMatrix(role, from, to)
    ensures 0 <= i < |TRANSITION_RULES| && TRANSITION_RULES[i].from == from && TRANSITION_RULES[i].to == to
  {
    i := if from == Brief then 0
         else if from == Production then 1
         else if from == InternalReview then if to == Production then 2 else 3
         else if from == ClientHandoff then if to == InternalReview then 4 else 5
         else if from == ClientApproval then if to == PendingClosure then 6 else 7
         else 8;
  }

  /** The rule table says exactly what the product specification's matrix says. */
  lemma RulesAreTheMatrix(role: WorkspaceRole, from: TaskStatus, to: TaskStatus)
    ensures CanTransition(role, from, to) <==> InMatrix(role, from, to)
  {
    FindRuleAt(TRANSITION_RULES, from, to);
    var rule := FindRule(TRANSITION_RULES, from, to);
    if rule.Some? {
      var i :| 0 <= i < |TRANSITION_RULES| && TRANSITION_RULES[i] == rule.value;
      RuleInMatrix(i, role);
    }
    if InMatrix(role, from, to) {
      var i := MatrixHasRule(role, from, to);
      assert TRANSITION_RULES[i] in TRANSITION_RULES;
    }
  }

  ghost predicate OneRulePerEdge(rules: seq<Rule>) {
    forall i, j :: 0 <= i < j < |rules| ==> rules[i].from != rules[j].from || rules[i].to != rules[j].to
  }

  lemma {:induction false} TargetsAt(rules: seq<Rule>, role: WorkspaceRole, from: TaskStatus, to: TaskStatus)
    requires OneRulePerEdge(rules)
    ensures to in TargetsIn(rules, role, from) <==>
      FindRule(rules, from, to).Some? && role in FindRule(rules, from, to).value.allowedRoles
  {
    if rules != [] {
      TargetsAt(rules[1..], role, from, to);
      FindRuleAt(rules[1..], from, to);
    }
  }

  lemma EdgesAreDistinct()
    ensures OneRulePerEdge(TRANSITION_RULES)
  {
  }

  /** The targets offered to a user are exactly the ones a request may ask for. */
  lemma OfferedIsAllowed(role: WorkspaceRole, from: TaskStatus, to: TaskStatus)
    ensures to in GetAllowedTargetStatuses(role, from) <==> CanTransition(role, from, to)
  {
    EdgesAreDistinct();
    TargetsAt(TRANSITION_RULES, role, from, to);
  }
}
