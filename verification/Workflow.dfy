// The four state machines of backend/internal/constants/status.go.
module Workflow {

  datatype Kind = Bridge | Inspection | Defect | Priority

  // A status text. Every text the code names has its own constructor; any other text is Unlisted.
  datatype Status =
    | Active | Restricted | Closed | Retired
    | Planned | Running | InReview | Completed
    | New | Verified | Monitoring | Mitigated
    | Draft | Observe | Restrict | Urgent
    | Unlisted(text: string)

  // The targets each graph allows from a status; a status the graph does not name allows none.
  function BridgeAssetTargets(source: Status): set<Status> {
    match source
    case Active => {Restricted, Closed}
    case Restricted => {Closed, Retired, Active}
    case Closed => {Retired, Restricted}
    case Retired => {Closed}
    case _ => {}
  }

  function InspectionRoundTargets(source: Status): set<Status> {
    match source
    case Planned => {Running, InReview}
    case Running => {InReview, Completed, Planned}
    case InReview => {Completed, Running}
    case Completed => {InReview}
    case _ => {}
  }

  function DefectFindingTargets(source: Status): set<Status> {
    match source
    case New => {Verified, Monitoring}
    case Verified => {Monitoring, Mitigated, New}
    case Monitoring => {Mitigated, Closed, Verified}
    case Mitigated => {Closed, Monitoring}
    case Closed => {Mitigated}
    case _ => {}
  }

  function PriorityDecisionTargets(source: Status): set<Status> {
    match source
    case Draft => {Observe, Restrict, Urgent}
    case _ => {}
  }

  predicate CanTransition(kind: Kind, source: Status, target: Status) {
    match kind
    case Bridge => target in BridgeAssetTargets(source)
    case Inspection => target in InspectionRoundTargets(source)
    case Defect => target in DefectFindingTargets(source)
    case Priority => target in PriorityDecisionTargets(source)
  }

  function InitialStatus(kind: Kind): Status {
    match kind
    case Bridge => Active
    case Inspection => Planned
    case Defect => New
    case Priority => Draft
  }

  // The order in which the statuses of a kind are listed for display.
  function Listed(kind: Kind): seq<Status> {
    match kind
    case Bridge => [Active, Restricted, Closed, Retired]
    case Inspection => [Planned, Running, InReview, Completed]
    case Defect => [New, Verified, Monitoring, Mitigated, Closed]
    case Priority => [Draft, Observe, Restrict, Urgent]
  }

  predicate IsListed(kind: Kind, status: Status) {
    match kind
    case Bridge => status.Active? || status.Restricted? || status.Closed? || status.Retired?
    case Inspection => status.Planned? || status.Running? || status.InReview? || status.Completed?
    case Defect => status.New? || status.Verified? || status.Monitoring? || status.Mitigated? || status.Closed?
    case Priority => status.Draft? || status.Observe? || status.Restrict? || status.Urgent?
  }

  // Position of a status in the listed order.
  function Rank(kind: Kind, status: Status): nat
    requires IsListed(kind, status)
  {
    match status
    case Active => 0 case Restricted => 1 case Retired => 3
    case Closed => if kind == Bridge then 2 else 4
    case Planned => 0 case Running => 1 case InReview => 2 case Completed => 3
    case New => 0 case Verified => 1 case Monitoring => 2 case Mitigated => 3
    case Draft => 0 case Observe => 1 case Restrict => 2 case Urgent => 3
  }

  lemma RankIsPosition(kind: Kind, status: Status)
    ensures IsListed(kind, status) <==> status in Listed(kind)
    ensures IsListed(kind, status) ==> Rank(kind, status) < |Listed(kind)| && Listed(kind)[Rank(kind, status)] == status
  {
  }

  // The three cyclic graphs are one law: an edge moves one or two places forward, or one back.
  lemma CyclicEdges(kind: Kind, source: Status, target: Status)
    requires !kind.Priority?
    ensures CanTransition(kind, source, target)
       <==> IsListed(kind, source) && IsListed(kind, target)
            && Rank(kind, target) - Rank(kind, source) in {1, 2, -1}
  {
  }

  // The position of a status, by which the law does not depend on how Rank is defined.
  predicate At(kind: Kind, i: int, status: Status) {
    0 <= i < |Listed(kind)| && Listed(kind)[i] == status
  }

  lemma OnlyPosition(kind: Kind, i: int, status: Status)
    ensures At(kind, i, status) <==> IsListed(kind, status) && i == Rank(kind, status)
  {
    RankIsPosition(kind, status);
  }

  // The law over the lists as they stand.
  lemma EdgesByPosition(kind: Kind, source: Status, target: Status)
    requires !kind.Priority?
    ensures CanTransition(kind, source, target)
       <==> exists i, j :: At(kind, i, source) && At(kind, j, target) && j - i in {1, 2, -1}
  {
    CyclicEdges(kind, source, target);
    forall i, j | At(kind, i, source) && At(kind, j, target)
      ensures i == Rank(kind, source) && j == Rank(kind, target)
    {
      OnlyPosition(kind, i, source);
      OnlyPosition(kind, j, target);
    }
    if IsListed(kind, source) { OnlyPosition(kind, Rank(kind, source), source); }
    if IsListed(kind, target) { OnlyPosition(kind, Rank(kind, target), target); }
    OnlyListed(kind, source);
    OnlyListed(kind, target);
  }

  lemma OnlyListed(kind: Kind, status: Status)
    ensures (exists i :: At(kind, i, status)) ==> IsListed(kind, status)
  {
    forall i | At(kind, i, status) ensures IsListed(kind, status) { OnlyPosition(kind, i, status); }
  }

  // A decision leaves draft for one of three statuses and never moves again.
  lemma DecisionEdges(source: Status, target: Status)
    ensures CanTransition(Priority, source, target) <==> source == Draft && target in {Observe, Restrict, Urgent}
  {
  }
}
