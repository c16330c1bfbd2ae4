/** The simplified lease lifecycle of the "How it works" page: six draft
    states, six actions, each action reserved to one role. It exists only as
    documentation; the routes use their own status strings. */
module Lifecycle {
  import opened Wrappers
  import opened Domain

  /** The statuses of a draft as the profile page types them. */
  datatype DraftState = Draft | ClientAccepted | ClientRejected | Approved | Canceled | Signed

  /** Before creation there is no draft at all. */
  datatype Phase = NoDraft | At(state: DraftState)

  datatype Action = Create | ClientAccept | ClientReject | AssistantUpdate | AssistantCancel | ManagerApprove

  /** One attempted step: an action and the role of whoever attempts it. */
  datatype Move = Move(action: Action, actor: Role)

  /** The single role allowed to perform each action (the roles list). */
  function Performer(a: Action): (r: Role)
    ensures r != Owner && r != Supervisor
  {
    match a
    case Create => Assistant
    case ClientAccept => Client
    case ClientReject => Client
    case AssistantUpdate => Assistant
    case AssistantCancel => Assistant
    case ManagerApprove => Manager
  }

  predicate Terminal(p: Phase) {
    p == At(Canceled) || p == At(Signed)
  }

  /** The documented transition table; None when the action is not allowed in
      that phase. Manager approval passes through `approved` and settles in
      `signed` in the same step. */
  function Allowed(p: Phase, a: Action): Option<Phase> {
    match (p, a)
    case (NoDraft, Create) => Some(At(Draft))
    case (At(Draft), ClientAccept) => Some(At(ClientAccepted))
    case (At(Draft), ClientReject) => Some(At(ClientRejected))
    case (At(ClientRejected), AssistantUpdate) => Some(At(Draft))
    case (At(Draft), AssistantCancel) => Some(At(Canceled))
    case (At(ClientAccepted), AssistantCancel) => Some(At(Canceled))
    case (At(ClientRejected), AssistantCancel) => Some(At(Canceled))
    case (At(ClientAccepted), ManagerApprove) => Some(At(Signed))
    case _ => None
  }

  /** A step: the table, gated by the performer's role. */
  function Step(p: Phase, m: Move): (r: Option<Phase>)
    ensures r.Some? ==> m.actor == Performer(m.action)
    ensures r.Some? ==> !Terminal(p) && r.value != NoDraft && r.value != At(DraftState.Approved)
    ensures r.Some? && m.action == Create ==> p == NoDraft && r.value == At(Draft)
    ensures r.Some? && r.value == At(Signed) ==> p == At(ClientAccepted) && m.action == ManagerApprove
    ensures r.Some? && r.value == At(Canceled) ==> m.action == AssistantCancel
  {
    if m.actor != Performer(m.action) then None else Allowed(p, m.action)
  }

  /** Side effects of a step: approval creates the final lease and rents the
      property; no other action has any. */
  datatype Effects = Effects(leaseCreated: bool, propertyRented: bool)

  function EffectsOf(a: Action): (e: Effects)
    ensures e.leaseCreated <==> a == ManagerApprove
    ensures e.propertyRented <==> a == ManagerApprove
  {
    if a == ManagerApprove then Effects(true, true) else Effects(false, false)
  }

  /** The documented table in full, as one statement per listed transition. */
  lemma TableAsDocumented()
    ensures Step(NoDraft, Move(Create, Assistant)) == Some(At(Draft))
    ensures Step(At(Draft), Move(ClientAccept, Client)) == Some(At(ClientAccepted))
    ensures Step(At(Draft), Move(ClientReject, Client)) == Some(At(ClientRejected))
    ensures Step(At(ClientRejected), Move(AssistantUpdate, Assistant)) == Some(At(Draft))
    ensures forall s :: s in {Draft, ClientAccepted, ClientRejected} ==>
      Step(At(s), Move(AssistantCancel, Assistant)) == Some(At(Canceled))
    ensures Step(At(ClientAccepted), Move(ManagerApprove, Manager)) == Some(At(Signed))
  {
  }

  /** Approval is possible only from `client_accepted`: the one source phase
      of a manager step. */
  lemma ApproveOnlyFromAccepted(p: Phase, actor: Role)
    ensures Step(p, Move(ManagerApprove, actor)).Some? <==> p == At(ClientAccepted) && actor == Manager
  {
  }

  /** Owners and supervisors can perform no step at all. */
  lemma OwnersAndSupervisorsInert(p: Phase, a: Action)
    ensures Step(p, Move(a, Owner)).None? && Step(p, Move(a, Supervisor)).None?
  {
  }

  /** Replaying moves; None as soon as one is not allowed. */
  function Run(p: Phase, moves: seq<Move>): Option<Phase>
    decreases |moves|
  {
    if |moves| == 0 then Some(p)
    else match Step(p, moves[0])
      case None => None
      case Some(q) => Run(q, moves[1..])
  }

  /** Terminal phases admit no further move. */
  lemma {:induction false} TerminalIsFinal(p: Phase, moves: seq<Move>)
    requires Terminal(p) && |moves| > 0
    ensures Run(p, moves).None?
  {
  }

  /** `approved` is never observed: no run from any reachable phase ends there. */
  lemma {:induction false} ApprovedNeverReached(p: Phase, moves: seq<Move>)
    requires p != At(DraftState.Approved)
    ensures Run(p, moves) != Some(At(DraftState.Approved))
    decreases |moves|
  {
    if |moves| > 0 {
      var q := Step(p, moves[0]);
      if q.Some? {
        ApprovedNeverReached(q.value, moves[1..]);
      }
    }
  }

  /** The number of final leases a sequence of moves creates. */
  function LeasesCreated(moves: seq<Move>): nat
    decreases |moves|
  {
    if |moves| == 0 then 0
    else (if EffectsOf(moves[0].action).leaseCreated then 1 else 0) + LeasesCreated(moves[1..])
  }

  /** The number of times a sequence of moves marks the property rented. */
  function RentalsMade(moves: seq<Move>): nat
    decreases |moves|
  {
    if |moves| == 0 then 0
    else (if EffectsOf(moves[0].action).propertyRented then 1 else 0) + RentalsMade(moves[1..])
  }

  /** A run creates exactly one final lease when it reaches `signed` and none
      otherwise, and rents the property exactly as often: finalization happens
      at most once per draft. */
  lemma {:induction false} OneLeasePerSignedRun(p: Phase, moves: seq<Move>)
    requires p != At(Signed) && Run(p, moves).Some?
    ensures LeasesCreated(moves) == if Run(p, moves) == Some(At(Signed)) then 1 else 0
    ensures RentalsMade(moves) == LeasesCreated(moves)
    decreases |moves|
  {
    if |moves| > 0 {
      var q := Step(p, moves[0]).value;
      if q == At(Signed) {
        if |moves[1..]| > 0 {
          TerminalIsFinal(q, moves[1..]);
        }
      } else {
        OneLeasePerSignedRun(q, moves[1..]);
      }
    }
  }

  predicate HasMove(moves: seq<Move>, m: Move) {
    exists i :: 0 <= i < |moves| && moves[i] == m
  }

  predicate AcceptedOrSigned(p: Phase) {
    p == At(ClientAccepted) || p == At(Signed)
  }

  /** A run that gets a draft past the client's decision contains the client's
      acceptance. */
  lemma {:induction false} AcceptancePrecedes(p: Phase, moves: seq<Move>)
    requires !AcceptedOrSigned(p) && Run(p, moves).Some? && AcceptedOrSigned(Run(p, moves).value)
    ensures HasMove(moves, Move(ClientAccept, Client))
    decreases |moves|
  {
    var q := Step(p, moves[0]).value;
    if AcceptedOrSigned(q) {
      assert moves[0] == Move(ClientAccept, Client);
    } else {
      AcceptancePrecedes(q, moves[1..]);
      var i :| 0 <= i < |moves[1..]| && moves[1..][i] == Move(ClientAccept, Client);
      assert moves[i + 1] == Move(ClientAccept, Client);
    }
  }

  /** From creation, a signed draft was accepted by the client and approved by
      a manager, and exactly once approved. */
  lemma SignedNeedsClientAndManager(moves: seq<Move>)
    requires Run(NoDraft, moves) == Some(At(Signed))
    ensures HasMove(moves, Move(ClientAccept, Client))
    ensures HasMove(moves, Move(ManagerApprove, Manager))
    ensures LeasesCreated(moves) == 1
  {
    AcceptancePrecedes(NoDraft, moves);
    OneLeasePerSignedRun(NoDraft, moves);
    RunIsRoleGated(NoDraft, moves);
    ApproverIsManager(moves);
  }

  /** Every move of an accepted run was made by the role the action belongs to. */
  lemma {:induction false} RunIsRoleGated(p: Phase, moves: seq<Move>)
    requires Run(p, moves).Some?
    ensures forall i :: 0 <= i < |moves| ==> moves[i].actor == Performer(moves[i].action)
    decreases |moves|
  {
    if |moves| > 0 {
      RunIsRoleGated(Step(p, moves[0]).value, moves[1..]);
      assert forall i :: 1 <= i < |moves| ==> moves[i] == moves[1..][i - 1];
    }
  }

  lemma {:induction false} ApproverIsManager(moves: seq<Move>)
    requires LeasesCreated(moves) > 0
    requires forall i :: 0 <= i < |moves| && moves[i].action == ManagerApprove ==> moves[i].actor == Manager
    ensures HasMove(moves, Move(ManagerApprove, Manager))
    decreases |moves|
  {
    if moves[0].action == ManagerApprove {
      assert moves[0] == Move(ManagerApprove, Manager);
    } else {
      ApproverIsManager(moves[1..]);
      var i :| 0 <= i < |moves[1..]| && moves[1..][i] == Move(ManagerApprove, Manager);
      assert moves[i + 1] == Move(ManagerApprove, Manager);
    }
  }
}
