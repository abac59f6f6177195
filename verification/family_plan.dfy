/** The family-plan invitation rules of `accounts/views.py`: an owner with premium access may
    invite while accepted members plus pending invitations stay under three, and an invitee
    joins (from the acceptance link or at sign-up) only while the family has fewer than three
    members. One family and its invitations are modelled; invitation tokens are unique. */
module FamilyPlan {
  import opened Wrappers
  import opened AlertSweep

  const FamilyPlanLimit: nat := 3

  datatype Invitation = Invitation(token: nat, email: string, accepted: bool)

  /** A family with the invitations it has sent. */
  datatype Household = Household(family: Family, invitations: seq<Invitation>)

  function PendingCount(invs: seq<Invitation>): (r: nat)
    ensures r <= |invs|
  {
    if |invs| == 0 then 0
    else (if invs[0].accepted then 0 else 1) + PendingCount(invs[1..])
  }

  /** Sending one more invitation adds one pending invitation. */
  lemma {:induction false} PendingAppend(invs: seq<Invitation>, inv: Invitation)
    ensures PendingCount(invs + [inv]) == PendingCount(invs) + (if inv.accepted then 0 else 1)
  {
    if |invs| > 0 {
      assert (invs + [inv])[1..] == invs[1..] + [inv];
      PendingAppend(invs[1..], inv);
    }
  }

  /** Accepting a pending invitation removes exactly one pending invitation. */
  lemma {:induction false} PendingAccept(invs: seq<Invitation>, k: nat)
    requires k < |invs| && !invs[k].accepted
    ensures PendingCount(invs[k := invs[k].(accepted := true)]) == PendingCount(invs) - 1
  {
    var after := invs[k := invs[k].(accepted := true)];
    if k > 0 {
      assert after[1..] == invs[1..][k - 1 := invs[k].(accepted := true)];
      PendingAccept(invs[1..], k - 1);
    } else {
      assert after[1..] == invs[1..];
    }
  }

  /** Accepted members plus pending invitations. */
  function SlotsUsed(h: Household): nat
  {
    |h.family.members| + PendingCount(h.invitations)
  }

  /** Whether the settings page lets the user send an invitation. */
  predicate CanInviteMore(premium: bool, h: Household)
  {
    premium && SlotsUsed(h) < FamilyPlanLimit
  }

  predicate IsMemberEmail(h: Household, emailOf: map<nat, string>, email: string)
  {
    exists u :: u in h.family.members && u in emailOf && emailOf[u] == email
  }

  predicate HasPendingFor(invs: seq<Invitation>, email: string)
  {
    exists i :: 0 <= i < |invs| && !invs[i].accepted && invs[i].email == email
  }

  /** No two pending invitations of a family go to the same address. */
  predicate PendingDistinct(invs: seq<Invitation>)
  {
    forall i, j ::
      0 <= i < |invs| && 0 <= j < |invs| && !invs[i].accepted && !invs[j].accepted && invs[i].email == invs[j].email ==>
      i == j
  }

  // ---------------------------------------------------------------------------------------
  // Sending an invitation

  datatype InviteOutcome = NotEligible | InvalidEmail | AlreadyMember | AlreadyPending | Invited

  datatype InviteResult = InviteResult(household: Household, outcome: InviteOutcome)

  /** The send-invitation branch. `email` is `None` when the form does not validate; `emailOf`
      gives each user's address; `token` is the fresh token of the new invitation. The
      invitation row is created before the email is sent, so a failing mail server does not
      undo it. */
  function Invite(h: Household, premium: bool, email: Option<string>, emailOf: map<nat, string>, token: nat): (r: InviteResult)
    requires forall i :: 0 <= i < |h.invitations| ==> h.invitations[i].token != token
    ensures r.outcome == Invited <==>
      && CanInviteMore(premium, h) && email.Some?
      && !IsMemberEmail(h, emailOf, email.value) && !HasPendingFor(h.invitations, email.value)
    ensures !CanInviteMore(premium, h) ==> r.outcome == NotEligible
    ensures r.outcome != Invited ==> r.household == h
    ensures r.outcome == Invited ==>
      && r.household.family == h.family
      && r.household.invitations == h.invitations + [Invitation(token, email.value, false)]
      && SlotsUsed(r.household) == SlotsUsed(h) + 1
    ensures SlotsUsed(h) <= FamilyPlanLimit ==> SlotsUsed(r.household) <= FamilyPlanLimit
    ensures PendingDistinct(h.invitations) ==> PendingDistinct(r.household.invitations)
  {
    if !CanInviteMore(premium, h) then InviteResult(h, NotEligible)
    else if email.None? then InviteResult(h, InvalidEmail)
    else if IsMemberEmail(h, emailOf, email.value) then InviteResult(h, AlreadyMember)
    else if HasPendingFor(h.invitations, email.value) then InviteResult(h, AlreadyPending)
    else
      var inv := Invitation(token, email.value, false);
      PendingAppend(h.invitations, inv);
      var invs := h.invitations + [inv];
      assert forall i :: 0 <= i < |h.invitations| ==> invs[i] == h.invitations[i];
      InviteResult(Household(h.family, invs), Invited)
  }

  // ---------------------------------------------------------------------------------------
  // Joining

  /** Index of the pending invitation carrying `token`. */
  function FindPending(invs: seq<Invitation>, token: nat): (r: Option<nat>)
    ensures r.None? <==> forall i :: 0 <= i < |invs| ==> !(invs[i].token == token && !invs[i].accepted)
    ensures r.Some? ==> r.value < |invs| && invs[r.value].token == token && !invs[r.value].accepted
  {
    if |invs| == 0 then None
    else if invs[0].token == token && !invs[0].accepted then Some(0)
    else
      var rest := FindPending(invs[1..], token);
      assert forall i :: 0 < i < |invs| ==> invs[i] == invs[1..][i - 1];
      if rest.None? then None else Some(rest.value + 1)
  }

  /** The shared success step: the user becomes a member and the invitation is accepted. */
  function Join(h: Household, k: nat, user: nat): (r: Household)
    requires k < |h.invitations|
    ensures r.family.owner == h.family.owner && r.family.members == h.family.members + {user}
    ensures |r.invitations| == |h.invitations| && r.invitations[k].accepted
    ensures forall i :: 0 <= i < |h.invitations| && i != k ==> r.invitations[i] == h.invitations[i]
  {
    Household(Family(h.family.owner, h.family.members + {user}),
              h.invitations[k := h.invitations[k].(accepted := true)])
  }

  datatype Viewer = Viewer(id: nat, email: string)

  datatype AcceptOutcome = InvalidLink | SignUpFirst | WrongEmail | FamilyFull | Joined

  /** `session` is the invitation token kept in the session between the link and sign-up. */
  datatype AcceptResult = AcceptResult(household: Household, session: Option<nat>, outcome: AcceptOutcome)

  /** The acceptance link. A visitor who is not logged in has the token stored and is sent to
      sign up; a logged-in user must have the invited address, and joins only while the family
      has fewer than three members. */
  function AcceptInvitation(h: Household, session: Option<nat>, token: nat, viewer: Option<Viewer>): (r: AcceptResult)
    ensures r.outcome == Joined <==>
      && FindPending(h.invitations, token).Some? && viewer.Some?
      && viewer.value.email == h.invitations[FindPending(h.invitations, token).value].email
      && |h.family.members| < FamilyPlanLimit
    ensures r.outcome == SignUpFirst <==> FindPending(h.invitations, token).Some? && viewer.None?
    ensures r.outcome == SignUpFirst ==> r.session == Some(token)
    ensures r.outcome != SignUpFirst ==> r.session == session
    ensures r.outcome != Joined ==> r.household == h
    ensures r.outcome == Joined ==>
      && r.household == Join(h, FindPending(h.invitations, token).value, viewer.value.id)
      && viewer.value.id in r.household.family.members
  {
    match FindPending(h.invitations, token)
    case None => AcceptResult(h, session, InvalidLink)
    case Some(k) =>
      if viewer.None? then AcceptResult(h, Some(token), SignUpFirst)
      else if viewer.value.email != h.invitations[k].email then AcceptResult(h, session, WrongEmail)
      else if |h.family.members| >= FamilyPlanLimit then AcceptResult(h, session, FamilyFull)
      else AcceptResult(Join(h, k, viewer.value.id), session, Joined)
  }

  datatype SignUpOutcome = NoInvitation | StaleToken | JoinedAtSignUp | FullAtSignUp

  datatype SignUpResult = SignUpResult(household: Household, session: Option<nat>, outcome: SignUpOutcome)

  /** The invitation step of sign-up. The new user joins when the stored token names a pending
      invitation and the family has fewer than three members; the address is not compared. The
      token is dropped from the session after the lookup succeeds, full or not, and kept when
      the lookup fails. */
  function SignUpJoin(h: Household, session: Option<nat>, newUser: nat): (r: SignUpResult)
    ensures session.None? <==> r.outcome == NoInvitation
    ensures r.outcome == JoinedAtSignUp <==>
      session.Some? && FindPending(h.invitations, session.value).Some? && |h.family.members| < FamilyPlanLimit
    ensures r.outcome == StaleToken <==> session.Some? && FindPending(h.invitations, session.value).None?
    ensures r.outcome != JoinedAtSignUp ==> r.household == h
    ensures r.outcome == JoinedAtSignUp ==> r.household == Join(h, FindPending(h.invitations, session.value).value, newUser)
    ensures r.session == if r.outcome in {NoInvitation, StaleToken} then session else None
  {
    if session.None? then SignUpResult(h, session, NoInvitation)
    else
      match FindPending(h.invitations, session.value)
      case None => SignUpResult(h, session, StaleToken)
      case Some(k) =>
        if |h.family.members| < FamilyPlanLimit then SignUpResult(Join(h, k, newUser), None, JoinedAtSignUp)
        else SignUpResult(h, None, FullAtSignUp)
  }

  // ---------------------------------------------------------------------------------------
  // Capacity invariant

  /** What every step keeps: at most three members, at most three slots in use, and no two
      pending invitations to one address. */
  predicate WithinPlan(h: Household)
  {
    |h.family.members| <= FamilyPlanLimit && SlotsUsed(h) <= FamilyPlanLimit && PendingDistinct(h.invitations)
  }

  /** Joining through a pending invitation does not use more slots than before. */
  lemma {:induction false} JoinKeepsSlots(h: Household, k: nat, user: nat)
    requires k < |h.invitations| && !h.invitations[k].accepted
    ensures SlotsUsed(Join(h, k, user)) <= SlotsUsed(h)
    ensures PendingDistinct(h.invitations) ==> PendingDistinct(Join(h, k, user).invitations)
  {
    PendingAccept(h.invitations, k);
    var r := Join(h, k, user);
    assert |r.family.members| <= |h.family.members| + 1;
  }

  lemma AcceptKeepsPlan(h: Household, session: Option<nat>, token: nat, viewer: Option<Viewer>)
    requires WithinPlan(h)
    ensures WithinPlan(AcceptInvitation(h, session, token, viewer).household)
  {
    var k := FindPending(h.invitations, token);
    if k.Some? && viewer.Some? {
      JoinKeepsSlots(h, k.value, viewer.value.id);
    }
  }

  lemma SignUpKeepsPlan(h: Household, session: Option<nat>, newUser: nat)
    requires WithinPlan(h)
    ensures WithinPlan(SignUpJoin(h, session, newUser).household)
  {
    if session.Some? {
      var k := FindPending(h.invitations, session.value);
      if k.Some? {
        JoinKeepsSlots(h, k.value, newUser);
      }
    }
  }
}
