/** What roles and memberships say about the steps that came before, over every run. */
module MemberHistory {
  import opened Wrappers
  import opened Membership

  predicate Accepted(s: State, step: Step) {
    Do(s, step).error.None?
  }

  /* ---------------------------------------------------------------------- */
  /* Global roles                                                           */
  /* ---------------------------------------------------------------------- */

  /** The rank of the role that an accepted step gives to a user; 0 is the rank of a customer. */
  function RankGiven(s: State, step: Step, u: UserId): nat {
    if !Accepted(s, step) then 0
    else
      match step
      case SignUp(userId, role) => if userId == u then Rank(role) else 0
      case RegisterOrganization(userId, _, _) => if userId == u then Rank(Manager) else 0
      case Add(_, _, input, _) => if input.person.userId == u then MemberRank(input.role) else 0
      case Update(_, id, input, _) =>
        if id in s.members && s.members[id].userId == u && input.role.Some? then MemberRank(input.role.value) else 0
      case _ => 0
  }

  function HighestGiven(s: State, steps: seq<Step>, u: UserId): nat
    decreases |steps|
  {
    if steps == [] then 0
    else Max(RankGiven(s, steps[0], u), HighestGiven(Do(s, steps[0]).state, steps[1..], u))
  }

  function Max(a: nat, b: nat): nat {
    if a < b then b else a
  }

  function RankOf(s: State, u: UserId): nat {
    if u in s.users then Rank(s.users[u]) else 0
  }

  lemma RankStep(s: State, step: Step, u: UserId)
    requires Dominated(s)
    ensures RankOf(Do(s, step).state, u) == Max(RankOf(s, u), RankGiven(s, step, u))
  {
    hide ActiveManagers, Duplicate, LosesManager, BranchError, IsActiveManager;
    if step.Update? && step.memberId in s.members {
      assert s.members[step.memberId].userId in s.users;
    }
  }

  lemma {:induction false} RanksFrom(s: State, steps: seq<Step>, u: UserId)
    requires Dominated(s)
    ensures RankOf(Run(s, steps), u) == Max(RankOf(s, u), HighestGiven(s, steps, u))
    decreases |steps|
  {
    hide Do, Dominated, RankOf, RankGiven;
    if steps == [] {
    } else {
      DoKeepsRoles(s, steps[0]);
      RankStep(s, steps[0], u);
      RanksFrom(Do(s, steps[0]).state, steps[1..], u);
    }
  }

  /** A user's global role is the highest that sign-up, registration or a membership ever gave, and no higher. */
  lemma RoleIsHighestGiven(steps: seq<Step>, u: UserId)
    requires u in Run(START, steps).users
    ensures Rank(Run(START, steps).users[u]) == HighestGiven(START, steps, u)
  {
    hide Run, HighestGiven;
    RanksFrom(START, steps, u);
  }

  lemma {:induction false} OnlySignUpGivesThree(s: State, steps: seq<Step>, u: UserId)
    requires HighestGiven(s, steps, u) == 3
    ensures SignUp(u, Administrator) in steps
    decreases |steps|
  {
    hide Do;
    if steps == [] {
    } else if RankGiven(s, steps[0], u) == 3 {
      assert steps[0] == SignUp(u, Administrator);
    } else {
      OnlySignUpGivesThree(Do(s, steps[0]).state, steps[1..], u);
    }
  }

  /** Nobody becomes an administrator through a membership. */
  lemma AdministratorsSignedUp(steps: seq<Step>, u: UserId)
    requires u in Run(START, steps).users && Run(START, steps).users[u].Administrator?
    ensures SignUp(u, Administrator) in steps
  {
    hide Run, HighestGiven;
    RoleIsHighestGiven(steps, u);
    OnlySignUpGivesThree(START, steps, u);
  }

  /* ---------------------------------------------------------------------- */
  /* Memberships                                                            */
  /* ---------------------------------------------------------------------- */

  /** What a run has written to a member row: whose it is, and the last value of each column. */
  datatype Columns = Columns(
    owner: Option<(UserId, OrganizationId)>,
    role: Option<MemberRole>,
    status: Option<MemberStatus>,
    branchId: Option<Option<BranchId>>,
    counterId: Option<Option<CounterId>>)

  const NOTHING: Columns := Columns(None, None, None, None, None)

  /** The columns that an accepted step gives a value to. */
  function ColumnsGiven(s: State, step: Step, id: MemberId): Columns {
    if !Accepted(s, step) then NOTHING
    else
      match step
      case RegisterOrganization(userId, o, memberId) =>
        if memberId != id then NOTHING
        else Columns(Some((userId, o)), Some(ManagerMember), Some(Active), Some(None), Some(None))
      case Add(o, memberId, input, _) =>
        if memberId != id then NOTHING
        else Columns(Some((input.person.userId, o)), Some(input.role), Some(Active), Some(input.branchId),
                     Some(input.counterId))
      case Update(_, memberId, input, _) =>
        if memberId != id then NOTHING
        else Columns(None, input.role, input.status, input.branchId, input.counterId)
      case _ => NOTHING
  }

  function Later<T>(earlier: Option<T>, later: Option<T>): Option<T> {
    if later.Some? then later else earlier
  }

  function Then(a: Columns, b: Columns): Columns {
    Columns(Later(a.owner, b.owner), Later(a.role, b.role), Later(a.status, b.status), Later(a.branchId, b.branchId),
            Later(a.counterId, b.counterId))
  }

  function LastGiven(s: State, steps: seq<Step>, id: MemberId): Columns
    decreases |steps|
  {
    if steps == [] then NOTHING
    else Then(ColumnsGiven(s, steps[0], id), LastGiven(Do(s, steps[0]).state, steps[1..], id))
  }

  function ColumnsOf(s: State, id: MemberId): Columns {
    if id in s.members then
      var m := s.members[id];
      Columns(Some((m.userId, m.organizationId)), Some(m.role), Some(m.status), Some(m.branchId), Some(m.counterId))
    else NOTHING
  }

  /** The row is there and holds the columns. */
  predicate Shows(s: State, id: MemberId, columns: Columns) {
    id in s.members ==> ColumnsOf(s, id) == columns
  }

  lemma ColumnsStep(s: State, step: Step, id: MemberId, columns: Columns)
    requires Shows(s, id, columns)
    ensures Shows(Do(s, step).state, id, Then(columns, ColumnsGiven(s, step, id)))
  {
    hide ActiveManagers, Duplicate, LosesManager, BranchError, IsActiveManager, PromotedRole;
  }

  lemma ThenAssociative(a: Columns, b: Columns, c: Columns)
    ensures Then(Then(a, b), c) == Then(a, Then(b, c)) && Then(a, NOTHING) == a == Then(NOTHING, a)
  {
  }

  lemma {:induction false} ColumnsFrom(s: State, steps: seq<Step>, id: MemberId, columns: Columns)
    requires Shows(s, id, columns)
    ensures Shows(Run(s, steps), id, Then(columns, LastGiven(s, steps, id)))
    decreases |steps|
  {
    hide Do, Shows, ColumnsGiven, Then;
    ThenAssociative(columns, NOTHING, NOTHING);
    if steps == [] {
    } else {
      var given, next := ColumnsGiven(s, steps[0], id), Do(s, steps[0]).state;
      ColumnsStep(s, steps[0], id, columns);
      ColumnsFrom(next, steps[1..], id, Then(columns, given));
      ThenAssociative(columns, given, LastGiven(next, steps[1..], id));
    }
  }

  /**
   Each column of a membership has the last value that the steps of the run gave it: role, branch and counter from the
   addition or the last update that names them, the status active unless an update says otherwise, the owner for good.
   */
  lemma MembershipIsLastGiven(steps: seq<Step>, id: MemberId)
    requires id in Run(START, steps).members
    ensures ColumnsOf(Run(START, steps), id) == LastGiven(START, steps, id)
  {
    hide Run, LastGiven;
    ColumnsFrom(START, steps, id, NOTHING);
    ThenAssociative(LastGiven(START, steps, id), NOTHING, NOTHING);
  }

  /** The membership exists exactly when an accepted step created it and none has removed it since. */
  lemma ExistsStep(s: State, step: Step, id: MemberId)
    ensures id in Do(s, step).state.members
            <==> if Accepted(s, step) && step.Remove? && step.memberId == id then false
                 else id in s.members || ColumnsGiven(s, step, id).owner.Some?
  {
    hide ActiveManagers, Duplicate, LosesManager, BranchError, IsActiveManager, PromotedRole;
  }

  /** Organizations come from being created or registered, and stay. */
  lemma OrganizationStep(s: State, step: Step, o: OrganizationId)
    ensures o in Do(s, step).state.organizations
            <==> || o in s.organizations || step == CreateOrganization(o)
                 || (step.RegisterOrganization? && step.organizationId == o && step.userId !in s.users
                     && step.memberId !in s.members)
  {
    hide ActiveManagers, Duplicate, LosesManager, BranchError, IsActiveManager, PromotedRole;
  }

  /** Exactly which additions are accepted. */
  lemma AddAcceptedIff(s: State, o: OrganizationId, id: MemberId, input: AddInput, checks: Checks)
    ensures Accepted(s, Add(o, id, input, checks))
            <==> && o in s.organizations && checks.planAllows
                 && (input.branchId.Some? ==> checks.branchBelongs)
                 && (input.counterId.Some? ==> checks.counterBelongs)
                 && (match input.person
                     case Existing(u) => u in s.users
                     case NewAccount(u, emailTaken) => u !in s.users && !emailTaken)
                 && id !in s.members
                 && forall other :: other in s.members ==>
                      !(s.members[other].userId == input.person.userId && s.members[other].organizationId == o
                        && s.members[other].branchId == input.branchId)
  {
  }

  /** Which error a refused addition gives: the first of its requirements that is not met. */
  lemma AddErrors(s: State, o: OrganizationId, id: MemberId, input: AddInput, checks: Checks)
    requires !Accepted(s, Add(o, id, input, checks))
    ensures var belongs := (input.branchId.Some? ==> checks.branchBelongs)
                           && (input.counterId.Some? ==> checks.counterBelongs);
            var unknown := input.person.Existing? && input.person.userId !in s.users;
            match Do(s, Add(o, id, input, checks)).error.value
            case NotFound => o !in s.organizations || (checks.planAllows && belongs && unknown)
            case PlanGate => o in s.organizations && !checks.planAllows
            case BadBranch =>
              o in s.organizations && checks.planAllows && input.branchId.Some? && !checks.branchBelongs
            case BadCounter =>
              && o in s.organizations && checks.planAllows && (input.branchId.Some? ==> checks.branchBelongs)
              && input.counterId.Some? && !checks.counterBelongs
            case UniqueViolation => o in s.organizations && checks.planAllows && belongs && !unknown
            case Conflict => false
  {
  }

  /* ---------------------------------------------------------------------- */
  /* The guard of the last manager                                          */
  /* ---------------------------------------------------------------------- */

  /** The write would leave an organization that has an active manager without one. */
  predicate LeavesNone(s: State, id: MemberId, write: Option<UpdateInput>, o: OrganizationId)
    requires id in s.members
  {
    ActiveManagers(s.members, o) != {} && ActiveManagers(LateWrite(s, id, write).members, o) == {}
  }

  lemma OnlyManager<K>(s: set<K>, k: K)
    requires k in s
    ensures |s| <= 1 <==> s - {k} == {}
  {
    assert |s - {k}| == |s| - 1;
  }

  /** The guard refuses exactly the updates and removals that would take the last active manager away. */
  lemma ConflictIff(s: State, o: OrganizationId, id: MemberId, input: UpdateInput, checks: Checks)
    requires id in s.members && s.members[id].organizationId == o
    ensures Do(s, Remove(o, id)).error == (if LeavesNone(s, id, None, o) then Some(Conflict) else None)
    ensures var u := Updated(s.members[id], input);
            (u.branchId.Some? ==> checks.branchBelongs) && (u.counterId.Some? ==> checks.counterBelongs) ==>
              (Do(s, Update(o, id, input, checks)).error == Some(Conflict) <==> LeavesNone(s, id, Some(input), o))
  {
    var managers := ActiveManagers(s.members, o);
    assert ActiveManagers(LateWrite(s, id, None).members, o) == managers - {id};
    var after := ActiveManagers(LateWrite(s, id, Some(input)).members, o);
    assert after - {id} == managers - {id};
    assert id in managers && !LosesManager(s.members[id], input) ==> id in after;
    if id in managers {
      OnlyManager(managers, id);
    }
  }

  /** Exactly which updates are accepted. */
  lemma UpdateAcceptedIff(s: State, o: OrganizationId, id: MemberId, input: UpdateInput, checks: Checks)
    ensures Accepted(s, Update(o, id, input, checks))
            <==> && id in s.members && s.members[id].organizationId == o
                 && var u := Updated(s.members[id], input);
                    && (u.branchId.Some? ==> checks.branchBelongs) && (u.counterId.Some? ==> checks.counterBelongs)
                    && !LeavesNone(s, id, Some(input), o)
                    && forall other :: other in s.members && other != id ==>
                         !(s.members[other].userId == u.userId && s.members[other].organizationId == o
                           && s.members[other].branchId == u.branchId)
  {
    hide ActiveManagers;
    if id in s.members && s.members[id].organizationId == o {
      ConflictIff(s, o, id, input, checks);
      hide LeavesNone;
    }
  }
}
