/** Organization members (member.service.ts, member.rules.ts); every operation is one atomic step. */
module Membership {
  import opened Wrappers

  type UserId = string
  type OrganizationId = string
  type MemberId = string
  type BranchId = string
  type CounterId = string

  /** The platform-wide role. */
  datatype UserRole = Customer | Staff | Manager | Administrator

  /** The role inside one organization. */
  datatype MemberRole = StaffMember | ManagerMember

  datatype MemberStatus = Active | Invited | Suspended

  datatype Member = Member(
    userId: UserId,
    organizationId: OrganizationId,
    branchId: Option<BranchId>,
    counterId: Option<CounterId>,
    role: MemberRole,
    status: MemberStatus)

  datatype State = State(
    users: map<UserId, UserRole>,
    organizations: set<OrganizationId>,
    members: map<MemberId, Member>)

  const START: State := State(map[], {}, map[])

  datatype Error = NotFound | PlanGate | BadBranch | BadCounter | Conflict | UniqueViolation

  datatype StepResult = StepResult(state: State, error: Option<Error>)

  /* ---------------------------------------------------------------------- */
  /* Rules                                                                  */
  /* ---------------------------------------------------------------------- */

  function PromotedRole(current: UserRole, memberRole: MemberRole): UserRole {
    if current.Administrator? then current
    else if memberRole.ManagerMember? then Manager
    else if current.Customer? then Staff
    else current
  }

  function Rank(role: UserRole): nat {
    match role
    case Customer => 0
    case Staff => 1
    case Manager => 2
    case Administrator => 3
  }

  function MemberRank(role: MemberRole): nat {
    match role
    case StaffMember => 1
    case ManagerMember => 2
  }

  /** The promoted role is the least one that is at least the current role and at least the membership's. */
  lemma PromotedRoleIsLeast(current: UserRole, memberRole: MemberRole, other: UserRole)
    ensures Rank(PromotedRole(current, memberRole)) >= Rank(current)
    ensures Rank(PromotedRole(current, memberRole)) >= MemberRank(memberRole)
    ensures Rank(other) >= Rank(current) && Rank(other) >= MemberRank(memberRole) ==>
              Rank(other) >= Rank(PromotedRole(current, memberRole))
  {
  }

  predicate IsActiveManager(m: Member, o: OrganizationId) {
    m.organizationId == o && m.role.ManagerMember? && m.status.Active?
  }

  function ActiveManagers(members: map<MemberId, Member>, o: OrganizationId): set<MemberId> {
    set id | id in members && IsActiveManager(members[id], o)
  }

  /** The unique indexes on user, organization and branch: one membership per branch, and one for all branches. */
  predicate Duplicate(members: map<MemberId, Member>, id: MemberId, m: Member) {
    exists other :: other in members && other != id && SamePlace(members[other], m)
  }

  predicate SamePlace(m: Member, n: Member) {
    m.userId == n.userId && m.organizationId == n.organizationId && m.branchId == n.branchId
  }

  /* ---------------------------------------------------------------------- */
  /* Steps                                                                  */
  /* ---------------------------------------------------------------------- */

  /** An existing user, or a new account under a fresh id whose e-mail may be taken. */
  datatype Person = Existing(userId: UserId) | NewAccount(userId: UserId, emailTaken: bool)

  datatype AddInput = AddInput(person: Person, role: MemberRole, branchId: Option<BranchId>,
                               counterId: Option<CounterId>)

  /** `None` leaves a column as it is. */
  datatype UpdateInput = UpdateInput(
    role: Option<MemberRole>,
    status: Option<MemberStatus>,
    branchId: Option<Option<BranchId>>,
    counterId: Option<Option<CounterId>>)

  /** What the other tables say: the plan gate, and whether branch and counter belong to the organization. */
  datatype Checks = Checks(planAllows: bool, branchBelongs: bool, counterBelongs: bool)

  function BranchError(branchId: Option<BranchId>, counterId: Option<CounterId>, checks: Checks): Option<Error> {
    if branchId.Some? && !checks.branchBelongs then Some(BadBranch)
    else if counterId.Some? && !checks.counterBelongs then Some(BadCounter)
    else None
  }

  function AddMember(s: State, o: OrganizationId, id: MemberId, input: AddInput, checks: Checks): StepResult {
    var userId := input.person.userId;
    var m := Member(userId, o, input.branchId, input.counterId, input.role, Active);
    if o !in s.organizations then StepResult(s, Some(NotFound))
    else if !checks.planAllows then StepResult(s, Some(PlanGate))
    else if BranchError(input.branchId, input.counterId, checks).Some? then
      StepResult(s, BranchError(input.branchId, input.counterId, checks))
    else if input.person.Existing? && userId !in s.users then StepResult(s, Some(NotFound))
    else if input.person.NewAccount? && (input.person.emailTaken || userId in s.users) then
      StepResult(s, Some(UniqueViolation))
    else if id in s.members || Duplicate(s.members, id, m) then StepResult(s, Some(UniqueViolation))
    else
      var role := match input.person
                  case Existing(_) => PromotedRole(s.users[userId], input.role)
                  case NewAccount(_, _) => if input.role.ManagerMember? then Manager else Staff;
      StepResult(s.(users := s.users[userId := role], members := s.members[id := m]), None)
  }

  predicate LosesManager(m: Member, input: UpdateInput) {
    && m.role.ManagerMember? && m.status.Active?
    && (input.role == Some(StaffMember) || (input.status.Some? && !input.status.value.Active?))
  }

  function Updated(m: Member, input: UpdateInput): Member {
    m.(role := input.role.GetOr(m.role), status := input.status.GetOr(m.status),
       branchId := input.branchId.GetOr(m.branchId), counterId := input.counterId.GetOr(m.counterId))
  }

  function UpdateMember(s: State, o: OrganizationId, id: MemberId, input: UpdateInput, checks: Checks): StepResult {
    if id !in s.members || s.members[id].organizationId != o then StepResult(s, Some(NotFound))
    else
      var m := s.members[id];
      var updated := Updated(m, input);
      if BranchError(updated.branchId, updated.counterId, checks).Some? then
        StepResult(s, BranchError(updated.branchId, updated.counterId, checks))
      else if LosesManager(m, input) && |ActiveManagers(s.members, o)| <= 1 then StepResult(s, Some(Conflict))
      else if Duplicate(s.members, id, updated) then StepResult(s, Some(UniqueViolation))
      else
        var users := if input.role.Some? && m.userId in s.users
                     then s.users[m.userId := PromotedRole(s.users[m.userId], input.role.value)] else s.users;
        StepResult(s.(users := users, members := s.members[id := updated]), None)
  }

  function RemoveMember(s: State, o: OrganizationId, id: MemberId): StepResult {
    if id !in s.members || s.members[id].organizationId != o then StepResult(s, Some(NotFound))
    else if IsActiveManager(s.members[id], o) && |ActiveManagers(s.members, o)| <= 1 then StepResult(s, Some(Conflict))
    else StepResult(s.(members := s.members - {id}), None)
  }

  datatype Step =
    /** A new account without a membership: a customer, or a seeded administrator. */
    | SignUp(userId: UserId, role: UserRole)
    /** A platform administrator creates an organization, which has no members yet. */
    | CreateOrganization(organizationId: OrganizationId)
    /** An owner registers an organization and becomes its first manager. */
    | RegisterOrganization(userId: UserId, organizationId: OrganizationId, memberId: MemberId)
    | Add(organizationId: OrganizationId, memberId: MemberId, addInput: AddInput, checks: Checks)
    | Update(organizationId: OrganizationId, memberId: MemberId, updateInput: UpdateInput, checks: Checks)
    | Remove(organizationId: OrganizationId, memberId: MemberId)

  function Do(s: State, step: Step): StepResult {
    match step
    case SignUp(userId, role) =>
      if userId in s.users then StepResult(s, Some(UniqueViolation))
      else StepResult(s.(users := s.users[userId := role]), None)
    case CreateOrganization(o) => StepResult(s.(organizations := s.organizations + {o}), None)
    case RegisterOrganization(userId, o, id) =>
      if userId in s.users || o in s.organizations || id in s.members then StepResult(s, Some(UniqueViolation))
      else
        StepResult(State(s.users[userId := Manager], s.organizations + {o},
                         s.members[id := Member(userId, o, None, None, ManagerMember, Active)]), None)
    case Add(o, id, input, checks) => AddMember(s, o, id, input, checks)
    case Update(o, id, input, checks) => UpdateMember(s, o, id, input, checks)
    case Remove(o, id) => RemoveMember(s, o, id)
  }

  function Run(s: State, steps: seq<Step>): State
    decreases |steps|
  {
    if steps == [] then s else Run(Do(s, steps[0]).state, steps[1..])
  }

  /* ---------------------------------------------------------------------- */
  /* Properties of every run                                                */
  /* ---------------------------------------------------------------------- */

  /** Every member is a user whose global role is at least each of their membership roles. */
  predicate Dominated(s: State) {
    forall id :: id in s.members ==>
      && s.members[id].userId in s.users
      && Rank(s.users[s.members[id].userId]) >= MemberRank(s.members[id].role)
  }

  /** Users stay, and no global role decreases. */
  predicate RolesGrow(s: State, t: State) {
    forall u :: u in s.users ==> u in t.users && Rank(t.users[u]) >= Rank(s.users[u])
  }

  /** Writing one row for a user who then dominates it, and lowering nobody, keeps the tables in order. */
  lemma WriteMember(s: State, users: map<UserId, UserRole>, id: MemberId, m: Member)
    requires Dominated(s) && RolesGrow(s, s.(users := users))
    requires m.userId in users && Rank(users[m.userId]) >= MemberRank(m.role)
    ensures Dominated(s.(users := users, members := s.members[id := m]))
  {
    hide MemberRank, Rank;
  }

  lemma DoKeepsRoles(s: State, step: Step)
    requires Dominated(s)
    ensures Dominated(Do(s, step).state) && RolesGrow(s, Do(s, step).state)
  {
    hide ActiveManagers, Duplicate, LosesManager, BranchError, IsActiveManager;
    var t := Do(s, step).state;
    match step
    case Add(_, id, input, _) =>
      if t != s { WriteMember(s, t.users, id, t.members[id]); }
    case Update(_, id, input, _) =>
      if t != s {
        assert s.members[id].userId in s.users;
        WriteMember(s, t.users, id, t.members[id]);
      }
    case RegisterOrganization(_, _, id) =>
      if t != s { WriteMember(s, t.users, id, t.members[id]); }
    case _ =>
  }

  lemma {:induction false} RolesDominateAndGrow(s: State, steps: seq<Step>)
    requires Dominated(s)
    ensures Dominated(Run(s, steps)) && RolesGrow(s, Run(s, steps))
    decreases |steps|
  {
    hide Do, Dominated;
    if steps == [] {
    } else {
      DoKeepsRoles(s, steps[0]);
      RolesDominateAndGrow(Do(s, steps[0]).state, steps[1..]);
    }
  }

  /** Taking away one of at least two leaves one. */
  lemma AnotherRemains<K>(s: set<K>, k: K)
    requires |s| > 1
    ensures s - {k} != {}
  {
    assert |s - {k}| >= |s| - 1;
  }

  /** No step takes away the last active manager of an organization. */
  lemma ManagerStep(s: State, step: Step, o: OrganizationId)
    requires ActiveManagers(s.members, o) != {}
    ensures ActiveManagers(Do(s, step).state.members, o) != {}
  {
    hide Duplicate, PromotedRole;
    var before, after := ActiveManagers(s.members, o), ActiveManagers(Do(s, step).state.members, o);
    var any :| any in before;
    if (step.Update? || step.Remove?) && step.memberId in before && step.memberId !in after {
      AnotherRemains(before, step.memberId);
      var other :| other in before - {step.memberId};
      assert other in after;
    } else {
      assert any in after;
    }
  }

  lemma {:induction false} ManagerRemains(s: State, steps: seq<Step>, o: OrganizationId)
    requires ActiveManagers(s.members, o) != {}
    ensures ActiveManagers(Run(s, steps).members, o) != {}
    decreases |steps|
  {
    hide Do, ActiveManagers;
    if steps == [] {
    } else {
      ManagerStep(s, steps[0], o);
      ManagerRemains(Do(s, steps[0]).state, steps[1..], o);
    }
  }

  /** An organization registered by its owner has an active manager from then on, whatever else is done. */
  lemma RegisteredStaysManaged(s: State, userId: UserId, o: OrganizationId, id: MemberId, steps: seq<Step>)
    requires Do(s, RegisterOrganization(userId, o, id)).error.None?
    ensures ActiveManagers(Run(Do(s, RegisterOrganization(userId, o, id)).state, steps).members, o) != {}
  {
    var next := Do(s, RegisterOrganization(userId, o, id)).state;
    assert id in ActiveManagers(next.members, o);
    ManagerRemains(next, steps, o);
  }

  /* ---------------------------------------------------------------------- */
  /* One membership in one place                                            */
  /* ---------------------------------------------------------------------- */

  predicate PlacesDistinct(members: map<MemberId, Member>) {
    forall i, j | i in members && j in members :: SamePlace(members[i], members[j]) ==> i == j
  }

  lemma PlacesStep(s: State, step: Step)
    requires Dominated(s) && PlacesDistinct(s.members)
    ensures PlacesDistinct(Do(s, step).state.members)
  {
    hide ActiveManagers, PromotedRole, LosesManager, BranchError, IsActiveManager, Rank, MemberRank;
    var t := Do(s, step).state;
    if t.members != s.members && !step.Remove? {
      var id := step.memberId;
      assert t.members == s.members[id := t.members[id]];
      forall other | other in s.members && other != id
        ensures !SamePlace(s.members[other], t.members[id]) && !SamePlace(t.members[id], s.members[other])
      {
        assert step.RegisterOrganization? ==> s.members[other].userId in s.users;
      }
    }
  }

  /** Over every run nobody has two memberships for one branch of an organization, nor two for all of its branches. */
  lemma {:induction false} PlacesStayDistinct(s: State, steps: seq<Step>)
    requires Dominated(s) && PlacesDistinct(s.members)
    ensures PlacesDistinct(Run(s, steps).members)
    decreases |steps|
  {
    hide Do, Dominated, PlacesDistinct;
    if steps == [] {
    } else {
      DoKeepsRoles(s, steps[0]);
      PlacesStep(s, steps[0]);
      PlacesStayDistinct(Do(s, steps[0]).state, steps[1..]);
    }
  }

  /* ---------------------------------------------------------------------- */
  /* Writes that follow an old count of managers                            */
  /* ---------------------------------------------------------------------- */

  /** The write of an update or removal whose checks were made earlier: `None` removes the row. */
  function LateWrite(s: State, id: MemberId, write: Option<UpdateInput>): State
    requires id in s.members
  {
    s.(members := if write.None? then s.members - {id} else s.members[id := Updated(s.members[id], write.value)])
  }

  /** The write takes a manager away from the organization. */
  predicate TakesManager(m: Member, write: Option<UpdateInput>, o: OrganizationId) {
    IsActiveManager(m, o) && (write.Some? ==> !IsActiveManager(Updated(m, write.value), o))
  }

  /** Whatever was counted before, a manager is left exactly when there is another one at the time of the write. */
  lemma LateWriteKeepsManagerIff(s: State, id: MemberId, write: Option<UpdateInput>, o: OrganizationId)
    requires id in s.members && TakesManager(s.members[id], write, o)
    ensures ActiveManagers(LateWrite(s, id, write).members, o) != {} <==> |ActiveManagers(s.members, o)| > 1
  {
    var managers := ActiveManagers(s.members, o);
    var t := LateWrite(s, id, write);
    assert ActiveManagers(t.members, o) == managers - {id};
    assert id in managers && |managers - {id}| == |managers| - 1;
    assert managers - {id} != {} <==> |managers - {id}| > 0;
  }

  lemma RunTwo(s: State, first: Step, second: Step)
    ensures Run(s, [first, second]) == Do(Do(s, first).state, second).state
  {
    hide Do;
    assert [first, second][1..] == [second] && [second][1..] == [];
    assert Run(Do(s, first).state, [second]) == Run(Do(Do(s, first).state, second).state, []);
  }

  /** Two managers who were both counted and then remove each other leave none. */
  lemma BothManagersGone(o: OrganizationId)
    ensures var s := Run(START, [RegisterOrganization("a", o, "1"), TwoManagers(o)]);
            && |ActiveManagers(s.members, o)| == 2
            && "1" in s.members && "2" in s.members
            && Do(s, Remove(o, "1")).error.None? && Do(s, Remove(o, "2")).error.None?
            && var first := LateWrite(s, "1", None);
               "2" in first.members && ActiveManagers(LateWrite(first, "2", None).members, o) == {}
  {
    var register, add := RegisterOrganization("a", o, "1"), TwoManagers(o);
    var s1 := Do(START, register).state;
    var s2 := Do(s1, add).state;
    RunTwo(START, register, add);
    assert ActiveManagers(s2.members, o) == {"1", "2"};
  }

  function TwoManagers(o: OrganizationId): Step {
    Add(o, "2", AddInput(NewAccount("b", false), ManagerMember, None, None), Checks(true, true, true))
  }

  /* ---------------------------------------------------------------------- */
  /* The service                                                            */
  /* ---------------------------------------------------------------------- */

  class MemberService {
    var users: map<UserId, UserRole>
    var organizations: set<OrganizationId>
    var members: map<MemberId, Member>

    function Tables(): State
      reads this
    {
      State(users, organizations, members)
    }

    constructor ()
      ensures Tables() == START
    {
      users, organizations, members := map[], {}, map[];
    }

    method CountActiveManagers(o: OrganizationId) returns (count: nat)
      ensures count == |ActiveManagers(members, o)|
    {
      count := |set id | id in members && members[id].organizationId == o
                         && members[id].role.ManagerMember? && members[id].status.Active?|;
      assert (set id | id in members && members[id].organizationId == o
                       && members[id].role.ManagerMember? && members[id].status.Active?) == ActiveManagers(members, o);
    }

    method AddMember(o: OrganizationId, id: MemberId, input: AddInput, checks: Checks) returns (error: Option<Error>)
      modifies this
      ensures StepResult(Tables(), error) == Do(old(Tables()), Add(o, id, input, checks))
    {
      if o !in organizations {
        return Some(NotFound);
      }
      if !checks.planAllows {
        return Some(PlanGate);
      }
      if input.branchId.Some? && !checks.branchBelongs {
        return Some(BadBranch);
      }
      if input.counterId.Some? && !checks.counterBelongs {
        return Some(BadCounter);
      }
      var users0 := users;
      match input.person {
        case Existing(userId) =>
          if userId !in users {
            return Some(NotFound);
          }
          var nextRole := PromotedRole(users[userId], input.role);
          if nextRole != users[userId] {
            users := users[userId := nextRole];
          }
        case NewAccount(userId, emailTaken) =>
          if emailTaken || userId in users {
            return Some(UniqueViolation);
          }
          users := users[userId := if input.role.ManagerMember? then Manager else Staff];
      }
      var m := Member(input.person.userId, o, input.branchId, input.counterId, input.role, Active);
      if id in members || Duplicate(members, id, m) {
        users := users0;
        return Some(UniqueViolation);
      }
      members := members[id := m];
      return None;
    }

    method UpdateMember(o: OrganizationId, id: MemberId, input: UpdateInput,
                        checks: Checks) returns (error: Option<Error>)
      modifies this
      ensures StepResult(Tables(), error) == Do(old(Tables()), Update(o, id, input, checks))
    {
      if id !in members || members[id].organizationId != o {
        return Some(NotFound);
      }
      var existing := members[id];
      var branchId := if input.branchId.None? then existing.branchId else input.branchId.value;
      if branchId.Some? && !checks.branchBelongs {
        return Some(BadBranch);
      }
      var counterId := if input.counterId.None? then existing.counterId else input.counterId.value;
      if counterId.Some? && !checks.counterBelongs {
        return Some(BadCounter);
      }
      var managers := CountActiveManagers(o);
      if LosesManager(existing, input) && managers <= 1 {
        return Some(Conflict);
      }
      var updated := Updated(existing, input);
      if Duplicate(members, id, updated) {
        return Some(UniqueViolation);
      }
      members := members[id := updated];
      if input.role.Some? && updated.userId in users {
        var nextRole := PromotedRole(users[updated.userId], input.role.value);
        if nextRole != users[updated.userId] {
          users := users[updated.userId := nextRole];
        }
      }
      return None;
    }

    method RemoveMember(o: OrganizationId, id: MemberId) returns (error: Option<Error>)
      modifies this
      ensures StepResult(Tables(), error) == Do(old(Tables()), Remove(o, id))
    {
      if id !in members || members[id].organizationId != o {
        return Some(NotFound);
      }
      var managers := CountActiveManagers(o);
      if members[id].role.ManagerMember? && members[id].status.Active? && managers <= 1 {
        return Some(Conflict);
      }
      members := members - {id};
      return None;
    }
  }
}
