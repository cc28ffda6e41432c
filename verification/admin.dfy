/**
 Platform admins: tiered authority, and the dual control under which roles are granted.
 */
module Admins {
  import opened Common

  datatype Role = Super | Admin | Ops | Finance | Support

  datatype Action =
    | EventPause | EventResume | EventForcePause
    | OnboardingApprove | VenueSuspend | VenueReinstate | OrganizationSuspend | OrganizationReinstate
    | PromoterSuspend | PromoterReinstate | FinancialRefund | PayoutBatchRun | DisputeResolve | UserBan | UserUnban
    | AdminProvision | AdminRoleUpdate | CommissionAdjust | PayoutFreeze | PayoutRelease

  function TierOf(a: Action): (t: nat)
    ensures 1 <= t <= 3
  {
    match a
    case AdminProvision | AdminRoleUpdate | CommissionAdjust | PayoutFreeze | PayoutRelease => 3
    case EventPause | EventResume | EventForcePause => 1
    case _ => 2
  }

  predicate CanInitiate(r: Role, a: Action) {
    if TierOf(a) == 3 then r == Super
    else if TierOf(a) == 2 then r != Support
    else true
  }

  /**
   Supers may start everything; admins, ops and finance everything but the five actions under dual
   control; support only pausing and resuming events.
   */
  lemma MayInitiateIff(r: Role, a: Action)
    ensures TierOf(a) == 3 <==> a in {AdminProvision, AdminRoleUpdate, CommissionAdjust, PayoutFreeze, PayoutRelease}
    ensures CanInitiate(r, a) <==>
      match r
      case Super => true
      case Support => a in {EventPause, EventResume, EventForcePause}
      case _ => a !in {AdminProvision, AdminRoleUpdate, CommissionAdjust, PayoutFreeze, PayoutRelease}
  {}

  datatype PlatformAdmin = PlatformAdmin(email: string, role: Role, isActive: bool, version: nat)

  /** A payload is an opaque bag: only its text fields can be read back. */
  datatype Value = Text(text: string) | Other

  type Payload = map<string, Value>

  datatype ProposalStatus = Pending | Approved | Rejected | Cancelled

  datatype Proposal = Proposal(action: Action, proposedBy: Id, reason: string, payload: Payload,
                               status: ProposalStatus, resolvedBy: Option<Id>, version: nat)

  datatype AdminError = Unauthorized | MayNot | NotDualControlled | NoReason | NoSuchProposal | AlreadyResolved | SelfResolved
    | NotTheProposer | WrongAction | NotApproved | BadPayload | AlreadyAdmin | NoSuchAdmin | LastSuper | SelfRevoked | VersionConflict

  function TextField(p: Payload, name: string): (r: Option<string>)
    ensures r.Some? ==> r.value != ""
  {
    if name in p && p[name].Text? && p[name].text != "" then Some(p[name].text) else None
  }

  function RoleField(p: Payload): Option<Role> {
    if "role" !in p || !p["role"].Text? then None
    else if p["role"].text == "super" then Some(Super)
    else if p["role"].text == "admin" then Some(Admin)
    else if p["role"].text == "ops" then Some(Ops)
    else if p["role"].text == "finance" then Some(Finance)
    else if p["role"].text == "support" then Some(Support)
    else None
  }

  /** How a role is written. */
  function RoleName(r: Role): string {
    match r
    case Super => "super"
    case Admin => "admin"
    case Ops => "ops"
    case Finance => "finance"
    case Support => "support"
  }

  /** A role is read exactly where it was written as text. */
  lemma RoleFieldIff(p: Payload, r: Role)
    ensures RoleField(p) == Some(r) <==> "role" in p && p["role"] == Text(RoleName(r))
  {
    RoleNamesDiffer();
  }

  lemma RoleNamesDiffer()
    ensures forall r, q :: RoleName(r) == RoleName(q) ==> r == q
  {
    assert RoleName(Super)[1] == 'u' && RoleName(Support)[1] == 'u' && RoleName(Super)[2] == 'p' && |RoleName(Super)| != |RoleName(Support)|;
    assert RoleName(Admin)[0] == 'a' && RoleName(Ops)[0] == 'o' && RoleName(Finance)[0] == 'f' && RoleName(Super)[0] == 's' && RoleName(Support)[0] == 's';
  }

  /** Other fields are read exactly where a text that is not empty was written. */
  lemma TextFieldIff(p: Payload, name: string, text: string)
    ensures TextField(p, name) == Some(text) <==> text != "" && name in p && p[name] == Text(text)
  {}

  /** Whom a proposal grants a role: the new admin it provisions, or the admin whose role it changes. */
  function Grantee(p: Proposal): Option<Id> {
    match p.action
    case AdminProvision => if TextField(p.payload, "email").None? then None else TextField(p.payload, "userId")
    case AdminRoleUpdate => TextField(p.payload, "targetUserId")
    case _ => None
  }

  /** A provisioning names a new admin and an email, a role change its target; nothing else grants anything. */
  lemma GranteeIff(p: Proposal, user: Id)
    ensures Grantee(p) == Some(user) <==>
      && user != ""
      && ((p.action == AdminProvision && TextField(p.payload, "email").Some? && "userId" in p.payload && p.payload["userId"] == Text(user))
          || (p.action == AdminRoleUpdate && "targetUserId" in p.payload && p.payload["targetUserId"] == Text(user)))
  {}

  predicate Blank(reason: string) { forall i :: 0 <= i < |reason| ==> reason[i] in " \t\r\n" }

  /** A reason counts if it has anything but white space in it. */
  lemma BlankIff(reason: string)
    ensures Blank(reason) <==> forall c | c in reason :: c in {' ', '\t', '\r', '\n'}
  {
    forall i | 0 <= i < |reason| ensures reason[i] in reason && (reason[i] in " \t\r\n" <==> reason[i] in {' ', '\t', '\r', '\n'}) {
      WhiteSpace(reason[i]);
    }
    if Blank(reason) {
      forall c | c in reason ensures c in {' ', '\t', '\r', '\n'} { WhiteSpace(c); }
    }
  }

  lemma WhiteSpace(c: char)
    ensures c in " \t\r\n" <==> c in {' ', '\t', '\r', '\n'}
  {
    var blanks := " \t\r\n";
    assert blanks == [' ', '\t', '\r', '\n'];
  }

  predicate ActiveAdmin(admins: map<Id, PlatformAdmin>, user: Id) { user in admins && admins[user].isActive }

  predicate ActiveSuper(admins: map<Id, PlatformAdmin>, user: Id) { ActiveAdmin(admins, user) && admins[user].role == Super }

  ghost predicate SomeSuper(admins: map<Id, PlatformAdmin>) { exists a :: ActiveSuper(admins, a) }

  function CountSupers(admins: map<Id, PlatformAdmin>, page: seq<Id>): (n: nat)
    ensures n <= |page|
  {
    if page == [] then 0 else CountSupers(admins, page[1..]) + if ActiveSuper(admins, page[0]) then 1 else 0
  }

  /** The active supers among these admins. */
  function SupersOf(admins: map<Id, PlatformAdmin>, page: seq<Id>): set<Id> { set a | a in page && ActiveSuper(admins, a) }

  lemma OneMoreOnPage(admins: map<Id, PlatformAdmin>, page: seq<Id>)
    requires page != [] && page[0] !in page[1..]
    ensures |SupersOf(admins, page)| == |SupersOf(admins, page[1..])| + if ActiveSuper(admins, page[0]) then 1 else 0
  {
    assert page == [page[0]] + page[1..];
    assert SupersOf(admins, page) == if ActiveSuper(admins, page[0]) then SupersOf(admins, page[1..]) + {page[0]} else SupersOf(admins, page[1..]);
  }

  lemma {:induction false} CountIsSize(admins: map<Id, PlatformAdmin>, page: seq<Id>)
    requires Distinct(page)
    ensures CountSupers(admins, page) == |SupersOf(admins, page)|
  {
    if page == [] {
      assert SupersOf(admins, page) == {};
    } else {
      assert forall i :: 0 < i < |page| ==> page[i] != page[0];
      CountIsSize(admins, page[1..]);
      OneMoreOnPage(admins, page);
    }
  }

  /** The number counted is that of the active supers on the page. */
  lemma CountSupersIs(admins: map<Id, PlatformAdmin>, page: seq<Id>)
    requires Distinct(page)
    ensures CountSupers(admins, page) == |set a | a in page && a in admins && admins[a].isActive && admins[a].role == Super|
  {
    CountIsSize(admins, page);
    assert SupersOf(admins, page) == set a | a in page && a in admins && admins[a].isActive && admins[a].role == Super;
  }

  /** Two active supers on one page, whichever admins it shows, leave one besides any given admin. */
  lemma {:induction false} AnotherSuper(admins: map<Id, PlatformAdmin>, page: seq<Id>, target: Id) returns (other: Id)
    requires Distinct(page)
    requires CountSupers(admins, page) > if target in page then 1 else 0
    ensures other in page && other != target && ActiveSuper(admins, other)
  {
    if ActiveSuper(admins, page[0]) && page[0] != target {
      other := page[0];
    } else {
      assert page[0] == target ==> target !in page[1..];
      other := AnotherSuper(admins, page[1..], target);
    }
  }

  // ----- where every role comes from

  datatype Grant = Grant(proposal: Id, admin: Id, role: Role)

  /** Two signatures, the second not the first. */
  predicate DoublySigned(p: Proposal) { p.resolvedBy.Some? && p.resolvedBy.value != p.proposedBy }

  ghost predicate DualControl(proposals: map<Id, Proposal>) {
    forall p | p in proposals && proposals[p].status == Approved :: DoublySigned(proposals[p])
  }

  /** A grant executes an approved proposal of the matching action, and gives what was written in it. */
  ghost predicate Backed(proposals: map<Id, Proposal>, g: Grant) {
    && g.proposal in proposals && proposals[g.proposal].status == Approved
    && Grantee(proposals[g.proposal]) == Some(g.admin) && RoleField(proposals[g.proposal].payload) == Some(g.role)
  }

  /** The role an admin holds after the grants, if any. */
  function RoleAfter(initial: map<Id, PlatformAdmin>, grants: seq<Grant>, admin: Id): Option<Role> {
    if grants == [] then (if admin in initial then Some(initial[admin].role) else None)
    else if grants[|grants| - 1].admin == admin then Some(grants[|grants| - 1].role)
    else RoleAfter(initial, grants[..|grants| - 1], admin)
  }

  /** Every role is the one the admin started with, or the one its last grant gave. */
  ghost predicate Explained(initial: map<Id, PlatformAdmin>, grants: seq<Grant>, admins: map<Id, PlatformAdmin>) {
    forall a :: RoleAfter(initial, grants, a) == if a in admins then Some(admins[a].role) else None
  }

  lemma RoleAfterGrant(initial: map<Id, PlatformAdmin>, grants: seq<Grant>, g: Grant, admins: map<Id, PlatformAdmin>, granted: PlatformAdmin)
    requires Explained(initial, grants, admins) && granted.role == g.role
    ensures Explained(initial, grants + [g], admins[g.admin := granted])
  {
    assert (grants + [g])[..|grants|] == grants;
  }

  /** An approved proposal of this action, executed by an active super, with a payload that can be read. */
  predicate Executable(admins: map<Id, PlatformAdmin>, proposals: map<Id, Proposal>, user: Id, id: Id, action: Action) {
    && ActiveSuper(admins, user) && id in proposals && proposals[id].action == action && proposals[id].status == Approved
    && Grantee(proposals[id]).Some? && RoleField(proposals[id].payload).Some?
  }

  predicate Provisionable(admins: map<Id, PlatformAdmin>, proposals: map<Id, Proposal>, user: Id, id: Id) {
    Executable(admins, proposals, user, id, AdminProvision) && !ActiveAdmin(admins, Grantee(proposals[id]).value)
  }

  /** A super is only demoted while the page shows another active one. */
  predicate MayBecome(admins: map<Id, PlatformAdmin>, target: Id, role: Role, page: seq<Id>) {
    target in admins && (admins[target].role == Super && role != Super ==> CountSupers(admins, page) > 1)
  }

  predicate RoleUpdatable(admins: map<Id, PlatformAdmin>, proposals: map<Id, Proposal>, user: Id, id: Id, page: seq<Id>) {
    && Executable(admins, proposals, user, id, AdminRoleUpdate)
    && MayBecome(admins, Grantee(proposals[id]).value, RoleField(proposals[id].payload).value, page)
  }

  /** No call takes an approval back or changes what it says. */
  ghost predicate ApprovalsStand(before: map<Id, Proposal>, after: map<Id, Proposal>) {
    forall p | p in before && before[p].status == Approved :: p in after && after[p] == before[p]
  }

  class AdminAuthorityService {
    var admins: map<Id, PlatformAdmin>
    var proposals: map<Id, Proposal>
    ghost const initial: map<Id, PlatformAdmin>
    ghost var grants: seq<Grant>

    ghost predicate Valid()
      reads this
    {
      && DualControl(proposals)
      && (forall i :: 0 <= i < |grants| ==> Backed(proposals, grants[i]))
      && Explained(initial, grants, admins)
      && (SomeSuper(initial) ==> SomeSuper(admins))
      && (forall a | a in admins :: admins[a].version >= if admins[a].isActive then 1 else 2)
    }

    constructor (seeded: map<Id, PlatformAdmin>)
      requires forall a | a in seeded :: seeded[a].version >= if seeded[a].isActive then 1 else 2
      ensures Valid() && admins == initial == seeded && proposals == map[] && grants == []
    {
      admins, proposals, initial, grants := seeded, map[], seeded, [];
    }

    /** `id` is minted at random. */
    method Propose(user: Id, id: Id, action: Action, reason: string, payload: Payload) returns (r: Result<Proposal, AdminError>)
      requires Valid() && id !in proposals
      modifies this`proposals
      ensures Valid()
      ensures r.Success? <==>
        ActiveAdmin(admins, user) && CanInitiate(admins[user].role, action) && TierOf(action) == 3 && !Blank(reason)
      ensures r.Failure? ==> proposals == old(proposals)
      ensures r.Success? ==>
        proposals == old(proposals)[id := Proposal(action, user, reason, payload, Pending, None, 1)] && r.value == proposals[id]
      ensures ApprovalsStand(old(proposals), proposals)
    {
      if !ActiveAdmin(admins, user) { return Failure(Unauthorized); }
      if !CanInitiate(admins[user].role, action) { return Failure(MayNot); }
      if TierOf(action) != 3 { return Failure(NotDualControlled); }
      if Blank(reason) { return Failure(NoReason); }
      var proposal := Proposal(action, user, reason, payload, Pending, None, 1);
      proposals := proposals[id := proposal];
      r := Success(proposal);
    }

    /** Approves or rejects a pending proposal; never by the admin who raised it. */
    method Resolve(user: Id, id: Id, approve: bool) returns (r: Result<Proposal, AdminError>)
      requires Valid()
      modifies this`proposals
      ensures Valid()
      ensures r.Success? <==>
        && ActiveAdmin(admins, user) && id in old(proposals) && old(proposals)[id].status == Pending
        && user != old(proposals)[id].proposedBy && CanInitiate(admins[user].role, old(proposals)[id].action)
      ensures r.Failure? ==> proposals == old(proposals)
      ensures r.Success? ==>
        && proposals == old(proposals)[id := old(proposals)[id].(status := if approve then Approved else Rejected,
                                                                 resolvedBy := Some(user), version := old(proposals)[id].version + 1)]
        && r.value == proposals[id]
      ensures ApprovalsStand(old(proposals), proposals)
    {
      if !ActiveAdmin(admins, user) { return Failure(Unauthorized); }
      if id !in proposals { return Failure(NoSuchProposal); }
      var p := proposals[id];
      if p.status != Pending { return Failure(AlreadyResolved); }
      if user == p.proposedBy { return Failure(SelfResolved); }
      if !CanInitiate(admins[user].role, p.action) { return Failure(MayNot); }
      var resolved := p.(status := if approve then Approved else Rejected, resolvedBy := Some(user), version := p.version + 1);
      proposals := proposals[id := resolved];
      r := Success(resolved);
    }

    method Cancel(user: Id, id: Id) returns (r: Result<Proposal, AdminError>)
      requires Valid()
      modifies this`proposals
      ensures Valid()
      ensures r.Success? <==>
        ActiveAdmin(admins, user) && id in old(proposals) && old(proposals)[id].status == Pending && user == old(proposals)[id].proposedBy
      ensures r.Failure? ==> proposals == old(proposals)
      ensures r.Success? ==>
        proposals == old(proposals)[id := old(proposals)[id].(status := Cancelled, version := old(proposals)[id].version + 1)]
      ensures ApprovalsStand(old(proposals), proposals)
    {
      if !ActiveAdmin(admins, user) { return Failure(Unauthorized); }
      if id !in proposals { return Failure(NoSuchProposal); }
      var p := proposals[id];
      if p.status != Pending { return Failure(AlreadyResolved); }
      if user != p.proposedBy { return Failure(NotTheProposer); }
      var cancelled := p.(status := Cancelled, version := p.version + 1);
      proposals := proposals[id := cancelled];
      r := Success(cancelled);
    }

    /** Executes an approved provisioning: everything about the new admin is read from the proposal. */
    method ProvisionAdmin(user: Id, id: Id) returns (r: Result<PlatformAdmin, AdminError>)
      requires Valid()
      modifies this`admins, this`grants
      ensures Valid()
      ensures r.Success? <==> Provisionable(old(admins), proposals, user, id)
      ensures r.Failure? ==> admins == old(admins) && grants == old(grants)
      ensures r.Success? ==>
        && RoleField(proposals[id].payload) == Some(r.value.role) && r.value.isActive
        && TextField(proposals[id].payload, "email") == Some(r.value.email)
        && admins == old(admins)[Grantee(proposals[id]).value := r.value]
        && grants == old(grants) + [Grant(id, Grantee(proposals[id]).value, r.value.role)]
    {
      if !ActiveAdmin(admins, user) { return Failure(Unauthorized); }
      if !CanInitiate(admins[user].role, AdminProvision) { return Failure(MayNot); }
      if id !in proposals { return Failure(NoSuchProposal); }
      var p := proposals[id];
      if p.action != AdminProvision { return Failure(WrongAction); }
      if p.status != Approved { return Failure(NotApproved); }
      var newUser, email, role := TextField(p.payload, "userId"), TextField(p.payload, "email"), RoleField(p.payload);
      if newUser.None? || email.None? || role.None? { return Failure(BadPayload); }
      if ActiveAdmin(admins, newUser.value) { return Failure(AlreadyAdmin); }
      var version := if newUser.value in admins then admins[newUser.value].version + 1 else 1;
      var created := PlatformAdmin(email.value, role.value, true, version);
      Save(Grant(id, newUser.value, role.value), created, user);
      r := Success(created);
    }

    /** Stores an admin whose role a proposal grants; `keeper` is an active super afterwards. */
    method Save(g: Grant, granted: PlatformAdmin, ghost keeper: Id)
      requires Valid() && Backed(proposals, g) && granted.role == g.role
      requires granted.version >= if granted.isActive then 1 else 2
      requires ActiveSuper(admins, keeper) && (keeper != g.admin || (granted.isActive && granted.role == Super))
      modifies this`admins, this`grants
      ensures Valid() && admins == old(admins)[g.admin := granted] && grants == old(grants) + [g]
    {
      RoleAfterGrant(initial, grants, g, admins, granted);
      admins, grants := admins[g.admin := granted], grants + [g];
      assert ActiveSuper(admins, keeper);
    }

    /**
     Executes an approved role change. `page` is the first page of admins in whatever order the
     storage lists them; the count of supers sees no others.
     */
    method UpdateAdminRole(user: Id, id: Id, page: seq<Id>) returns (r: Result<PlatformAdmin, AdminError>)
      requires Valid()
      requires Distinct(page)
      modifies this`admins, this`grants
      ensures Valid()
      ensures r.Success? <==> RoleUpdatable(old(admins), proposals, user, id, page)
      ensures r.Failure? ==> admins == old(admins) && grants == old(grants)
      ensures r.Success? ==>
        && RoleField(proposals[id].payload) == Some(r.value.role)
        && r.value.isActive == old(admins)[Grantee(proposals[id]).value].isActive
        && admins == old(admins)[Grantee(proposals[id]).value := r.value]
        && grants == old(grants) + [Grant(id, Grantee(proposals[id]).value, r.value.role)]
    {
      if !ActiveAdmin(admins, user) { return Failure(Unauthorized); }
      if !CanInitiate(admins[user].role, AdminRoleUpdate) { return Failure(MayNot); }
      if id !in proposals { return Failure(NoSuchProposal); }
      var p := proposals[id];
      if p.action != AdminRoleUpdate { return Failure(WrongAction); }
      if p.status != Approved { return Failure(NotApproved); }
      var target, role := TextField(p.payload, "targetUserId"), RoleField(p.payload);
      if target.None? || role.None? { return Failure(BadPayload); }
      if target.value !in admins { return Failure(NoSuchAdmin); }
      var was := admins[target.value];
      ghost var keeper := user;
      if was.role == Super && role.value != Super {
        var activeSupers := CountSupers(admins, page);
        if activeSupers <= 1 { return Failure(LastSuper); }
        keeper := AnotherSuper(admins, page, target.value);
      }
      var updated := if was.role == role.value then was else was.(role := role.value, version := was.version + 1);
      Save(Grant(id, target.value, role.value), updated, keeper);
      r := Success(updated);
    }

    /** Taking authority away needs one super, and is never done to oneself. */
    method RevokeAdmin(user: Id, target: Id) returns (r: Result<PlatformAdmin, AdminError>)
      requires Valid()
      modifies this`admins
      ensures Valid()
      ensures r.Success? <==> ActiveSuper(old(admins), user) && user != target && ActiveAdmin(old(admins), target)
      ensures r.Failure? ==> admins == old(admins)
      ensures r.Success? ==>
        && admins == old(admins)[target := old(admins)[target].(isActive := false, version := old(admins)[target].version + 1)]
        && ActiveSuper(admins, user)
    {
      if !ActiveAdmin(admins, user) { return Failure(Unauthorized); }
      if admins[user].role != Super { return Failure(MayNot); }
      if user == target { return Failure(SelfRevoked); }
      if target !in admins { return Failure(NoSuchAdmin); }
      // An inactive admin is saved unchanged, which the compare-and-set refuses.
      if !admins[target].isActive { return Failure(VersionConflict); }
      var revoked := admins[target].(isActive := false, version := admins[target].version + 1);
      admins := admins[target := revoked];
      assert ActiveSuper(admins, user);
      r := Success(revoked);
    }

    /** Every role that is not an original one was written in a proposal that a second admin approved. */
    lemma RolesTraceToApprovals(a: Id)
      requires Valid() && a in admins && (a !in initial || admins[a].role != initial[a].role)
      ensures exists p :: p in proposals && proposals[p].status == Approved
                       && Grantee(proposals[p]) == Some(a) && RoleField(proposals[p].payload) == Some(admins[a].role)
                       && proposals[p].resolvedBy.Some? && proposals[p].resolvedBy.value != proposals[p].proposedBy
    {
      var k := LastGrant(initial, grants, a);
      assert Backed(proposals, grants[k]);
      assert DoublySigned(proposals[grants[k].proposal]);
    }
  }

  lemma {:induction false} LastGrant(initial: map<Id, PlatformAdmin>, grants: seq<Grant>, a: Id) returns (k: nat)
    requires RoleAfter(initial, grants, a).Some?
    requires a in initial ==> RoleAfter(initial, grants, a).value != initial[a].role
    ensures k < |grants| && grants[k].admin == a && Some(grants[k].role) == RoleAfter(initial, grants, a)
  {
    k := |grants| - 1;
    if grants[k].admin != a { k := LastGrant(initial, grants[..k], a); }
  }

  /**
   An approval is never spent. Once a provisioning could be executed, at any later time, whoever
   the admins are then, it can be executed again exactly by an active super and exactly while the
   person it names is no active admin: revoking them is not the end of it.
   */
  lemma ProvisionedAgainIff(admins: map<Id, PlatformAdmin>, proposals: map<Id, Proposal>, user: Id, id: Id,
                            admins': map<Id, PlatformAdmin>, proposals': map<Id, Proposal>, user': Id)
    requires Provisionable(admins, proposals, user, id) && ApprovalsStand(proposals, proposals')
    ensures Provisionable(admins', proposals', user', id)
       <==> ActiveSuper(admins', user') && !ActiveAdmin(admins', Grantee(proposals[id]).value)
  {
    assert proposals'[id] == proposals[id];
  }

  /**
   Once a role change could be executed, it can be executed again at any later time exactly by an
   active super while the target is stored and, if it demotes a super, the page shows another: it
   undoes whatever was approved in between.
   */
  lemma RoleChangedAgainIff(admins: map<Id, PlatformAdmin>, proposals: map<Id, Proposal>, user: Id, id: Id, page: seq<Id>,
                            admins': map<Id, PlatformAdmin>, proposals': map<Id, Proposal>, user': Id, page': seq<Id>)
    requires RoleUpdatable(admins, proposals, user, id, page) && ApprovalsStand(proposals, proposals')
    ensures RoleUpdatable(admins', proposals', user', id, page')
       <==> ActiveSuper(admins', user') && MayBecome(admins', Grantee(proposals[id]).value, RoleField(proposals[id].payload).value, page')
  {
    assert proposals'[id] == proposals[id];
  }

  /** The plainest case: the super who provisioned and revoked an admin can provision them again alone. */
  lemma ApprovalIsNeverSpent(admins: map<Id, PlatformAdmin>, proposals: map<Id, Proposal>, user: Id, id: Id, granted: PlatformAdmin)
    requires Provisionable(admins, proposals, user, id)
    ensures var n := Grantee(proposals[id]).value;
      && ActiveSuper(admins[n := granted], user) && user != n
      && Provisionable(admins[n := granted.(isActive := false)], proposals, user, id)
  {
    var n := Grantee(proposals[id]).value;
    assert user != n;
  }
}
