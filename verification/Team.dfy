/**
 Accounts, e-mail verification, team membership and invites (tenants/auth_views.py, tenants/team_views.py)
 as one state and the requests that change it. Each request is one atomic step; primary keys are positions.
*/
module Team {
  import opened Prelude
  import opened Text

  datatype Role = Admin | Analyst | Viewer

  datatype User = User(email: string, tenant: nat, role: Role, verified: bool, active: bool)

  datatype InviteStatus = Pending | Accepted | Revoked | Expired

  datatype Invite = Invite(
    tenant: nat, email: string, role: Role, token: string, status: InviteStatus, expiresAt: int,
    acceptedUser: Option<nat>)

  datatype Verification = Verification(user: nat, email: string, token: string, expiresAt: int, usedAt: Option<int>)

  datatype State = State(tenants: nat, users: seq<User>, invites: seq<Invite>, verifications: seq<Verification>)

  datatype Config = Config(inviteTtl: int, verificationTtl: int)

  datatype Reply = Okay | Created | BadRequest | Forbidden | NotFound | Gone | ServerError

  /** What a request does to the tables, once it has been decided. */
  datatype Change =
    | Nothing
    | OpenAccount(email: string, token: string, expiresAt: int)
    | SpendToken(v: nat, now: int)
    | ConfirmEmail(v: nat, now: int)
    | ReissueToken(user: nat, token: string, expiresAt: int, now: int)
    | SendInvite(tenant: nat, email: string, role: Role, token: string, expiresAt: int)
    | RenewInvite(i: nat, token: string, expiresAt: int)
    | CloseInvite(i: nat, status: InviteStatus)
    | JoinTeam(i: nat)
    | ChangeMember(m: nat, newRole: Field<Role>, newIsActive: Field<bool>)

  datatype Decision = Decision(change: Change, reply: Reply)

  /** A request field: left out, present but unacceptable, or given. */
  datatype Field<T> = Omitted | Bad | Given(value: T)

  datatype Request =
    | Register(email: string, otherFieldsOk: bool, token: string)
    | VerifyEmail(email: string, token: string)
    | ResendVerification(email: string, token: string)
    | CreateInvite(actor: nat, email: string, role: Field<Role>, token: string)
    | ResendInvite(actor: nat, invite: nat, token: string)
    | RevokeInvite(actor: nat, invite: nat)
    | ViewInvite(token: string)
    | AcceptInvite(token: string, otherFieldsOk: bool)
    | PatchMember(actor: nat, member: nat, role: Field<Role>, isActive: Field<bool>)

  // ---------- lookups ----------

  function Canon(email: string): string {
    Lower(Strip(email))
  }

  function HasEmail(email: string): User -> bool {
    (u: User) => Lower(u.email) == Lower(email)
  }

  function PendingFor(tenant: nat, email: string): Invite -> bool {
    (i: Invite) => i.tenant == tenant && Lower(i.email) == Lower(email) && i.status == Pending
  }

  function InviteWith(token: string): Invite -> bool {
    (i: Invite) => i.token == token
  }

  function VerificationWith(token: string): Verification -> bool {
    (v: Verification) => v.token == token
  }

  function VerificationFor(token: string, email: string): Verification -> bool {
    (v: Verification) => v.token == token && Lower(v.email) == Lower(email)
  }

  predicate Exists<T>(s: seq<T>, p: T -> bool) {
    IndexWhere(s, p).Some?
  }

  predicate IsAdmin(s: State, actor: nat) {
    actor < |s.users| && s.users[actor].role == Admin
  }

  // ---------- the last-admin guard ----------

  predicate ActiveAdminOf(u: User, tenant: nat) {
    u.tenant == tenant && u.role == Admin && u.active
  }

  predicate HasActiveAdmin(users: seq<User>, tenant: nat) {
    exists i :: 0 <= i < |users| && ActiveAdminOf(users[i], tenant)
  }

  function CountActiveAdmins(users: seq<User>, tenant: nat): nat {
    if users == [] then 0
    else CountActiveAdmins(Front(users), tenant) + if ActiveAdminOf(Last(users), tenant) then 1 else 0
  }

  lemma {:induction false} CountIsZeroIffNone(users: seq<User>, tenant: nat)
    ensures CountActiveAdmins(users, tenant) == 0 <==> !HasActiveAdmin(users, tenant)
  {
    if users == [] {
    } else {
      var f := Front(users);
      CountIsZeroIffNone(f, tenant);
      assert forall i :: 0 <= i < |f| ==> users[i] == f[i];
      assert users[|users| - 1] == Last(users);
    }
  }

  lemma {:induction false} CountAfterUpdate(users: seq<User>, m: nat, u: User, tenant: nat)
    requires m < |users|
    ensures CountActiveAdmins(users[m := u], tenant) == CountActiveAdmins(users, tenant)
      - (if ActiveAdminOf(users[m], tenant) then 1 else 0) + (if ActiveAdminOf(u, tenant) then 1 else 0)
  {
    if m < |users| - 1 {
      assert Front(users[m := u]) == Front(users)[m := u];
      CountAfterUpdate(Front(users), m, u, tenant);
    } else {
      assert Front(users[m := u]) == Front(users);
    }
  }

  function OrKeep<T>(f: Field<T>, current: T): T {
    if f.Given? then f.value else current
  }

  function Patched(u: User, role: Field<Role>, isActive: Field<bool>): User {
    u.(role := OrKeep(role, u.role), active := OrKeep(isActive, u.active))
  }

  /** True exactly when the tenant would be without an active admin after the update. */
  method WouldRemoveLastAdmin(users: seq<User>, tenant: nat, m: nat, newRole: Field<Role>, newIsActive: Field<bool>)
    returns (r: bool)
    requires m < |users| && users[m].tenant == tenant
    ensures r <==> !HasActiveAdmin(users[m := Patched(users[m], newRole, newIsActive)], tenant)
  {
    var target := users[m];
    ghost var after := users[m := Patched(target, newRole, newIsActive)];
    var role := if newRole.Given? then newRole.value else target.role;
    var isActive := if newIsActive.Given? then newIsActive.value else target.active;
    if role == Admin && isActive {
      assert ActiveAdminOf(after[m], tenant);
      return false;
    }
    var activeAdminCount: int := CountActiveAdmins(users, tenant);
    CountAfterUpdate(users, m, after[m], tenant);
    CountIsZeroIffNone(after, tenant);
    if target.role == Admin && target.active {
      if role != Admin || !isActive {
        activeAdminCount := activeAdminCount - 1;
      }
    }
    r := activeAdminCount < 1;
  }

  // ---------- what a change does ----------

  function MarkUsed(vs: seq<Verification>, user: nat, now: int): (r: seq<Verification>)
    ensures |r| == |vs|
    ensures forall i :: 0 <= i < |vs| ==>
      r[i] == if vs[i].user == user && vs[i].usedAt.None? then vs[i].(usedAt := Some(now)) else vs[i]
  {
    if vs == [] then []
    else
      var v := Last(vs);
      MarkUsed(Front(vs), user, now) + [if v.user == user && v.usedAt.None? then v.(usedAt := Some(now)) else v]
  }

  /** The rows a change refers to exist. */
  predicate Refers(s: State, ch: Change) {
    match ch
    case SpendToken(v, _) => v < |s.verifications| && s.verifications[v].user < |s.users|
    case ConfirmEmail(v, _) => v < |s.verifications| && s.verifications[v].user < |s.users|
    case ReissueToken(user, _, _, _) => user < |s.users|
    case RenewInvite(i, _, _) => i < |s.invites|
    case CloseInvite(i, _) => i < |s.invites|
    case JoinTeam(i) => i < |s.invites|
    case ChangeMember(m, _, _) => m < |s.users|
    case _ => true
  }

  function Effect(s: State, ch: Change): State
    requires Refers(s, ch)
  {
    match ch
    case Nothing => s
    case OpenAccount(email, token, expiresAt) =>
      s.(tenants := s.tenants + 1,
         users := s.users + [User(email, s.tenants, Admin, false, false)],
         verifications := s.verifications + [Verification(|s.users|, email, token, expiresAt, None)])
    case SpendToken(v, now) =>
      s.(verifications := s.verifications[v := s.verifications[v].(usedAt := Some(now))])
    case ConfirmEmail(v, now) =>
      var u := s.verifications[v].user;
      s.(users := s.users[u := s.users[u].(verified := true, active := true)],
         verifications := s.verifications[v := s.verifications[v].(usedAt := Some(now))])
    case ReissueToken(user, token, expiresAt, now) =>
      s.(verifications := MarkUsed(s.verifications, user, now)
           + [Verification(user, s.users[user].email, token, expiresAt, None)])
    case SendInvite(tenant, email, role, token, expiresAt) =>
      s.(invites := s.invites + [Invite(tenant, email, role, token, Pending, expiresAt, None)])
    case RenewInvite(i, token, expiresAt) =>
      s.(invites := s.invites[i := s.invites[i].(token := token, expiresAt := expiresAt)])
    case CloseInvite(i, status) =>
      s.(invites := s.invites[i := s.invites[i].(status := status)])
    case JoinTeam(i) =>
      var invite := s.invites[i];
      s.(users := s.users + [User(invite.email, invite.tenant, invite.role, true, true)],
         invites := s.invites[i := invite.(status := Accepted, acceptedUser := Some(|s.users|))])
    case ChangeMember(m, role, isActive) =>
      s.(users := s.users[m := Patched(s.users[m], role, isActive)])
  }

  predicate Open(v: Verification) {
    v.usedAt.None?
  }

  predicate HasUser(s: State, tenant: nat) {
    exists i :: 0 <= i < |s.users| && s.users[i].tenant == tenant
  }

  /** What every decision has made sure of before the tables are touched. */
  predicate Granted(s: State, ch: Change, now: int) {
    && Refers(s, ch)
    && match ch
       case Nothing => true
       case OpenAccount(email, token, _) =>
         !Exists(s.users, HasEmail(email)) && !Exists(s.verifications, VerificationWith(token))
       case SpendToken(v, at) => at == now && s.users[s.verifications[v].user].verified
       case ConfirmEmail(v, at) => at == now < s.verifications[v].expiresAt && Open(s.verifications[v])
       case ReissueToken(user, token, _, _) =>
         !s.users[user].verified && !Exists(s.verifications, VerificationWith(token))
       case SendInvite(tenant, email, _, token, _) =>
         HasUser(s, tenant) && !Exists(s.invites, PendingFor(tenant, email)) && !Exists(s.invites, InviteWith(token))
       case RenewInvite(i, token, _) =>
         s.invites[i].status == Pending && now < s.invites[i].expiresAt && !Exists(s.invites, InviteWith(token))
       case CloseInvite(i, status) =>
         && s.invites[i].status == Pending
         && ((status == Revoked && now < s.invites[i].expiresAt) || (status == Expired && s.invites[i].expiresAt < now))
       case JoinTeam(i) =>
         && s.invites[i].status == Pending && now <= s.invites[i].expiresAt
         && !Exists(s.users, HasEmail(s.invites[i].email))
       case ChangeMember(m, role, isActive) =>
         HasActiveAdmin(s.users[m := Patched(s.users[m], role, isActive)], s.users[m].tenant)
  }

  // ---------- what each request decides ----------

  function DecideRegister(c: Config, s: State, email: string, otherFieldsOk: bool, token: string, now: int): (d: Decision)
    ensures Granted(s, d.change, now)
  {
    DecideAccount(c, s, Canon(email), otherFieldsOk, token, now)
  }

  function DecideAccount(c: Config, s: State, e: string, otherFieldsOk: bool, token: string, now: int): (d: Decision)
    ensures Granted(s, d.change, now)
  {
    if e == "" || !otherFieldsOk || Exists(s.users, HasEmail(e)) then Decision(Nothing, BadRequest)
    else if Exists(s.verifications, VerificationWith(token)) then Decision(Nothing, ServerError)
    else Decision(OpenAccount(e, token, now + c.verificationTtl), Created)
  }

  function DecideVerify(s: State, email: string, token: string, now: int): (d: Decision)
    ensures Granted(s, d.change, now)
  {
    var t, e := Strip(token), Canon(email);
    DecideFound(s, t != "" && e != "", IndexWhere(s.verifications, VerificationFor(t, e)), now)
  }

  function DecideFound(s: State, wellFormed: bool, found: Option<nat>, now: int): (d: Decision)
    requires found.Some? ==> found.value < |s.verifications|
    ensures Granted(s, d.change, now)
  {
    if !wellFormed || found.None? then Decision(Nothing, BadRequest)
    else
      var v := s.verifications[found.value];
      if v.user >= |s.users| then Decision(Nothing, ServerError)
      else if s.users[v.user].verified then
        Decision(if v.usedAt.None? then SpendToken(found.value, now) else Nothing, Okay)
      else if v.usedAt.Some? || v.expiresAt <= now then Decision(Nothing, BadRequest)
      else Decision(ConfirmEmail(found.value, now), Okay)
  }

  function DecideResendVerification(c: Config, s: State, email: string, token: string, now: int): (d: Decision)
    ensures Granted(s, d.change, now)
  {
    DecideReissue(c, s, IndexWhere(s.users, HasEmail(Canon(email))), token, now)
  }

  function DecideReissue(c: Config, s: State, found: Option<nat>, token: string, now: int): (d: Decision)
    requires found.Some? ==> found.value < |s.users|
    ensures Granted(s, d.change, now)
  {
    if found.None? || s.users[found.value].verified then Decision(Nothing, Okay)
    else if Exists(s.verifications, VerificationWith(token)) then Decision(Nothing, ServerError)
    else Decision(ReissueToken(found.value, token, now + c.verificationTtl, now), Okay)
  }

  function DecideCreateInvite(
      c: Config, s: State, actor: nat, email: string, role: Field<Role>, token: string, now: int): (d: Decision)
    ensures Granted(s, d.change, now)
  {
    if !IsAdmin(s, actor) then Decision(Nothing, Forbidden)
    else DecideInviteTo(c, s, s.users[actor].tenant, Canon(email), role, token, now)
  }

  function DecideInviteTo(
      c: Config, s: State, tenant: nat, e: string, role: Field<Role>, token: string, now: int): (d: Decision)
    requires HasUser(s, tenant)
    ensures Granted(s, d.change, now)
  {
    if e == "" || !role.Given? || Exists(s.users, HasEmail(e)) then Decision(Nothing, BadRequest)
    else if Exists(s.invites, PendingFor(tenant, e)) then Decision(Nothing, BadRequest)
    else if Exists(s.invites, InviteWith(token)) then Decision(Nothing, ServerError)
    else Decision(SendInvite(tenant, e, role.value, token, now + c.inviteTtl), Created)
  }

  /** An admin reaches the invites of the own tenant only. */
  predicate OwnInvite(s: State, actor: nat, i: nat) {
    actor < |s.users| && i < |s.invites| && s.invites[i].tenant == s.users[actor].tenant
  }

  function DecideResendInvite(c: Config, s: State, actor: nat, i: nat, token: string, now: int): (d: Decision)
    ensures Granted(s, d.change, now)
  {
    if !IsAdmin(s, actor) then Decision(Nothing, Forbidden)
    else if !OwnInvite(s, actor, i) then Decision(Nothing, NotFound)
    else if s.invites[i].status != Pending || s.invites[i].expiresAt <= now then Decision(Nothing, BadRequest)
    else if Exists(s.invites, InviteWith(token)) then Decision(Nothing, ServerError)
    else Decision(RenewInvite(i, token, now + c.inviteTtl), Okay)
  }

  function DecideRevokeInvite(s: State, actor: nat, i: nat, now: int): (d: Decision)
    ensures Granted(s, d.change, now)
  {
    if !IsAdmin(s, actor) then Decision(Nothing, Forbidden)
    else if !OwnInvite(s, actor, i) then Decision(Nothing, NotFound)
    else if s.invites[i].status != Pending || s.invites[i].expiresAt <= now then Decision(Nothing, BadRequest)
    else Decision(CloseInvite(i, Revoked), Okay)
  }

  function DecideViewInvite(s: State, token: string, now: int): (d: Decision)
    ensures Granted(s, d.change, now)
  {
    var found := IndexWhere(s.invites, InviteWith(Strip(token)));
    if Strip(token) == "" then Decision(Nothing, BadRequest)
    else if found.None? then Decision(Nothing, NotFound)
    else if s.invites[found.value].status != Pending then Decision(Nothing, Gone)
    else if s.invites[found.value].expiresAt < now then Decision(CloseInvite(found.value, Expired), Gone)
    else Decision(Nothing, Okay)
  }

  function DecideAcceptInvite(s: State, token: string, otherFieldsOk: bool, now: int): (d: Decision)
    ensures Granted(s, d.change, now)
  {
    if Strip(token) == "" || !otherFieldsOk then Decision(Nothing, BadRequest)
    else DecideJoin(s, IndexWhere(s.invites, InviteWith(Strip(token))), now)
  }

  function DecideJoin(s: State, found: Option<nat>, now: int): (d: Decision)
    requires found.Some? ==> found.value < |s.invites|
    ensures Granted(s, d.change, now)
  {
    if found.None? then Decision(Nothing, NotFound)
    else if s.invites[found.value].status != Pending then Decision(Nothing, Gone)
    else if s.invites[found.value].expiresAt < now then Decision(CloseInvite(found.value, Expired), Gone)
    else if Exists(s.users, HasEmail(s.invites[found.value].email)) then Decision(Nothing, BadRequest)
    else Decision(JoinTeam(found.value), Okay)
  }

  function DecidePatchMember(s: State, actor: nat, m: nat, role: Field<Role>, isActive: Field<bool>, now: int): (d: Decision)
    ensures Granted(s, d.change, now)
  {
    if !IsAdmin(s, actor) then Decision(Nothing, Forbidden)
    else if role.Bad? then Decision(Nothing, BadRequest)
    else if m >= |s.users| || s.users[m].tenant != s.users[actor].tenant then Decision(Nothing, NotFound)
    else if role.Omitted? && isActive.Omitted? then Decision(Nothing, Okay)
    else if isActive.Bad? then Decision(Nothing, BadRequest)
    else if !HasActiveAdmin(s.users[m := Patched(s.users[m], role, isActive)], s.users[m].tenant) then
      Decision(Nothing, BadRequest)
    else Decision(ChangeMember(m, role, isActive), Okay)
  }

  function Decide(c: Config, s: State, r: Request, now: int): (d: Decision)
    ensures Granted(s, d.change, now)
  {
    match r
    case Register(email, ok, token) => DecideRegister(c, s, email, ok, token, now)
    case VerifyEmail(email, token) => DecideVerify(s, email, token, now)
    case ResendVerification(email, token) => DecideResendVerification(c, s, email, token, now)
    case CreateInvite(actor, email, role, token) => DecideCreateInvite(c, s, actor, email, role, token, now)
    case ResendInvite(actor, i, token) => DecideResendInvite(c, s, actor, i, token, now)
    case RevokeInvite(actor, i) => DecideRevokeInvite(s, actor, i, now)
    case ViewInvite(token) => DecideViewInvite(s, token, now)
    case AcceptInvite(token, ok) => DecideAcceptInvite(s, token, ok, now)
    case PatchMember(actor, m, role, isActive) => DecidePatchMember(s, actor, m, role, isActive, now)
  }

  function Handle(c: Config, s: State, r: Request, now: int): State {
    Effect(s, Decide(c, s, r, now).change)
  }

  // ---------- what holds in every reachable state ----------

  ghost predicate UniqueEmails(s: State) {
    forall i, j :: 0 <= i < j < |s.users| ==> Lower(s.users[i].email) != Lower(s.users[j].email)
  }

  ghost predicate OnePendingPerAddress(s: State) {
    forall i, j :: 0 <= i < j < |s.invites| && s.invites[i].status == Pending && s.invites[j].status == Pending ==>
      s.invites[i].tenant != s.invites[j].tenant || Lower(s.invites[i].email) != Lower(s.invites[j].email)
  }

  predicate Joined(s: State, i: Invite, u: nat) {
    u < |s.users| && s.users[u].email == i.email && s.users[u].tenant == i.tenant
  }

  /** Accepted invites are linked to a user with their address and tenant; others to nobody. */
  ghost predicate AcceptedAreLinked(s: State) {
    forall i :: 0 <= i < |s.invites| ==>
      if s.invites[i].status == Accepted
      then s.invites[i].acceptedUser.Some? && Joined(s, s.invites[i], s.invites[i].acceptedUser.value)
      else s.invites[i].acceptedUser.None?
  }

  /** Every verification belongs to a user, and no user has two unused ones. */
  ghost predicate OneOpenVerification(s: State) {
    && (forall i :: 0 <= i < |s.verifications| ==> s.verifications[i].user < |s.users|)
    && (forall i, j :: 0 <= i < j < |s.verifications| ==>
          !(Open(s.verifications[i]) && Open(s.verifications[j]) && s.verifications[i].user == s.verifications[j].user))
  }

  ghost predicate UniqueTokens(s: State) {
    && (forall i, j :: 0 <= i < j < |s.invites| ==> s.invites[i].token != s.invites[j].token)
    && (forall i, j :: 0 <= i < j < |s.verifications| ==> s.verifications[i].token != s.verifications[j].token)
  }

  /** Users and invites belong to tenants that exist. */
  ghost predicate TenantsExist(s: State) {
    && (forall i :: 0 <= i < |s.users| ==> s.users[i].tenant < s.tenants)
    && (forall i :: 0 <= i < |s.invites| ==> s.invites[i].tenant < s.tenants)
  }

  ghost predicate Inv(s: State) {
    && UniqueEmails(s) && OnePendingPerAddress(s) && AcceptedAreLinked(s) && OneOpenVerification(s) && UniqueTokens(s)
    && TenantsExist(s)
  }

  lemma EffectKeepsEmails(s: State, ch: Change, now: int)
    requires UniqueEmails(s) && Granted(s, ch, now)
    ensures UniqueEmails(Effect(s, ch))
  {
    if ch.OpenAccount? || ch.JoinTeam? {
      var email := if ch.OpenAccount? then ch.email else s.invites[ch.i].email;
      forall i | 0 <= i < |s.users| ensures Lower(s.users[i].email) != Lower(email) {
        assert !HasEmail(email)(s.users[i]);
      }
    }
  }

  lemma EffectKeepsPending(s: State, ch: Change, now: int)
    requires OnePendingPerAddress(s) && Granted(s, ch, now)
    ensures OnePendingPerAddress(Effect(s, ch))
  {
    if ch.SendInvite? {
      forall i | 0 <= i < |s.invites| ensures !PendingFor(ch.tenant, ch.email)(s.invites[i]) {
      }
    }
  }

  lemma EffectKeepsLinks(s: State, ch: Change, now: int)
    requires AcceptedAreLinked(s) && Granted(s, ch, now)
    ensures AcceptedAreLinked(Effect(s, ch))
  {
    var s' := Effect(s, ch);
    forall i | 0 <= i < |s.invites| && s.invites[i].status == Accepted
      ensures Joined(s', s.invites[i], s.invites[i].acceptedUser.value)
    {
      assert Joined(s, s.invites[i], s.invites[i].acceptedUser.value);
    }
  }

  lemma EffectKeepsVerifications(s: State, ch: Change, now: int)
    requires OneOpenVerification(s) && Granted(s, ch, now)
    ensures OneOpenVerification(Effect(s, ch))
  {
  }

  lemma EffectKeepsTokens(s: State, ch: Change, now: int)
    requires UniqueTokens(s) && Granted(s, ch, now)
    ensures UniqueTokens(Effect(s, ch))
  {
    if ch.OpenAccount? || ch.ReissueToken? {
      forall i | 0 <= i < |s.verifications| ensures s.verifications[i].token != ch.token {
        assert !VerificationWith(ch.token)(s.verifications[i]);
      }
    } else if ch.SendInvite? || ch.RenewInvite? {
      forall i | 0 <= i < |s.invites| ensures s.invites[i].token != ch.token {
        assert !InviteWith(ch.token)(s.invites[i]);
      }
    }
  }

  lemma EffectKeepsTenants(s: State, ch: Change, now: int)
    requires TenantsExist(s) && Granted(s, ch, now)
    ensures TenantsExist(Effect(s, ch))
  {
  }

  lemma GrantedKeepsInv(s: State, ch: Change, now: int)
    requires Inv(s) && Granted(s, ch, now)
    ensures Inv(Effect(s, ch))
  {
    EffectKeepsEmails(s, ch, now);
    EffectKeepsPending(s, ch, now);
    EffectKeepsLinks(s, ch, now);
    EffectKeepsVerifications(s, ch, now);
    EffectKeepsTokens(s, ch, now);
    EffectKeepsTenants(s, ch, now);
  }

  lemma HandleKeepsInv(c: Config, s: State, r: Request, now: int)
    requires Inv(s)
    ensures Inv(Handle(c, s, r, now))
  {
    GrantedKeepsInv(s, Decide(c, s, r, now).change, now);
  }

  // ---------- what no request ever does ----------

  /** Nobody disappears, changes address or tenant, or becomes unverified again. */
  ghost predicate UsersGrow(s: State, s': State) {
    && |s.users| <= |s'.users|
    && forall u :: 0 <= u < |s.users| ==>
      && s'.users[u].email == s.users[u].email && s'.users[u].tenant == s.users[u].tenant
      && (s.users[u].verified ==> s'.users[u].verified)
  }

  /** A closed invite never changes again; a pending one keeps its tenant, address and role. */
  ghost predicate InvitesSettle(s: State, s': State) {
    && |s.invites| <= |s'.invites|
    && forall i :: 0 <= i < |s.invites| ==>
      && (s.invites[i].status != Pending ==> s'.invites[i] == s.invites[i])
      && s'.invites[i].tenant == s.invites[i].tenant && s'.invites[i].email == s.invites[i].email
      && s'.invites[i].role == s.invites[i].role
  }

  ghost predicate AdminsStay(s: State, s': State) {
    forall t :: HasActiveAdmin(s.users, t) ==> HasActiveAdmin(s'.users, t)
  }

  lemma EffectIsMonotone(s: State, ch: Change, now: int)
    requires Granted(s, ch, now)
    ensures UsersGrow(s, Effect(s, ch)) && InvitesSettle(s, Effect(s, ch))
  {
  }

  lemma EffectKeepsAdmins(s: State, ch: Change, now: int)
    requires Granted(s, ch, now)
    ensures AdminsStay(s, Effect(s, ch))
  {
    var s' := Effect(s, ch);
    forall t | HasActiveAdmin(s.users, t) ensures HasActiveAdmin(s'.users, t) {
      var i :| 0 <= i < |s.users| && ActiveAdminOf(s.users[i], t);
      if !(ch.ChangeMember? && ch.m == i) {
        assert ActiveAdminOf(s'.users[i], t);
      }
    }
  }

  lemma RegisteringUsesNoLink(c: Config, s: State, email: string, ok: bool, token: string, now: int)
    ensures var ch := DecideRegister(c, s, email, ok, token, now).change; !ch.CloseInvite? && !ch.ConfirmEmail?
  {
  }

  lemma VerifyingClosesNothing(s: State, email: string, token: string, now: int)
    ensures !DecideVerify(s, email, token, now).change.CloseInvite?
  {
  }

  lemma ResendingUsesNoLink(c: Config, s: State, email: string, token: string, now: int)
    ensures var ch := DecideResendVerification(c, s, email, token, now).change; !ch.CloseInvite? && !ch.ConfirmEmail?
  {
  }

  lemma OnlyInviteeRequestsExpire(c: Config, s: State, r: Request, now: int)
    ensures var ch := Decide(c, s, r, now).change;
      ch.CloseInvite? && ch.status == Expired ==> r.ViewInvite? || r.AcceptInvite?
  {
    match r
    case Register(email, ok, token) => RegisteringUsesNoLink(c, s, email, ok, token, now);
    case VerifyEmail(email, token) => VerifyingClosesNothing(s, email, token, now);
    case ResendVerification(email, token) => ResendingUsesNoLink(c, s, email, token, now);
    case _ =>
  }

  lemma ExpiryNeedsToken(s: State, token: string, ok: bool, now: int, i: nat)
    ensures DecideViewInvite(s, token, now).change == CloseInvite(i, Expired)
         || DecideAcceptInvite(s, token, ok, now).change == CloseInvite(i, Expired)
        ==> i < |s.invites| && Strip(token) == s.invites[i].token
  {
  }

  /** An invite that is pending past its expiry can only be closed by someone who presents its token. */
  lemma OverdueInviteNeedsItsToken(c: Config, s: State, r: Request, now: int, i: nat)
    requires i < |s.invites| && s.invites[i].status == Pending && s.invites[i].expiresAt < now
    ensures i < |Handle(c, s, r, now).invites|
    ensures Handle(c, s, r, now).invites[i] != s.invites[i] ==>
      && (r.ViewInvite? || r.AcceptInvite?) && Strip(r.token) == s.invites[i].token
      && Handle(c, s, r, now).invites[i] == s.invites[i].(status := Expired)
  {
    EffectIsMonotone(s, Decide(c, s, r, now).change, now);
    OnlyInviteeRequestsExpire(c, s, r, now);
    if r.ViewInvite? {
      ExpiryNeedsToken(s, r.token, true, now, i);
    } else if r.AcceptInvite? {
      ExpiryNeedsToken(s, r.token, r.otherFieldsOk, now, i);
    }
  }

  // ---------- becoming verified ----------

  predicate Confirms(v: Verification, token: string, email: string, now: int, u: nat) {
    v.user == u && VerificationFor(token, email)(v) && Open(v) && now < v.expiresAt
  }

  /** The request presents an unused, unexpired verification token of user u together with its address. */
  ghost predicate PresentsToken(s: State, r: Request, now: int, u: nat) {
    && r.VerifyEmail? && Strip(r.token) != "" && Canon(r.email) != ""
    && exists v :: v in s.verifications && Confirms(v, Strip(r.token), Canon(r.email), now, u)
  }

  /** Tokens being unique, a lookup finds the one row that can confirm. */
  lemma ConfirmingRowIsFound(vs: seq<Verification>, token: string, email: string, now: int, u: nat)
    requires forall i, j :: 0 <= i < j < |vs| ==> vs[i].token != vs[j].token
    ensures var found := IndexWhere(vs, VerificationFor(token, email));
      (exists v :: v in vs && Confirms(v, token, email, now, u)) <==>
        found.Some? && Confirms(vs[found.value], token, email, now, u)
  {
    if v :| v in vs && Confirms(v, token, email, now, u) {
      var k :| 0 <= k < |vs| && vs[k] == v;
      assert VerificationFor(token, email)(vs[k]);
    }
  }

  lemma ConfirmationNeedsFoundRow(s: State, wellFormed: bool, found: Option<nat>, now: int, u: nat)
    requires u < |s.users| && !s.users[u].verified
    requires found.Some? ==> found.value < |s.verifications|
    ensures var ch := DecideFound(s, wellFormed, found, now).change;
      (ch.ConfirmEmail? && s.verifications[ch.v].user == u) <==>
        && wellFormed && found.Some?
        && var v := s.verifications[found.value]; v.user == u && Open(v) && now < v.expiresAt
  {
  }

  lemma ConfirmedIffTokenPresented(s: State, email: string, token: string, now: int, u: nat)
    requires UniqueTokens(s) && u < |s.users| && !s.users[u].verified
    ensures var ch := DecideVerify(s, email, token, now).change;
      (ch.ConfirmEmail? && s.verifications[ch.v].user == u) <==> PresentsToken(s, VerifyEmail(email, token), now, u)
  {
    var t, e := Strip(token), Canon(email);
    var found := IndexWhere(s.verifications, VerificationFor(t, e));
    ConfirmationNeedsFoundRow(s, t != "" && e != "", found, now, u);
    ConfirmingRowIsFound(s.verifications, t, e, now, u);
  }

  lemma OnlyConfirmingVerifies(s: State, ch: Change, now: int, u: nat)
    requires Granted(s, ch, now) && u < |s.users| && !s.users[u].verified
    ensures Effect(s, ch).users[u].verified <==> ch.ConfirmEmail? && s.verifications[ch.v].user == u
  {
  }

  lemma OnlyVerifyRequestsConfirm(c: Config, s: State, r: Request, now: int)
    ensures Decide(c, s, r, now).change.ConfirmEmail? ==> r.VerifyEmail?
  {
    match r
    case Register(email, ok, token) => RegisteringUsesNoLink(c, s, email, ok, token, now);
    case ResendVerification(email, token) => ResendingUsesNoLink(c, s, email, token, now);
    case _ =>
  }

  /** An existing user becomes verified exactly by presenting such a token. */
  lemma VerifiedIffTokenPresented(c: Config, s: State, r: Request, now: int, u: nat)
    requires UniqueTokens(s) && u < |s.users| && !s.users[u].verified
    ensures u < |Handle(c, s, r, now).users|
    ensures Handle(c, s, r, now).users[u].verified <==> PresentsToken(s, r, now, u)
  {
    var ch := Decide(c, s, r, now).change;
    EffectIsMonotone(s, ch, now);
    OnlyConfirmingVerifies(s, ch, now, u);
    OnlyVerifyRequestsConfirm(c, s, r, now);
    if r.VerifyEmail? {
      ConfirmedIffTokenPresented(s, r.email, r.token, now, u);
    }
  }

  // ---------- whole runs ----------

  datatype Timed = Timed(request: Request, now: int)

  function Run(c: Config, s: State, rs: seq<Timed>): State {
    if rs == [] then s
    else Handle(c, Run(c, s, Front(rs)), Last(rs).request, Last(rs).now)
  }

  const EMPTY_DATABASE := State(0, [], [], [])

  lemma {:induction false} EveryRunKeepsInv(c: Config, s: State, rs: seq<Timed>)
    requires Inv(s)
    ensures Inv(Run(c, s, rs))
  {
    if rs == [] {
    } else {
      EveryRunKeepsInv(c, s, Front(rs));
      HandleKeepsInv(c, Run(c, s, Front(rs)), Last(rs).request, Last(rs).now);
    }
  }

  /** From an empty database every reachable state satisfies all of it. */
  lemma EveryReachableStateIsSound(c: Config, rs: seq<Timed>)
    ensures Inv(Run(c, EMPTY_DATABASE, rs))
  {
    EveryRunKeepsInv(c, EMPTY_DATABASE, rs);
  }

  /** Whatever happens after the n-th request: accounts, closed invites and active admins stay. */
  lemma {:induction false} RunsAreMonotone(c: Config, s: State, rs: seq<Timed>, n: nat)
    requires n <= |rs|
    ensures UsersGrow(Run(c, s, rs[..n]), Run(c, s, rs))
    ensures InvitesSettle(Run(c, s, rs[..n]), Run(c, s, rs))
    ensures AdminsStay(Run(c, s, rs[..n]), Run(c, s, rs))
  {
    if n == |rs| {
      assert rs[..n] == rs;
    } else {
      var f, before := Front(rs), Run(c, s, Front(rs));
      assert f[..n] == rs[..n];
      RunsAreMonotone(c, s, f, n);
      var ch := Decide(c, before, Last(rs).request, Last(rs).now).change;
      EffectIsMonotone(before, ch, Last(rs).now);
      EffectKeepsAdmins(before, ch, Last(rs).now);
      MonotoneChain(Run(c, s, rs[..n]), before, Run(c, s, rs));
    }
  }

  lemma MonotoneChain(a: State, b: State, d: State)
    requires UsersGrow(a, b) && UsersGrow(b, d) && InvitesSettle(a, b) && InvitesSettle(b, d)
    ensures UsersGrow(a, d) && InvitesSettle(a, d)
  {
    forall i | 0 <= i < |a.invites| ensures a.invites[i].status != Pending ==> d.invites[i] == a.invites[i] {
      assert b.invites[i].status != Pending ==> d.invites[i] == b.invites[i];
    }
  }

  /** Some request of the run presented a good token of user u. */
  ghost predicate TokenPresented(c: Config, s: State, rs: seq<Timed>, u: nat) {
    && rs != []
    && (TokenPresented(c, s, Front(rs), u)
        || PresentsToken(Run(c, s, Front(rs)), Last(rs).request, Last(rs).now, u))
  }

  lemma VerifiedStep(c: Config, s: State, r: Request, now: int, u: nat)
    requires Inv(s) && u < |s.users|
    ensures u < |Handle(c, s, r, now).users|
    ensures s.users[u].verified ==> Handle(c, s, r, now).users[u].verified
    ensures !s.users[u].verified ==> (Handle(c, s, r, now).users[u].verified <==> PresentsToken(s, r, now, u))
  {
    EffectIsMonotone(s, Decide(c, s, r, now).change, now);
    if !s.users[u].verified {
      VerifiedIffTokenPresented(c, s, r, now, u);
    }
  }

  /** Over a whole run an unverified user ends up verified exactly when some request presented a good token. */
  lemma {:induction false} VerifiedIffTokenPresentedDuringRun(c: Config, s: State, rs: seq<Timed>, u: nat)
    requires Inv(s) && u < |s.users| && !s.users[u].verified
    ensures u < |Run(c, s, rs).users|
    ensures Run(c, s, rs).users[u].verified <==> TokenPresented(c, s, rs, u)
  {
    if rs == [] {
    } else {
      VerifiedIffTokenPresentedDuringRun(c, s, Front(rs), u);
      EveryRunKeepsInv(c, s, Front(rs));
      VerifiedStep(c, Run(c, s, Front(rs)), Last(rs).request, Last(rs).now, u);
    }
  }

  lemma LinkedUserIsTheOnlyOne(s: State, i: nat)
    requires UniqueEmails(s) && AcceptedAreLinked(s)
    requires i < |s.invites| && s.invites[i].status == Accepted
    ensures s.invites[i].acceptedUser.Some?
    ensures forall u :: 0 <= u < |s.users| ==> (Joined(s, s.invites[i], u) <==> s.invites[i].acceptedUser == Some(u))
  {
    assert Joined(s, s.invites[i], s.invites[i].acceptedUser.value);
  }

  /** An accepted invite has exactly one user with its address and tenant: the one it is linked to. */
  lemma AcceptedInviteHasExactlyOneUser(c: Config, rs: seq<Timed>, i: nat)
    requires i < |Run(c, EMPTY_DATABASE, rs).invites| && Run(c, EMPTY_DATABASE, rs).invites[i].status == Accepted
    ensures var s := Run(c, EMPTY_DATABASE, rs);
      && s.invites[i].acceptedUser.Some?
      && forall u :: 0 <= u < |s.users| ==> (Joined(s, s.invites[i], u) <==> s.invites[i].acceptedUser == Some(u))
  {
    EveryReachableStateIsSound(c, rs);
    LinkedUserIsTheOnlyOne(Run(c, EMPTY_DATABASE, rs), i);
  }
}
