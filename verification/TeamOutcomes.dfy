/**
 When each request takes effect, and what it then does (tenants/auth_views.py, tenants/team_views.py). The
 invariants in Team bound what may happen; the results here say what does.
*/
module TeamOutcomes {
  import opened Prelude
  import opened Text
  import opened Team

  // ---------- lookups, told by what they find ----------

  ghost predicate EmailTaken(s: State, email: string) {
    exists u :: 0 <= u < |s.users| && Lower(s.users[u].email) == Lower(email)
  }

  ghost predicate InvitePending(s: State, tenant: nat, email: string) {
    exists i :: 0 <= i < |s.invites| && s.invites[i].tenant == tenant
      && Lower(s.invites[i].email) == Lower(email) && s.invites[i].status == Pending
  }

  ghost predicate InviteTokenTaken(s: State, token: string) {
    exists i :: 0 <= i < |s.invites| && s.invites[i].token == token
  }

  ghost predicate VerificationTokenTaken(s: State, token: string) {
    exists v :: 0 <= v < |s.verifications| && s.verifications[v].token == token
  }

  lemma ExistsIff<T>(s: seq<T>, p: T -> bool)
    ensures Exists(s, p) <==> exists i :: 0 <= i < |s| && p(s[i])
  {
  }

  lemma EmailLookup(s: State, email: string)
    ensures Exists(s.users, HasEmail(email)) <==> EmailTaken(s, email)
  {
    if EmailTaken(s, email) {
      var u :| 0 <= u < |s.users| && Lower(s.users[u].email) == Lower(email);
      assert HasEmail(email)(s.users[u]);
    }
  }

  lemma PendingLookup(s: State, tenant: nat, email: string)
    ensures Exists(s.invites, PendingFor(tenant, email)) <==> InvitePending(s, tenant, email)
  {
    if InvitePending(s, tenant, email) {
      var i :| 0 <= i < |s.invites| && s.invites[i].tenant == tenant
        && Lower(s.invites[i].email) == Lower(email) && s.invites[i].status == Pending;
      assert PendingFor(tenant, email)(s.invites[i]);
    }
  }

  lemma InviteTokenLookup(s: State, token: string)
    ensures Exists(s.invites, InviteWith(token)) <==> InviteTokenTaken(s, token)
  {
    if InviteTokenTaken(s, token) {
      var i :| 0 <= i < |s.invites| && s.invites[i].token == token;
      assert InviteWith(token)(s.invites[i]);
    }
  }

  lemma VerificationTokenLookup(s: State, token: string)
    ensures Exists(s.verifications, VerificationWith(token)) <==> VerificationTokenTaken(s, token)
  {
    if VerificationTokenTaken(s, token) {
      var v :| 0 <= v < |s.verifications| && s.verifications[v].token == token;
      assert VerificationWith(token)(s.verifications[v]);
    }
  }

  lemma InviteIndex(s: State, token: string, i: nat)
    requires UniqueTokens(s) && i < |s.invites| && s.invites[i].token == token
    ensures IndexWhere(s.invites, InviteWith(token)) == Some(i)
  {
    assert InviteWith(token)(s.invites[i]);
  }

  lemma NoInviteIndex(s: State, token: string)
    requires !InviteTokenTaken(s, token)
    ensures IndexWhere(s.invites, InviteWith(token)) == None
  {
    InviteTokenLookup(s, token);
  }

  // ---------- which request can cause which change ----------

  predicate CausedBy(ch: Change, r: Request) {
    match ch
    case Nothing => true
    case OpenAccount(_, _, _) => r.Register?
    case SpendToken(_, _) => r.VerifyEmail?
    case ConfirmEmail(_, _) => r.VerifyEmail?
    case ReissueToken(_, _, _, _) => r.ResendVerification?
    case SendInvite(_, _, _, _, _) => r.CreateInvite?
    case RenewInvite(_, _, _) => r.ResendInvite?
    case CloseInvite(_, status) =>
      (status == Revoked && r.RevokeInvite?) || (status == Expired && (r.ViewInvite? || r.AcceptInvite?))
    case JoinTeam(_) => r.AcceptInvite?
    case ChangeMember(_, _, _) => r.PatchMember?
  }

  lemma RegisterCauses(c: Config, s: State, email: string, ok: bool, token: string, now: int)
    ensures CausedBy(DecideRegister(c, s, email, ok, token, now).change, Register(email, ok, token))
  {
  }

  lemma VerifyCauses(s: State, email: string, token: string, now: int)
    ensures CausedBy(DecideVerify(s, email, token, now).change, VerifyEmail(email, token))
  {
  }

  lemma ResendCauses(c: Config, s: State, email: string, token: string, now: int)
    ensures CausedBy(DecideResendVerification(c, s, email, token, now).change, ResendVerification(email, token))
  {
  }

  lemma InviteCauses(c: Config, s: State, actor: nat, email: string, role: Field<Role>, token: string, now: int)
    ensures CausedBy(
      DecideCreateInvite(c, s, actor, email, role, token, now).change, CreateInvite(actor, email, role, token))
  {
  }

  lemma AcceptCauses(s: State, token: string, ok: bool, now: int)
    ensures CausedBy(DecideAcceptInvite(s, token, ok, now).change, AcceptInvite(token, ok))
  {
  }

  lemma PatchCauses(s: State, actor: nat, m: nat, role: Field<Role>, isActive: Field<bool>, now: int)
    ensures CausedBy(DecidePatchMember(s, actor, m, role, isActive, now).change, PatchMember(actor, m, role, isActive))
  {
  }

  lemma RequestsCause(c: Config, s: State, r: Request, now: int)
    ensures CausedBy(Decide(c, s, r, now).change, r)
  {
    match r
    case Register(email, ok, token) => RegisterCauses(c, s, email, ok, token, now);
    case VerifyEmail(email, token) => VerifyCauses(s, email, token, now);
    case ResendVerification(email, token) => ResendCauses(c, s, email, token, now);
    case CreateInvite(actor, email, role, token) => InviteCauses(c, s, actor, email, role, token, now);
    case AcceptInvite(token, ok) => AcceptCauses(s, token, ok, now);
    case PatchMember(actor, m, role, isActive) => PatchCauses(s, actor, m, role, isActive, now);
    case _ =>
  }

  // ---------- opening an account, sending an invite ----------

  /** The address may be registered: free, with the other fields in order and a fresh token. */
  ghost predicate MayOpen(s: State, e: string, ok: bool, token: string) {
    e != "" && ok && !EmailTaken(s, e) && !VerificationTokenTaken(s, token)
  }

  lemma OpenedIff(c: Config, s: State, e: string, ok: bool, token: string, now: int)
    ensures var d := DecideAccount(c, s, e, ok, token, now);
      && (d.reply == Created <==> MayOpen(s, e, ok, token))
      && Effect(s, d.change) ==
           if MayOpen(s, e, ok, token)
           then State(
             s.tenants + 1, s.users + [User(e, s.tenants, Admin, false, false)], s.invites,
             s.verifications + [Verification(|s.users|, e, token, now + c.verificationTtl, None)])
           else s
  {
    EmailLookup(s, e);
    VerificationTokenLookup(s, token);
  }

  /** An account is opened exactly for a free address, with all fields in order; otherwise nothing happens. */
  lemma AccountOpenedIff(c: Config, s: State, email: string, ok: bool, token: string, now: int)
    ensures var e := Canon(email);
      && (DecideRegister(c, s, email, ok, token, now).reply == Created <==> MayOpen(s, e, ok, token))
      && Handle(c, s, Register(email, ok, token), now) ==
           if MayOpen(s, e, ok, token)
           then State(
             s.tenants + 1, s.users + [User(e, s.tenants, Admin, false, false)], s.invites,
             s.verifications + [Verification(|s.users|, e, token, now + c.verificationTtl, None)])
           else s
  {
    OpenedIff(c, s, Canon(email), ok, token, now);
  }

  /** The address may be invited to the tenant: free, not invited there yet, with a role and a fresh token. */
  ghost predicate MayInvite(s: State, tenant: nat, e: string, role: Field<Role>, token: string) {
    && e != "" && role.Given?
    && !EmailTaken(s, e) && !InvitePending(s, tenant, e) && !InviteTokenTaken(s, token)
  }

  lemma InvitedIff(c: Config, s: State, tenant: nat, e: string, role: Field<Role>, token: string, now: int)
    requires HasUser(s, tenant)
    ensures var d := DecideInviteTo(c, s, tenant, e, role, token, now);
      && (d.reply == Created <==> MayInvite(s, tenant, e, role, token))
      && Effect(s, d.change) ==
           if MayInvite(s, tenant, e, role, token)
           then s.(invites := s.invites + [Invite(tenant, e, role.value, token, Pending, now + c.inviteTtl, None)])
           else s
  {
    EmailLookup(s, e);
    PendingLookup(s, tenant, e);
    InviteTokenLookup(s, token);
  }

  /** An invite is sent exactly by an admin, with a role, to an address that is free and not invited yet. */
  lemma InviteSentIff(c: Config, s: State, actor: nat, email: string, role: Field<Role>, token: string, now: int)
    requires IsAdmin(s, actor)
    ensures var tenant, e := s.users[actor].tenant, Canon(email);
      && (MayInvite(s, tenant, e, role, token) <==>
            DecideCreateInvite(c, s, actor, email, role, token, now).reply == Created)
      && Handle(c, s, CreateInvite(actor, email, role, token), now) ==
           if MayInvite(s, tenant, e, role, token)
           then s.(invites := s.invites + [Invite(tenant, e, role.value, token, Pending, now + c.inviteTtl, None)])
           else s
  {
    InvitedIff(c, s, s.users[actor].tenant, Canon(email), role, token, now);
  }

  /** Nobody but an admin gets anywhere with an admin's request. */
  lemma OthersAreForbidden(c: Config, s: State, r: Request, now: int)
    requires r.CreateInvite? || r.ResendInvite? || r.RevokeInvite? || r.PatchMember?
    ensures Decide(c, s, r, now) == Decision(Nothing, Forbidden) <==> !IsAdmin(s, r.actor)
  {
  }

  // ---------- what becomes of a pending invite ----------

  /** An admin of the invite's tenant asks for something to be done to it before it expires. */
  predicate AdminMay(s: State, actor: nat, i: nat, now: int) {
    && i < |s.invites| && s.invites[i].status == Pending && now < s.invites[i].expiresAt
    && actor < |s.users| && s.users[actor].role == Admin && s.users[actor].tenant == s.invites[i].tenant
  }

  /** Somebody presents the token of invite i. */
  predicate Presents(s: State, token: string, i: nat) {
    i < |s.invites| && Strip(token) != "" && Strip(token) == s.invites[i].token
  }

  /** A pending invite becomes revoked exactly when an admin of its tenant asks for it before it expires. */
  lemma RevokedIff(c: Config, s: State, r: Request, now: int, i: nat)
    requires i < |s.invites| && s.invites[i].status == Pending
    ensures var after := Handle(c, s, r, now).invites;
      i < |after| && (after[i].status == Revoked <==> r.RevokeInvite? && r.invite == i && AdminMay(s, r.actor, i, now))
  {
    RequestsCause(c, s, r, now);
  }

  /** What a revoke request does to the rest, and what it answers. */
  lemma RevokeOutcome(c: Config, s: State, actor: nat, i: nat, now: int)
    ensures var after := Handle(c, s, RevokeInvite(actor, i), now);
      && (DecideRevokeInvite(s, actor, i, now).reply == Okay <==> AdminMay(s, actor, i, now))
      && after == if AdminMay(s, actor, i, now)
                  then s.(invites := s.invites[i := s.invites[i].(status := Revoked)]) else s
  {
  }

  lemma DecideOnFound(s: State, token: string, i: nat, now: int)
    requires UniqueTokens(s) && Presents(s, token, i) && s.invites[i].status == Pending && s.invites[i].expiresAt < now
    ensures DecideViewInvite(s, token, now) == Decision(CloseInvite(i, Expired), Gone)
    ensures DecideAcceptInvite(s, token, true, now) == Decision(CloseInvite(i, Expired), Gone)
  {
    InviteIndex(s, Strip(token), i);
  }

  lemma ExpiringFinds(s: State, token: string, ok: bool, i: nat, now: int)
    requires DecideViewInvite(s, token, now).change == CloseInvite(i, Expired)
      || DecideAcceptInvite(s, token, ok, now).change == CloseInvite(i, Expired)
    ensures Presents(s, token, i) && s.invites[i].expiresAt < now
    ensures DecideAcceptInvite(s, token, ok, now).change == CloseInvite(i, Expired) ==> ok
  {
  }

  /** A pending invite becomes expired exactly when its token is presented, to view or accept it, after its expiry. */
  lemma ExpiredIff(c: Config, s: State, r: Request, now: int, i: nat)
    requires UniqueTokens(s) && i < |s.invites| && s.invites[i].status == Pending
    ensures var after := Handle(c, s, r, now).invites;
      i < |after| && (after[i].status == Expired <==>
        && (r.ViewInvite? || (r.AcceptInvite? && r.otherFieldsOk))
        && Presents(s, r.token, i) && s.invites[i].expiresAt < now)
  {
    RequestsCause(c, s, r, now);
    var ch := Decide(c, s, r, now).change;
    if ch == CloseInvite(i, Expired) {
      ExpiringFinds(s, r.token, r.AcceptInvite? && r.otherFieldsOk, i, now);
    } else if (r.ViewInvite? || (r.AcceptInvite? && r.otherFieldsOk))
        && Presents(s, r.token, i) && s.invites[i].expiresAt < now {
      DecideOnFound(s, r.token, i, now);
    }
  }

  predicate JoinAsked(s: State, r: Request, now: int, i: nat) {
    r.AcceptInvite? && r.otherFieldsOk && Presents(s, r.token, i) && now <= s.invites[i].expiresAt
  }

  lemma JoinFinds(s: State, token: string, ok: bool, i: nat, now: int)
    requires DecideAcceptInvite(s, token, ok, now).change == JoinTeam(i)
    ensures ok && Presents(s, token, i) && now <= s.invites[i].expiresAt && !Exists(s.users, HasEmail(s.invites[i].email))
  {
  }

  lemma FoundJoins(s: State, token: string, i: nat, now: int)
    requires UniqueTokens(s) && Presents(s, token, i) && s.invites[i].status == Pending && now <= s.invites[i].expiresAt
    ensures DecideAcceptInvite(s, token, true, now) ==
      if Exists(s.users, HasEmail(s.invites[i].email)) then Decision(Nothing, BadRequest) else Decision(JoinTeam(i), Okay)
  {
    InviteIndex(s, Strip(token), i);
  }

  /** A pending invite becomes accepted exactly when its token is presented in time and its address is still free. */
  lemma AcceptedIff(c: Config, s: State, r: Request, now: int, i: nat)
    requires UniqueTokens(s) && i < |s.invites| && s.invites[i].status == Pending
    ensures var after := Handle(c, s, r, now);
      && i < |after.invites|
      && (after.invites[i].status == Accepted <==> JoinAsked(s, r, now, i) && !EmailTaken(s, s.invites[i].email))
      && (after.invites[i].status == Accepted ==>
            && after.invites[i].acceptedUser == Some(|s.users|)
            && after.users == s.users + [User(s.invites[i].email, s.invites[i].tenant, s.invites[i].role, true, true)])
  {
    RequestsCause(c, s, r, now);
    EmailLookup(s, s.invites[i].email);
    var ch := Decide(c, s, r, now).change;
    if ch == JoinTeam(i) {
      JoinFinds(s, r.token, r.otherFieldsOk, i, now);
    } else if JoinAsked(s, r, now, i) {
      FoundJoins(s, r.token, i, now);
    }
  }

  /** A pending invite gets a new token exactly when an admin of its tenant asks for it before it expires. */
  lemma RenewedIff(c: Config, s: State, r: Request, now: int, i: nat)
    requires i < |s.invites| && s.invites[i].status == Pending
    ensures var after := Handle(c, s, r, now).invites;
      && i < |after|
      && (after[i].token != s.invites[i].token <==>
            r.ResendInvite? && r.invite == i && AdminMay(s, r.actor, i, now) && !InviteTokenTaken(s, r.token))
      && (after[i].token != s.invites[i].token ==>
            after[i] == s.invites[i].(token := r.token, expiresAt := now + c.inviteTtl))
  {
    RequestsCause(c, s, r, now);
    if r.ResendInvite? {
      InviteTokenLookup(s, r.token);
    }
  }

  /** The answers to a resend request. */
  lemma ResendOutcome(c: Config, s: State, actor: nat, i: nat, token: string, now: int)
    ensures var granted := AdminMay(s, actor, i, now) && !InviteTokenTaken(s, token);
      && (DecideResendInvite(c, s, actor, i, token, now).reply == Okay <==> granted)
      && (!granted ==> Handle(c, s, ResendInvite(actor, i, token), now) == s)
  {
    InviteTokenLookup(s, token);
  }

  /** Viewing shows an invite exactly if it is pending and not past its expiry. */
  lemma ViewOutcome(s: State, token: string, now: int)
    requires UniqueTokens(s)
    ensures DecideViewInvite(s, token, now).reply == Okay <==>
      exists i: nat :: Presents(s, token, i) && s.invites[i].status == Pending && now <= s.invites[i].expiresAt
  {
    if i: nat :| Presents(s, token, i) && s.invites[i].status == Pending && now <= s.invites[i].expiresAt {
      InviteIndex(s, Strip(token), i);
    } else if DecideViewInvite(s, token, now).reply == Okay {
      var i := IndexWhere(s.invites, InviteWith(Strip(token))).value;
      assert Presents(s, token, i);
    }
  }

  /** A closed invite's token joins nobody and changes nothing, in any state that can still come. */
  lemma ClosedInviteJoinsNobody(c: Config, s: State, rs: seq<Timed>, i: nat, token: string, ok: bool, now: int)
    requires Inv(s) && i < |s.invites| && s.invites[i].status != Pending && Presents(s, token, i)
    ensures var later := Run(c, s, rs);
      && i < |later.invites| && later.invites[i] == s.invites[i]
      && Handle(c, later, AcceptInvite(token, ok), now) == later && Handle(c, later, ViewInvite(token), now) == later
      && DecideViewInvite(later, token, now).reply == Gone
      && (ok ==> DecideAcceptInvite(later, token, ok, now).reply == Gone)
  {
    var later := Run(c, s, rs);
    assert rs[..0] == [] && Run(c, s, rs[..0]) == s;
    RunsAreMonotone(c, s, rs, 0);
    EveryRunKeepsInv(c, s, rs);
    ClosedIsGone(c, later, token, i, ok, now);
  }

  lemma ClosedIsGone(c: Config, s: State, token: string, i: nat, ok: bool, now: int)
    requires UniqueTokens(s) && Presents(s, token, i) && s.invites[i].status != Pending
    ensures DecideViewInvite(s, token, now) == Decision(Nothing, Gone)
    ensures DecideAcceptInvite(s, token, ok, now) == Decision(Nothing, if ok then Gone else BadRequest)
    ensures Handle(c, s, AcceptInvite(token, ok), now) == s && Handle(c, s, ViewInvite(token), now) == s
  {
    InviteIndex(s, Strip(token), i);
  }

  /** What an admin is told whose resend or revoke is refused. */
  lemma RefusedInviteRequests(c: Config, s: State, actor: nat, i: nat, token: string, now: int)
    requires IsAdmin(s, actor)
    ensures i >= |s.invites| || s.invites[i].tenant != s.users[actor].tenant ==>
      && DecideRevokeInvite(s, actor, i, now) == Decision(Nothing, NotFound)
      && DecideResendInvite(c, s, actor, i, token, now) == Decision(Nothing, NotFound)
    ensures i < |s.invites| && s.invites[i].tenant == s.users[actor].tenant && !AdminMay(s, actor, i, now) ==>
      && DecideRevokeInvite(s, actor, i, now) == Decision(Nothing, BadRequest)
      && DecideResendInvite(c, s, actor, i, token, now) == Decision(Nothing, BadRequest)
  {
  }

  /** What somebody is told who comes without a token, without the other fields, or with a token nobody knows. */
  lemma RefusedTokens(s: State, token: string, ok: bool, now: int)
    ensures Strip(token) == "" ==> DecideViewInvite(s, token, now) == Decision(Nothing, BadRequest)
    ensures Strip(token) == "" || !ok ==> DecideAcceptInvite(s, token, ok, now) == Decision(Nothing, BadRequest)
    ensures Strip(token) != "" && !InviteTokenTaken(s, Strip(token)) ==>
      && DecideViewInvite(s, token, now) == Decision(Nothing, NotFound)
      && (ok ==> DecideAcceptInvite(s, token, ok, now) == Decision(Nothing, NotFound))
  {
    if !InviteTokenTaken(s, Strip(token)) {
      NoInviteIndex(s, Strip(token));
    }
  }

  // ---------- members ----------

  /** The admin may patch the member this way: both in one tenant, the fields in order, an active admin left. */
  predicate PatchGranted(s: State, r: Request, m: nat) {
    && r.PatchMember? && r.member == m && m < |s.users| && r.actor < |s.users|
    && s.users[r.actor].role == Admin && s.users[r.actor].tenant == s.users[m].tenant
    && !r.role.Bad? && !r.isActive.Bad?
    && exists a :: 0 <= a < |s.users| && AdminAfter(s, r, m, a)
  }

  /** User a is an active admin of m's tenant once m has the role and the flag asked for. */
  predicate AdminAfter(s: State, r: Request, m: nat, a: nat)
    requires r.PatchMember? && m < |s.users| && a < |s.users|
  {
    && s.users[a].tenant == s.users[m].tenant
    && (if a == m && r.role.Given? then r.role.value == Admin else s.users[a].role == Admin)
    && (if a == m && r.isActive.Given? then r.isActive.value else s.users[a].active)
  }

  lemma AdminLeft(s: State, r: Request, m: nat)
    requires r.PatchMember? && m < |s.users|
    ensures HasActiveAdmin(s.users[m := Patched(s.users[m], r.role, r.isActive)], s.users[m].tenant) <==>
      exists a :: 0 <= a < |s.users| && AdminAfter(s, r, m, a)
  {
    var after := s.users[m := Patched(s.users[m], r.role, r.isActive)];
    forall a | 0 <= a < |s.users| ensures ActiveAdminOf(after[a], s.users[m].tenant) <==> AdminAfter(s, r, m, a) {
    }
  }

  lemma PatchDecidedIff(s: State, r: Request, m: nat, now: int)
    requires r.PatchMember? && r.member == m
    ensures var d := DecidePatchMember(s, r.actor, m, r.role, r.isActive, now);
      && (PatchGranted(s, r, m) && (r.role.Given? || r.isActive.Given?) <==> d.change == ChangeMember(m, r.role, r.isActive))
      && (d.change == Nothing || d.change == ChangeMember(m, r.role, r.isActive))
      && (d.change != Nothing ==> d.reply == Okay)
  {
    if m < |s.users| {
      AdminLeft(s, r, m);
    }
  }

  /** What an admin is told about a patch: unknown member, malformed field, nothing to do, or last admin. */
  lemma PatchReplies(s: State, r: Request, now: int)
    requires r.PatchMember? && IsAdmin(s, r.actor)
    ensures var reply := DecidePatchMember(s, r.actor, r.member, r.role, r.isActive, now).reply;
      var own := r.member < |s.users| && s.users[r.member].tenant == s.users[r.actor].tenant;
      && (r.role.Bad? ==> reply == BadRequest)
      && (!r.role.Bad? && !own ==> reply == NotFound)
      && (!r.role.Bad? && own && r.isActive.Bad? ==> reply == BadRequest)
      && (r.role.Omitted? && own && r.isActive.Omitted? ==> reply == Okay)
      && (!r.role.Bad? && own && !r.isActive.Bad? && (r.role.Given? || r.isActive.Given?) ==>
            reply == if PatchGranted(s, r, r.member) then Okay else BadRequest)
  {
    if r.member < |s.users| {
      AdminLeft(s, r, r.member);
    }
  }

  /**
   A member's role is the one given exactly when the patch is granted, and otherwise the one it was; so is the
   active flag, which besides only the member's own e-mail verification can raise.
  */
  lemma MemberPatchedIff(c: Config, s: State, r: Request, now: int, m: nat)
    requires Inv(s) && m < |s.users|
    ensures var after := Handle(c, s, r, now).users;
      && m < |after|
      && after[m].role == (if PatchGranted(s, r, m) && r.role.Given? then r.role.value else s.users[m].role)
      && after[m].active == (
           if PatchGranted(s, r, m) && r.isActive.Given? then r.isActive.value
           else s.users[m].active || (!s.users[m].verified && PresentsToken(s, r, now, m)))
  {
    RequestsCause(c, s, r, now);
    var ch := Decide(c, s, r, now).change;
    if r.PatchMember? {
      PatchDecidedIff(s, r, r.member, now);
      MemberAfter(s, ch, now, m);
    } else {
      MemberAfter(s, ch, now, m);
      ConfirmedIffPresented(c, s, r, now, m);
    }
  }

  /** What a change does to a member's role and active flag. */
  lemma MemberAfter(s: State, ch: Change, now: int, m: nat)
    requires Granted(s, ch, now) && m < |s.users|
    ensures var after := Effect(s, ch).users;
      && m < |after|
      && after[m].role == (if ch.ChangeMember? && ch.m == m && ch.newRole.Given? then ch.newRole.value else s.users[m].role)
      && after[m].active == (
           if ch.ChangeMember? && ch.m == m && ch.newIsActive.Given? then ch.newIsActive.value
           else s.users[m].active || (ch.ConfirmEmail? && s.verifications[ch.v].user == m))
  {
  }

  lemma ConfirmedIffPresented(c: Config, s: State, r: Request, now: int, m: nat)
    requires Inv(s) && m < |s.users|
    ensures var ch := Decide(c, s, r, now).change;
      ch.ConfirmEmail? && s.verifications[ch.v].user == m <==> !s.users[m].verified && PresentsToken(s, r, now, m)
  {
    RequestsCause(c, s, r, now);
    if r.VerifyEmail? {
      if s.users[m].verified {
        VerifiedIsNotConfirmed(s, r.email, r.token, now, m);
      } else {
        ConfirmedIffTokenPresented(s, r.email, r.token, now, m);
      }
    }
  }

  lemma VerifiedIsNotConfirmed(s: State, email: string, token: string, now: int, m: nat)
    requires m < |s.users| && s.users[m].verified
    ensures var ch := DecideVerify(s, email, token, now).change;
      !(ch.ConfirmEmail? && s.verifications[ch.v].user == m)
  {
  }

  // ---------- verification tokens ----------

  /** A new token is issued exactly for an unverified account of that address; the older ones are used up then. */
  lemma TokenReissuedIff(c: Config, s: State, email: string, token: string, now: int, u: nat)
    requires UniqueEmails(s) && u < |s.users| && Lower(s.users[u].email) == Lower(Canon(email))
    requires !s.users[u].verified && !VerificationTokenTaken(s, token)
    ensures var after := Handle(c, s, ResendVerification(email, token), now);
      && after == s.(verifications := after.verifications)
      && |after.verifications| == |s.verifications| + 1
      && Last(after.verifications) == Verification(u, s.users[u].email, token, now + c.verificationTtl, None)
      && (forall v :: 0 <= v < |s.verifications| ==>
            after.verifications[v] ==
              if s.verifications[v].user == u && s.verifications[v].usedAt.None?
              then s.verifications[v].(usedAt := Some(now)) else s.verifications[v])
  {
    assert HasEmail(Canon(email))(s.users[u]);
    assert IndexWhere(s.users, HasEmail(Canon(email))) == Some(u);
    ReissuedFor(c, s, u, token, now);
  }

  lemma ReissuedFor(c: Config, s: State, u: nat, token: string, now: int)
    requires u < |s.users| && !s.users[u].verified && !VerificationTokenTaken(s, token)
    ensures DecideReissue(c, s, Some(u), token, now) == Decision(ReissueToken(u, token, now + c.verificationTtl, now), Okay)
    ensures var after := Effect(s, ReissueToken(u, token, now + c.verificationTtl, now));
      && after == s.(verifications := after.verifications)
      && |after.verifications| == |s.verifications| + 1
      && Last(after.verifications) == Verification(u, s.users[u].email, token, now + c.verificationTtl, None)
      && (forall v :: 0 <= v < |s.verifications| ==>
            after.verifications[v] ==
              if s.verifications[v].user == u && s.verifications[v].usedAt.None?
              then s.verifications[v].(usedAt := Some(now)) else s.verifications[v])
  {
    VerificationTokenLookup(s, token);
  }

  /** Asked for by anybody else, a resend changes nothing, and the answer does not tell. */
  lemma NothingReissued(c: Config, s: State, email: string, token: string, now: int)
    requires forall u :: 0 <= u < |s.users| && Lower(s.users[u].email) == Lower(Canon(email)) ==> s.users[u].verified
    ensures DecideResendVerification(c, s, email, token, now) == Decision(Nothing, Okay)
  {
  }

  /** A token presented for an account that is verified already is used up, and answered with success. */
  lemma LateTokenIsSpent(s: State, email: string, token: string, now: int, v: nat)
    requires Inv(s) && v < |s.verifications| && Strip(token) != "" && Canon(email) != ""
    requires s.verifications[v].token == Strip(token) && Lower(s.verifications[v].email) == Lower(Canon(email))
    requires s.users[s.verifications[v].user].verified
    ensures var d := DecideVerify(s, email, token, now);
      && d.reply == Okay
      && Effect(s, d.change) == s.(verifications :=
           s.verifications[v := s.verifications[v].(usedAt :=
             if s.verifications[v].usedAt.None? then Some(now) else s.verifications[v].usedAt)])
  {
    assert VerificationFor(Strip(token), Canon(email))(s.verifications[v]);
    assert IndexWhere(s.verifications, VerificationFor(Strip(token), Canon(email))) == Some(v);
    assert s.verifications[v := s.verifications[v]] == s.verifications;
  }

  /** The token and address match a row that is good, or whose user is verified already. */
  ghost predicate Acceptable(s: State, token: string, email: string, now: int) {
    exists v :: 0 <= v < |s.verifications| && AcceptableRow(s, s.verifications[v], token, email, now)
  }

  predicate AcceptableRow(s: State, v: Verification, token: string, email: string, now: int) {
    v.token == token && Lower(v.email) == Lower(email) && Usable(s, v, now)
  }

  predicate Usable(s: State, v: Verification, now: int) {
    v.user < |s.users| && (s.users[v.user].verified || (v.usedAt.None? && now < v.expiresAt))
  }

  /** Success is reported exactly for such a token, and a refusal changes nothing. */
  lemma VerifyReplies(s: State, email: string, token: string, now: int)
    requires Inv(s)
    ensures var d, t, e := DecideVerify(s, email, token, now), Strip(token), Canon(email);
      && (d.reply == Okay <==> t != "" && e != "" && Acceptable(s, t, e, now))
      && (d.reply != Okay ==> d == Decision(Nothing, BadRequest))
  {
    var t, e := Strip(token), Canon(email);
    FoundIsAcceptable(s, t, e, now);
    RepliesToFound(s, t != "" && e != "", IndexWhere(s.verifications, VerificationFor(t, e)), now);
  }

  lemma FoundIsAcceptable(s: State, t: string, e: string, now: int)
    requires Inv(s)
    ensures var found := IndexWhere(s.verifications, VerificationFor(t, e));
      Acceptable(s, t, e, now) <==> found.Some? && AcceptableRow(s, s.verifications[found.value], t, e, now)
  {
    if Acceptable(s, t, e, now) {
      var v :| 0 <= v < |s.verifications| && AcceptableRow(s, s.verifications[v], t, e, now);
      assert VerificationFor(t, e)(s.verifications[v]);
      assert IndexWhere(s.verifications, VerificationFor(t, e)) == Some(v);
    }
  }

  lemma RepliesToFound(s: State, wellFormed: bool, found: Option<nat>, now: int)
    requires found.Some? ==> found.value < |s.verifications| && s.verifications[found.value].user < |s.users|
    ensures var d := DecideFound(s, wellFormed, found, now);
      && (d.reply == Okay <==> wellFormed && found.Some? && Usable(s, s.verifications[found.value], now))
      && (d.reply != Okay ==> d == Decision(Nothing, BadRequest))
  {
  }

  /** A good token is used up as it verifies its user, who may sign in from then on. */
  lemma GoodTokenConfirms(s: State, email: string, token: string, now: int, v: nat)
    requires Inv(s) && v < |s.verifications| && Strip(token) != "" && Canon(email) != ""
    requires s.verifications[v].token == Strip(token) && Lower(s.verifications[v].email) == Lower(Canon(email))
    requires !s.users[s.verifications[v].user].verified
    requires s.verifications[v].usedAt.None? && now < s.verifications[v].expiresAt
    ensures var d, u := DecideVerify(s, email, token, now), s.verifications[v].user;
      && d.reply == Okay
      && Effect(s, d.change) == s.(
           users := s.users[u := s.users[u].(verified := true, active := true)],
           verifications := s.verifications[v := s.verifications[v].(usedAt := Some(now))])
  {
    assert VerificationFor(Strip(token), Canon(email))(s.verifications[v]);
    assert IndexWhere(s.verifications, VerificationFor(Strip(token), Canon(email))) == Some(v);
  }
}
