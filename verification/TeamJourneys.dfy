/** What a person can do with a link, across several requests (tenants/auth_views.py, tenants/team_views.py). */
module TeamJourneys {
  import opened Prelude
  import opened Text
  import opened Team

  /** token_urlsafe: not empty and without white space, so that trimming it on the way in changes nothing. */
  predicate IsToken(token: string) {
    token != "" && Trimmed(token)
  }

  lemma FoundLast<T>(s: seq<T>, x: T, p: T -> bool)
    requires p(x) && !Exists(s, p)
    ensures IndexWhere(s + [x], p) == Some(|s|)
  {
    var all := s + [x];
    assert all[|s|] == x;
    assert forall i :: 0 <= i < |s| ==> all[i] == s[i];
  }

  lemma NoneFound<T>(s: seq<T>, p: T -> bool)
    requires forall i :: 0 <= i < |s| ==> !p(s[i])
    ensures IndexWhere(s, p) == None
  {
  }

  // ---------- invites ----------

  lemma InvitedState(c: Config, s: State, actor: nat, email: string, role: Field<Role>, token: string, now: int)
    requires DecideCreateInvite(c, s, actor, email, role, token, now).reply == Created
    ensures Handle(c, s, CreateInvite(actor, email, role, token), now) == s.(invites := s.invites
      + [Invite(s.users[actor].tenant, Canon(email), role.value, token, Pending, now + c.inviteTtl, None)])
    ensures !Exists(s.users, HasEmail(Canon(email))) && !Exists(s.invites, InviteWith(token))
  {
    InvitedTo(c, s, s.users[actor].tenant, Canon(email), role, token, now);
  }

  lemma InvitedTo(c: Config, s: State, tenant: nat, e: string, role: Field<Role>, token: string, now: int)
    requires HasUser(s, tenant) && DecideInviteTo(c, s, tenant, e, role, token, now).reply == Created
    ensures role.Given? && Effect(s, DecideInviteTo(c, s, tenant, e, role, token, now).change) ==
      s.(invites := s.invites + [Invite(tenant, e, role.value, token, Pending, now + c.inviteTtl, None)])
    ensures !Exists(s.users, HasEmail(e)) && !Exists(s.invites, InviteWith(token))
  {
  }

  /** The token of a new invite leads to it. */
  lemma NewInviteIsFound(c: Config, s: State, actor: nat, email: string, role: Field<Role>, token: string, now: int)
    requires IsToken(token) && DecideCreateInvite(c, s, actor, email, role, token, now).reply == Created
    ensures var sent := Handle(c, s, CreateInvite(actor, email, role, token), now);
      && sent.users == s.users && |sent.invites| == |s.invites| + 1
      && IndexWhere(sent.invites, InviteWith(token)) == Some(|s.invites|)
      && sent.invites[|s.invites|] == Invite(
           s.users[actor].tenant, Canon(email), role.value, token, Pending, now + c.inviteTtl, None)
      && !Exists(sent.users, HasEmail(Canon(email)))
  {
    var invite := Invite(s.users[actor].tenant, Canon(email), role.value, token, Pending, now + c.inviteTtl, None);
    InvitedState(c, s, actor, email, role, token, now);
    FoundLast(s.invites, invite, InviteWith(token));
  }

  /**
   Whoever accepts an invite in time joins the inviting admin's tenant with the address and role of the
   invite, verified and active; and the link works once.
  */
  lemma InvitedPersonJoinsOnce(
      c: Config, s: State, actor: nat, email: string, role: Field<Role>, token: string, now: int, later: int)
    requires IsToken(token) && DecideCreateInvite(c, s, actor, email, role, token, now).reply == Created
    requires later <= now + c.inviteTtl
    ensures var sent := Handle(c, s, CreateInvite(actor, email, role, token), now);
      var joined := Handle(c, sent, AcceptInvite(token, true), later);
      && DecideAcceptInvite(sent, token, true, later).reply == Okay
      && joined.users == s.users + [User(Canon(email), s.users[actor].tenant, role.value, true, true)]
      && forall again :: DecideAcceptInvite(joined, token, true, again) == Decision(Nothing, Gone)
  {
    var sent := Handle(c, s, CreateInvite(actor, email, role, token), now);
    NewInviteIsFound(c, s, actor, email, role, token, now);
    AcceptingFoundInvite(c, sent, token, |s.invites|, later);
  }

  lemma AcceptingFoundInvite(c: Config, s: State, token: string, i: nat, now: int)
    requires IsToken(token) && IndexWhere(s.invites, InviteWith(token)) == Some(i)
    requires s.invites[i].status == Pending && now <= s.invites[i].expiresAt
    requires !Exists(s.users, HasEmail(s.invites[i].email))
    ensures DecideAcceptInvite(s, token, true, now).reply == Okay
    ensures var joined := Handle(c, s, AcceptInvite(token, true), now);
      && joined.users == s.users + [User(s.invites[i].email, s.invites[i].tenant, s.invites[i].role, true, true)]
      && forall again :: DecideAcceptInvite(joined, token, true, again) == Decision(Nothing, Gone)
  {
    var joined := Effect(s, JoinTeam(i));
    assert DecideAcceptInvite(s, token, true, now) == DecideJoin(s, Some(i), now);
    JoinKeepsLookup(s, token, i);
    forall again ensures DecideAcceptInvite(joined, token, true, again) == Decision(Nothing, Gone) {
      SpentLinkIsGone(joined, token, i, again);
    }
  }

  lemma JoinKeepsLookup(s: State, token: string, i: nat)
    requires IndexWhere(s.invites, InviteWith(token)) == Some(i)
    ensures var joined := Effect(s, JoinTeam(i));
      IndexWhere(joined.invites, InviteWith(token)) == Some(i) && joined.invites[i].status == Accepted
  {
    SameTokensSameLookup(s.invites, Effect(s, JoinTeam(i)).invites, token);
  }

  lemma SpentLinkIsGone(s: State, token: string, i: nat, now: int)
    requires IsToken(token) && IndexWhere(s.invites, InviteWith(token)) == Some(i)
    requires s.invites[i].status == Accepted
    ensures DecideAcceptInvite(s, token, true, now) == Decision(Nothing, Gone)
  {
  }

  lemma SameTokensSameLookup(a: seq<Invite>, b: seq<Invite>, token: string)
    requires |a| == |b| && forall k :: 0 <= k < |a| ==> a[k].token == b[k].token
    ensures IndexWhere(a, InviteWith(token)) == IndexWhere(b, InviteWith(token))
  {
    var x, y := IndexWhere(a, InviteWith(token)), IndexWhere(b, InviteWith(token));
    assert x.Some? ==> InviteWith(token)(b[x.value]);
    assert y.Some? ==> InviteWith(token)(a[y.value]);
  }

  lemma RenewedState(c: Config, s: State, actor: nat, i: nat, token: string, now: int)
    requires DecideResendInvite(c, s, actor, i, token, now).reply == Okay
    ensures i < |s.invites| && s.invites[i].status == Pending && !Exists(s.invites, InviteWith(token))
    ensures Handle(c, s, ResendInvite(actor, i, token), now) ==
      s.(invites := s.invites[i := s.invites[i].(token := token, expiresAt := now + c.inviteTtl)])
  {
  }

  lemma TokenReplaced(invites: seq<Invite>, i: nat, renewed: Invite)
    requires i < |invites| && !Exists(invites, InviteWith(renewed.token))
    requires forall j, k :: 0 <= j < k < |invites| ==> invites[j].token != invites[k].token
    ensures IndexWhere(invites[i := renewed], InviteWith(renewed.token)) == Some(i)
    ensures IndexWhere(invites[i := renewed], InviteWith(invites[i].token)) == None
  {
    var after := invites[i := renewed];
    forall k | 0 <= k < |invites| ensures invites[k].token != renewed.token {
      assert !InviteWith(renewed.token)(invites[k]);
    }
    assert InviteWith(renewed.token)(after[i]);
    NoneFound(after, InviteWith(invites[i].token));
  }

  /** Sending an invite again: the old link is dead and the new one leads to the same invite. */
  lemma ResendReplacesTheLink(c: Config, s: State, actor: nat, i: nat, token: string, now: int, later: int)
    requires UniqueTokens(s) && IsToken(token) && DecideResendInvite(c, s, actor, i, token, now).reply == Okay
    ensures var renewed := Handle(c, s, ResendInvite(actor, i, token), now);
      && IndexWhere(renewed.invites, InviteWith(token)) == Some(i)
      && IndexWhere(renewed.invites, InviteWith(s.invites[i].token)) == None
      && (later <= now + c.inviteTtl ==> DecideViewInvite(renewed, token, later) == Decision(Nothing, Okay))
  {
    RenewedState(c, s, actor, i, token, now);
    TokenReplaced(s.invites, i, s.invites[i].(token := token, expiresAt := now + c.inviteTtl));
  }

  // ---------- e-mail verification ----------

  /** The mailed token leads to the verification of the new account. */
  lemma NewVerificationIsFound(vs: seq<Verification>, v: Verification, email: string)
    requires !Exists(vs, VerificationWith(v.token)) && v.email == email
    ensures IndexWhere(vs + [v], VerificationFor(v.token, email)) == Some(|vs|)
  {
    var p := VerificationFor(v.token, email);
    forall k | 0 <= k < |vs| ensures !p(vs[k]) {
      assert !VerificationWith(v.token)(vs[k]);
    }
    NoneFound(vs, p);
    FoundLast(vs, v, p);
  }

  lemma RegisteredState(c: Config, s: State, email: string, token: string, now: int)
    requires DecideRegister(c, s, email, true, token, now).reply == Created
    ensures Handle(c, s, Register(email, true, token), now) == State(
      s.tenants + 1, s.users + [User(Canon(email), s.tenants, Admin, false, false)], s.invites,
      s.verifications + [Verification(|s.users|, Canon(email), token, now + c.verificationTtl, None)])
    ensures Canon(email) != "" && !Exists(s.verifications, VerificationWith(token))
  {
    OpenedAccount(c, s, Canon(email), token, now);
  }

  lemma OpenedAccount(c: Config, s: State, e: string, token: string, now: int)
    requires DecideAccount(c, s, e, true, token, now).reply == Created
    ensures Effect(s, DecideAccount(c, s, e, true, token, now).change) == State(
      s.tenants + 1, s.users + [User(e, s.tenants, Admin, false, false)], s.invites,
      s.verifications + [Verification(|s.users|, e, token, now + c.verificationTtl, None)])
    ensures e != "" && !Exists(s.verifications, VerificationWith(token))
  {
  }

  lemma ConfirmingFoundToken(s: State, i: nat, now: int)
    requires i < |s.verifications| && s.verifications[i].user < |s.users| && !s.users[s.verifications[i].user].verified
    requires Open(s.verifications[i]) && now < s.verifications[i].expiresAt
    ensures var u := s.verifications[i].user;
      Effect(s, DecideFound(s, true, Some(i), now).change).users
        == s.users[u := s.users[u].(verified := true, active := true)]
  {
  }

  /** Nobody belongs to the tenant: no user and no invite. */
  ghost predicate Unused(s: State, tenant: nat) {
    && (forall i :: 0 <= i < |s.users| ==> s.users[i].tenant != tenant)
    && (forall i :: 0 <= i < |s.invites| ==> s.invites[i].tenant != tenant)
  }

  /**
   Registering and then presenting the mailed token in time makes an active admin of a new tenant, one that
   nobody belonged to in any reachable state.
  */
  lemma RegisteredPersonBecomesAdmin(c: Config, s: State, email: string, token: string, now: int, later: int)
    requires IsToken(token) && DecideRegister(c, s, email, true, token, now).reply == Created
    requires later < now + c.verificationTtl
    ensures var registered := Handle(c, s, Register(email, true, token), now);
      var done := Handle(c, registered, VerifyEmail(email, token), later);
      && registered.users == s.users + [User(Canon(email), s.tenants, Admin, false, false)]
      && done.users == s.users + [User(Canon(email), s.tenants, Admin, true, true)]
      && HasActiveAdmin(done.users, s.tenants)
      && (Inv(s) ==> Unused(s, s.tenants))
  {
    var registered := Handle(c, s, Register(email, true, token), now);
    RegisteredState(c, s, email, token, now);
    NewVerificationIsFound(s.verifications, Last(registered.verifications), Canon(email));
    ConfirmingFoundToken(registered, |s.verifications|, later);
    assert DecideVerify(registered, email, token, later)
        == DecideFound(registered, true, Some(|s.verifications|), later);
    var done := Handle(c, registered, VerifyEmail(email, token), later);
    assert ActiveAdminOf(done.users[|s.users|], s.tenants);
  }

  /** After a resend no token but the new one can verify the account. */
  lemma ResendVoidsOlderTokens(
      c: Config, s: State, email: string, token: string, now: int, user: nat, request: Request, later: int)
    requires DecideResendVerification(c, s, email, token, now).change ==
      ReissueToken(user, token, now + c.verificationTtl, now)
    requires request.VerifyEmail?
    ensures var renewed := Handle(c, s, ResendVerification(email, token), now);
      PresentsToken(renewed, request, later, user) ==> Strip(request.token) == token && later < now + c.verificationTtl
  {
    var renewed := Handle(c, s, ResendVerification(email, token), now);
    var marked := MarkUsed(s.verifications, user, now);
    var issued := Verification(user, s.users[user].email, token, now + c.verificationTtl, None);
    assert renewed.verifications == marked + [issued];
    assert forall k :: 0 <= k < |marked| ==> !(marked[k].user == user && Open(marked[k]));
    assert forall v :: v in marked + [issued] ==> v in marked || v == issued;
  }

  // ---------- tenants are separate ----------

  predicate ByAdmin(r: Request) {
    r.CreateInvite? || r.ResendInvite? || r.RevokeInvite? || r.PatchMember?
  }

  /** Every row of another tenant is as it was, and the rows added belong to this one. */
  ghost predicate OnlyTouches(s: State, s': State, tenant: nat) {
    && s'.tenants == s.tenants && s'.verifications == s.verifications && |s'.users| == |s.users|
    && (forall i :: 0 <= i < |s.users| && s.users[i].tenant != tenant ==> s'.users[i] == s.users[i])
    && |s.invites| <= |s'.invites|
    && (forall i :: 0 <= i < |s.invites| && s.invites[i].tenant != tenant ==> s'.invites[i] == s.invites[i])
    && (forall i :: |s.invites| <= i < |s'.invites| ==> s'.invites[i].tenant == tenant)
  }

  /** The change is about rows of this tenant, and one of those an admin's request can cause. */
  predicate Within(s: State, ch: Change, tenant: nat) {
    match ch
    case Nothing => true
    case SendInvite(t, _, _, _, _) => t == tenant
    case RenewInvite(i, _, _) => i < |s.invites| && s.invites[i].tenant == tenant
    case CloseInvite(i, _) => i < |s.invites| && s.invites[i].tenant == tenant
    case ChangeMember(m, _, _) => m < |s.users| && s.users[m].tenant == tenant
    case _ => false
  }

  lemma ChangeWithinTouchesOnly(s: State, ch: Change, tenant: nat)
    requires Within(s, ch, tenant)
    ensures OnlyTouches(s, Effect(s, ch), tenant)
  {
  }

  lemma InvitingStaysWithin(c: Config, s: State, actor: nat, email: string, role: Field<Role>, token: string, now: int)
    requires actor < |s.users|
    ensures Within(s, DecideCreateInvite(c, s, actor, email, role, token, now).change, s.users[actor].tenant)
  {
  }

  lemma PatchingStaysWithin(s: State, actor: nat, m: nat, role: Field<Role>, isActive: Field<bool>, now: int)
    requires actor < |s.users|
    ensures Within(s, DecidePatchMember(s, actor, m, role, isActive, now).change, s.users[actor].tenant)
  {
  }

  lemma AdminDecidesWithin(c: Config, s: State, r: Request, now: int)
    requires ByAdmin(r) && r.actor < |s.users|
    ensures Within(s, Decide(c, s, r, now).change, s.users[r.actor].tenant)
  {
    match r
    case CreateInvite(actor, email, role, token) => InvitingStaysWithin(c, s, actor, email, role, token, now);
    case PatchMember(actor, m, role, isActive) => PatchingStaysWithin(s, actor, m, role, isActive, now);
    case _ =>
  }

  /** A request made as an admin touches rows of the admin's own tenant only; anybody else's changes nothing. */
  lemma AdminsStayInTheirTenant(c: Config, s: State, r: Request, now: int)
    requires ByAdmin(r)
    ensures IsAdmin(s, r.actor) ==> OnlyTouches(s, Handle(c, s, r, now), s.users[r.actor].tenant)
    ensures !IsAdmin(s, r.actor) ==> Handle(c, s, r, now) == s
  {
    if IsAdmin(s, r.actor) {
      AdminDecidesWithin(c, s, r, now);
      ChangeWithinTouchesOnly(s, Decide(c, s, r, now).change, s.users[r.actor].tenant);
    }
  }
}
