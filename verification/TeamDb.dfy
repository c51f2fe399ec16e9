/**
 The request handlers as they work on the tables in place (tenants/auth_views.py, tenants/team_views.py).
 Each handler's effect and answer are those of the decision functions in Team.
*/
module TeamDb {
  import opened Prelude
  import opened Text
  import opened Team

  class Database {
    var tenants: nat
    var users: seq<User>
    var invites: seq<Invite>
    var verifications: seq<Verification>

    constructor ()
      ensures Tables() == EMPTY_DATABASE
    {
      tenants, users, invites, verifications := 0, [], [], [];
    }

    function Tables(): State
      reads this
    {
      State(tenants, users, invites, verifications)
    }

    method PostRegister(c: Config, email: string, otherFieldsOk: bool, token: string, now: int) returns (reply: Reply)
      modifies this
      ensures var d := DecideRegister(c, old(Tables()), email, otherFieldsOk, token, now);
        Tables() == Effect(old(Tables()), d.change) && reply == d.reply
      ensures Inv(old(Tables())) ==> Inv(Tables())
    {
      DecisionKeepsInv(Tables(), DecideRegister(c, Tables(), email, otherFieldsOk, token, now).change, now);
      var address := Canon(email);
      if address == "" || !otherFieldsOk {
        return BadRequest;
      }
      if Exists(users, HasEmail(address)) {
        return BadRequest;
      }
      if Exists(verifications, VerificationWith(token)) {
        return ServerError;
      }
      var user := User(address, tenants, Admin, false, false);
      var verification := Verification(|users|, address, token, now + c.verificationTtl, None);
      AccountIsOpened(c, Tables(), address, token, now, user, verification);
      tenants := tenants + 1;
      users := users + [user];
      verifications := verifications + [verification];
      reply := Created;
    }

    method PostVerifyEmail(email: string, token: string, now: int) returns (reply: Reply)
      modifies this
      ensures var d := DecideVerify(old(Tables()), email, token, now);
        Tables() == Effect(old(Tables()), d.change) && reply == d.reply
      ensures Inv(old(Tables())) ==> Inv(Tables())
    {
      DecisionKeepsInv(Tables(), DecideVerify(Tables(), email, token, now).change, now);
      var presented, address := Strip(token), Canon(email);
      if presented == "" || address == "" {
        return BadRequest;
      }
      var found := IndexWhere(verifications, VerificationFor(presented, address));
      if found == None {
        return BadRequest;
      }
      var verification := verifications[found.value];
      if verification.user >= |users| {
        return ServerError;
      }
      if users[verification.user].verified {
        if verification.usedAt == None {
          verifications := verifications[found.value := verification.(usedAt := Some(now))];
        }
        return Okay;
      }
      if verification.usedAt != None || verification.expiresAt <= now {
        return BadRequest;
      }
      users := users[verification.user := users[verification.user].(verified := true, active := true)];
      verifications := verifications[found.value := verification.(usedAt := Some(now))];
      reply := Okay;
    }

    method PostResendVerification(c: Config, email: string, token: string, now: int) returns (reply: Reply)
      modifies this
      ensures var d := DecideResendVerification(c, old(Tables()), email, token, now);
        Tables() == Effect(old(Tables()), d.change) && reply == d.reply
      ensures Inv(old(Tables())) ==> Inv(Tables())
    {
      DecisionKeepsInv(Tables(), DecideResendVerification(c, Tables(), email, token, now).change, now);
      var found := IndexWhere(users, HasEmail(Canon(email)));
      if found.Some? && !users[found.value].verified {
        if Exists(verifications, VerificationWith(token)) {
          return ServerError;
        }
        var verification := Verification(found.value, users[found.value].email, token, now + c.verificationTtl, None);
        TokenIsReissued(c, Tables(), email, token, now, found.value, verification);
        verifications := MarkUsed(verifications, found.value, now);
        verifications := verifications + [verification];
      }
      reply := Okay;
    }

    method PostInvite(c: Config, actor: nat, email: string, role: Field<Role>, token: string, now: int)
      returns (reply: Reply)
      modifies this
      ensures var d := DecideCreateInvite(c, old(Tables()), actor, email, role, token, now);
        Tables() == Effect(old(Tables()), d.change) && reply == d.reply
      ensures Inv(old(Tables())) ==> Inv(Tables())
    {
      DecisionKeepsInv(Tables(), DecideCreateInvite(c, Tables(), actor, email, role, token, now).change, now);
      if actor >= |users| || users[actor].role != Admin {
        return Forbidden;
      }
      var address := Canon(email);
      if address == "" || !role.Given? {
        return BadRequest;
      }
      var tenant := users[actor].tenant;
      if Exists(users, HasEmail(address)) {
        return BadRequest;
      }
      if Exists(invites, PendingFor(tenant, address)) {
        return BadRequest;
      }
      if Exists(invites, InviteWith(token)) {
        return ServerError;
      }
      var invite := Invite(tenant, address, role.value, token, Pending, now + c.inviteTtl, None);
      assert HasUser(Tables(), tenant);
      InviteIsSent(c, Tables(), address, role, token, now, invite);
      invites := invites + [invite];
      reply := Created;
    }

    method PostResendInvite(c: Config, actor: nat, id: nat, token: string, now: int) returns (reply: Reply)
      modifies this
      ensures var d := DecideResendInvite(c, old(Tables()), actor, id, token, now);
        Tables() == Effect(old(Tables()), d.change) && reply == d.reply
      ensures Inv(old(Tables())) ==> Inv(Tables())
    {
      DecisionKeepsInv(Tables(), DecideResendInvite(c, Tables(), actor, id, token, now).change, now);
      if actor >= |users| || users[actor].role != Admin {
        return Forbidden;
      }
      if id >= |invites| || invites[id].tenant != users[actor].tenant {
        return NotFound;
      }
      if invites[id].status != Pending {
        return BadRequest;
      }
      if invites[id].expiresAt <= now {
        return BadRequest;
      }
      if Exists(invites, InviteWith(token)) {
        return ServerError;
      }
      invites := invites[id := invites[id].(token := token, expiresAt := now + c.inviteTtl)];
      reply := Okay;
    }

    method PostRevokeInvite(actor: nat, id: nat, now: int) returns (reply: Reply)
      modifies this
      ensures var d := DecideRevokeInvite(old(Tables()), actor, id, now);
        Tables() == Effect(old(Tables()), d.change) && reply == d.reply
      ensures Inv(old(Tables())) ==> Inv(Tables())
    {
      DecisionKeepsInv(Tables(), DecideRevokeInvite(Tables(), actor, id, now).change, now);
      if actor >= |users| || users[actor].role != Admin {
        return Forbidden;
      }
      if id >= |invites| || invites[id].tenant != users[actor].tenant {
        return NotFound;
      }
      if invites[id].status != Pending {
        return BadRequest;
      }
      if invites[id].expiresAt <= now {
        return BadRequest;
      }
      invites := invites[id := invites[id].(status := Revoked)];
      reply := Okay;
    }

    method GetAcceptInvite(token: string, now: int) returns (reply: Reply)
      modifies this
      ensures var d := DecideViewInvite(old(Tables()), token, now);
        Tables() == Effect(old(Tables()), d.change) && reply == d.reply
      ensures Inv(old(Tables())) ==> Inv(Tables())
    {
      DecisionKeepsInv(Tables(), DecideViewInvite(Tables(), token, now).change, now);
      if Strip(token) == "" {
        return BadRequest;
      }
      var found := IndexWhere(invites, InviteWith(Strip(token)));
      if found == None {
        return NotFound;
      }
      var invite := invites[found.value];
      if invite.status == Accepted || invite.status == Revoked || invite.status == Expired {
        return Gone;
      }
      if invite.expiresAt < now {
        invites := invites[found.value := invite.(status := Expired)];
        return Gone;
      }
      reply := Okay;
    }

    method PostAcceptInvite(token: string, otherFieldsOk: bool, now: int) returns (reply: Reply)
      modifies this
      ensures var d := DecideAcceptInvite(old(Tables()), token, otherFieldsOk, now);
        Tables() == Effect(old(Tables()), d.change) && reply == d.reply
      ensures Inv(old(Tables())) ==> Inv(Tables())
    {
      DecisionKeepsInv(Tables(), DecideAcceptInvite(Tables(), token, otherFieldsOk, now).change, now);
      if Strip(token) == "" || !otherFieldsOk {
        return BadRequest;
      }
      var found := IndexWhere(invites, InviteWith(Strip(token)));
      if found == None {
        return NotFound;
      }
      var invite := invites[found.value];
      if invite.status != Pending {
        return Gone;
      }
      if invite.expiresAt < now {
        invites := invites[found.value := invite.(status := Expired)];
        return Gone;
      }
      if Exists(users, HasEmail(invite.email)) {
        return BadRequest;
      }
      var user := |users|;
      users := users + [User(invite.email, invite.tenant, invite.role, true, true)];
      invites := invites[found.value := invite.(status := Accepted, acceptedUser := Some(user))];
      reply := Okay;
    }

    method PatchTeamMember(actor: nat, id: nat, role: Field<Role>, isActive: Field<bool>, now: int)
      returns (reply: Reply)
      modifies this
      ensures var d := DecidePatchMember(old(Tables()), actor, id, role, isActive, now);
        Tables() == Effect(old(Tables()), d.change) && reply == d.reply
      ensures Inv(old(Tables())) ==> Inv(Tables())
    {
      DecisionKeepsInv(Tables(), DecidePatchMember(Tables(), actor, id, role, isActive, now).change, now);
      if actor >= |users| || users[actor].role != Admin {
        return Forbidden;
      }
      if role.Bad? {
        return BadRequest;
      }
      if id >= |users| || users[id].tenant != users[actor].tenant {
        return NotFound;
      }
      if role.Omitted? && isActive.Omitted? {
        return Okay;
      }
      if isActive.Bad? {
        return BadRequest;
      }
      var member := users[id];
      var refused := WouldRemoveLastAdmin(users, users[actor].tenant, id, role, isActive);
      if refused {
        return BadRequest;
      }
      if role.Given? {
        member := member.(role := role.value);
      }
      if isActive.Given? {
        member := member.(active := isActive.value);
      }
      users := users[id := member];
      reply := Okay;
    }
  }

  lemma DecisionKeepsInv(s: State, ch: Change, now: int)
    requires Granted(s, ch, now)
    ensures Inv(s) ==> Inv(Effect(s, ch))
  {
    if Inv(s) {
      GrantedKeepsInv(s, ch, now);
    }
  }

  lemma InviteIsSent(
      c: Config, s: State, e: string, role: Field<Role>, token: string, now: int, invite: Invite)
    requires HasUser(s, invite.tenant) && role.Given? && e != ""
    requires invite == Invite(invite.tenant, e, role.value, token, Pending, now + c.inviteTtl, None)
    requires !Exists(s.users, HasEmail(invite.email)) && !Exists(s.invites, InviteWith(token))
    requires !Exists(s.invites, PendingFor(invite.tenant, invite.email))
    ensures var d := DecideInviteTo(c, s, invite.tenant, e, role, token, now);
      d.reply == Created && Effect(s, d.change) == s.(invites := s.invites + [invite])
  {
  }

  lemma TokenIsReissued(
      c: Config, s: State, email: string, token: string, now: int, user: nat, verification: Verification)
    requires IndexWhere(s.users, HasEmail(Canon(email))) == Some(user) && !s.users[user].verified
    requires verification == Verification(user, s.users[user].email, token, now + c.verificationTtl, None)
    requires !Exists(s.verifications, VerificationWith(token))
    ensures var d := DecideResendVerification(c, s, email, token, now);
      && d.reply == Okay
      && Effect(s, d.change) == s.(verifications := MarkUsed(s.verifications, user, now) + [verification])
  {
  }

  lemma AccountIsOpened(
      c: Config, s: State, e: string, token: string, now: int, user: User, verification: Verification)
    requires e != "" && user == User(e, s.tenants, Admin, false, false)
    requires verification == Verification(|s.users|, user.email, token, now + c.verificationTtl, None)
    requires !Exists(s.users, HasEmail(user.email)) && !Exists(s.verifications, VerificationWith(token))
    ensures var d := DecideAccount(c, s, e, true, token, now);
      && d.reply == Created
      && Effect(s, d.change) == s.(
           tenants := s.tenants + 1, users := s.users + [user], verifications := s.verifications + [verification])
  {
  }
}
