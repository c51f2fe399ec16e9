/**
 Choosing and recording the primary Manago owner (tenants/manago_topology_service.py): one writer of
 the connector config and the readers that must agree with it. Encrypting and decrypting the stored
 config is taken to be the identity.
*/
module OwnerTopology {
  import opened Prelude
  import opened Text

  /** A config value where the source expects text. */
  datatype TextField = Absent | NotText | Text(s: string)

  datatype InScope = True | False | Unset

  datatype Account =
    | NotADict
    | Account(owner: TextField, inScope: InScope, classification: string, tag: string, shopDomain: Option<string>)

  datatype Topology = NoTopology | NoAccountList | Accounts(accounts: seq<Account>)

  /** other stands for every key the topology code does not touch. */
  datatype Config = Config(owner: TextField, ownerEmail: TextField, topology: Topology, other: nat)

  // ---------- reading the preferred owner ----------

  function UsableText(f: TextField): Option<string> {
    if f.Text? && Strip(f.s) != "" then Some(Strip(f.s)) else None
  }

  function FirstScoped(accounts: seq<Account>): Option<string> {
    if accounts == [] then None
    else
      var row := accounts[0];
      if row.NotADict? || row.inScope == False || UsableText(row.owner).None? then FirstScoped(accounts[1..])
      else UsableText(row.owner)
  }

  function PreferredOwner(c: Config): Option<string> {
    if UsableText(c.owner).Some? then UsableText(c.owner)
    else if UsableText(c.ownerEmail).Some? then UsableText(c.ownerEmail)
    else if c.topology.Accounts? then FirstScoped(c.topology.accounts)
    else None
  }

  predicate Usable(f: TextField) {
    f.Text? && Strip(f.s) != ""
  }

  /** The owner key goes before owner_email, and both before the accounts. */
  lemma PreferredOwnerOrder(c: Config)
    ensures Usable(c.owner) ==> PreferredOwner(c) == Some(Strip(c.owner.s))
    ensures !Usable(c.owner) && Usable(c.ownerEmail) ==> PreferredOwner(c) == Some(Strip(c.ownerEmail.s))
    ensures !Usable(c.owner) && !Usable(c.ownerEmail) && !c.topology.Accounts? ==> PreferredOwner(c) == None
  {
  }

  /** The account may name the preferred owner: it is not marked out of scope and has an owner. */
  predicate Eligible(a: Account) {
    a.Account? && a.inScope != False && Usable(a.owner)
  }

  lemma {:induction false} FirstScopedIsFirst(accounts: seq<Account>, i: nat)
    requires i <= |accounts| && (i < |accounts| ==> Eligible(accounts[i]))
    requires forall j :: 0 <= j < i ==> !Eligible(accounts[j])
    ensures FirstScoped(accounts) == if i < |accounts| then Some(Strip(accounts[i].owner.s)) else None
  {
    if i == 0 {
    } else {
      assert forall j :: 0 <= j < i - 1 ==> accounts[1..][j] == accounts[j + 1];
      FirstScopedIsFirst(accounts[1..], i - 1);
    }
  }

  /** Without the two keys, the first account that is eligible decides; i is its position, or the end. */
  lemma PreferredFromAccounts(c: Config, i: nat)
    requires !Usable(c.owner) && !Usable(c.ownerEmail) && c.topology.Accounts?
    requires var accounts := c.topology.accounts;
      && i <= |accounts| && (i < |accounts| ==> Eligible(accounts[i]))
      && (forall j :: 0 <= j < i ==> !Eligible(accounts[j]))
    ensures PreferredOwner(c) ==
      if i < |c.topology.accounts| then Some(Strip(c.topology.accounts[i].owner.s)) else None
  {
    FirstScopedIsFirst(c.topology.accounts, i);
  }

  // ---------- listing the owners ----------

  /** The lower-case forms of a list of owners. */
  function Keys(owners: seq<string>): set<string> {
    if owners == [] then {} else Keys(Front(owners)) + {Lower(Last(owners))}
  }

  predicate Known(owners: seq<string>, owner: string) {
    Lower(owner) in Keys(owners)
  }

  predicate SameOwner(a: string, b: string) {
    Lower(a) == Lower(b)
  }

  lemma {:induction false} KnownMeansListed(owners: seq<string>, owner: string)
    ensures Known(owners, owner) <==> exists j :: 0 <= j < |owners| && SameOwner(owners[j], owner)
  {
    if owners == [] {
    } else {
      var f := Front(owners);
      KnownMeansListed(f, owner);
      assert forall j :: 0 <= j < |f| ==> f[j] == owners[j];
      assert SameOwner(Last(owners), owner) <==> SameOwner(owners[|owners| - 1], owner);
      if Known(f, owner) {
        var j :| 0 <= j < |f| && SameOwner(f[j], owner);
        assert SameOwner(owners[j], owner);
      }
    }
  }

  /** A row of listByClient's users: a login, or a dict with up to three places for it. */
  datatype User = Login(TextField) | Profile(email: TextField, owner: TextField, login: TextField)

  predicate Truthy(f: TextField) {
    f.NotText? || (f.Text? && f.s != "")
  }

  function LoginOf(user: User): Option<string> {
    match user
    case Login(f) => UsableText(f)
    case Profile(email, owner, login) =>
      UsableText(if Truthy(email) then email else if Truthy(owner) then owner else login)
  }

  /** Of a dict the first of email, owner and login that is not empty counts, usable or not. */
  lemma LoginOfReads(f: TextField, email: TextField, owner: TextField, login: TextField)
    ensures LoginOf(Login(f)) == if Usable(f) then Some(Strip(f.s)) else None
    ensures Usable(email) ==> LoginOf(Profile(email, owner, login)) == Some(Strip(email.s))
    ensures Truthy(email) && !Usable(email) ==> LoginOf(Profile(email, owner, login)) == None
    ensures !Truthy(email) ==> LoginOf(Profile(email, owner, login)) == LoginOf(Profile(owner, login, Absent))
  {
  }

  /** The usable logins, in order. */
  function Logins(users: seq<User>): seq<string> {
    if users == [] then []
    else Logins(Front(users)) + if LoginOf(Last(users)).Some? then [LoginOf(Last(users)).value] else []
  }

  lemma {:induction false} LoginsAppend(a: seq<User>, b: seq<User>)
    ensures Logins(a + b) == Logins(a) + Logins(b)
  {
    if b == [] {
      assert a + b == a;
    } else {
      var f, last := Front(b), LoginOf(Last(b));
      assert Front(a + b) == a + f && Last(a + b) == Last(b);
      LoginsAppend(a, f);
      Associate(Logins(a), Logins(f), if last.Some? then [last.value] else []);
    }
  }

  lemma LoginsOfOne(user: User)
    ensures Logins([user]) == if LoginOf(user).Some? then [LoginOf(user).value] else []
  {
    assert Front([user]) == [];
  }

  /** Each owner once, ignoring case, in its first spelling. */
  function UniqueOwners(owners: seq<string>): seq<string> {
    if owners == [] then []
    else UniqueOwners(Front(owners)) + if Known(Front(owners), Last(owners)) then [] else [Last(owners)]
  }

  /** The owner is spelled like this where it is first listed. */
  ghost predicate FirstSpelled(owners: seq<string>, k: nat, owner: string) {
    k < |owners| && owners[k] == owner && forall m :: 0 <= m < k ==> !SameOwner(owners[m], owner)
  }

  lemma {:induction false} UniqueOwnersAreFirst(owners: seq<string>, j: nat) returns (k: nat)
    requires j < |UniqueOwners(owners)|
    ensures FirstSpelled(owners, k, UniqueOwners(owners)[j])
  {
    var f := Front(owners);
    if j < |UniqueOwners(f)| {
      k := UniqueOwnersAreFirst(f, j);
      assert forall m :: 0 <= m < |f| ==> f[m] == owners[m];
    } else {
      k := |f|;
      KnownMeansListed(f, Last(owners));
      assert forall m :: 0 <= m < |f| ==> f[m] == owners[m];
    }
  }

  /** They keep the order in which they were first listed. */
  lemma {:induction false} UniqueOwnersKeepOrder(owners: seq<string>, a: nat, b: nat, i: nat, j: nat)
    requires a < b < |UniqueOwners(owners)|
    requires FirstSpelled(owners, i, UniqueOwners(owners)[a]) && FirstSpelled(owners, j, UniqueOwners(owners)[b])
    ensures i < j
  {
    var f, r := Front(owners), UniqueOwners(Front(owners));
    var k := UniqueOwnersAreFirst(f, a);
    assert forall m :: 0 <= m < |f| ==> f[m] == owners[m];
    assert i <= k < |f|;
    if b < |r| {
      var l := UniqueOwnersAreFirst(f, b);
      assert j <= l < |f|;
      UniqueOwnersKeepOrder(f, a, b, i, j);
    } else {
      KnownMeansListed(f, Last(owners));
    }
  }

  /** The lower-case forms of the usable logins. */
  function LoginKeys(users: seq<User>): set<string> {
    if users == [] then {}
    else LoginKeys(Front(users)) + if LoginOf(Last(users)).Some? then {Lower(LoginOf(Last(users)).value)} else {}
  }

  /** Stripped, not empty, and no two of them differing in case only. */
  ghost predicate Listed(owners: seq<string>) {
    && (forall i :: 0 <= i < |owners| ==> Trimmed(owners[i]) && owners[i] != "")
    && (forall i, j :: 0 <= i < j < |owners| ==> !SameOwner(owners[i], owners[j]))
  }

  /** Each owner of the account once, ignoring case, ready for comparison. */
  method ListManagoOwners(users: seq<User>) returns (unique: seq<string>)
    ensures Listed(unique) && Keys(unique) == LoginKeys(users)
    ensures unique == UniqueOwners(Logins(users))
  {
    unique := [];
    var seen: set<string> := {};
    for i := 0 to |users|
      invariant unique == UniqueOwners(Logins(users[..i]))
      invariant seen == Keys(Logins(users[..i]))
    {
      var owner := LoginOf(users[i]);
      OneMoreLogin(users, i);
      if owner == None || Lower(owner.value) in seen {
        continue;
      }
      seen := seen + {Lower(owner.value)};
      unique := unique + [owner.value];
    }
    assert users[..|users|] == users;
    LoginsAreClean(users);
    UniqueOwnersAreListed(Logins(users));
  }

  lemma OneMoreLogin(users: seq<User>, i: nat)
    requires i < |users|
    ensures var sofar, now, login := Logins(users[..i]), Logins(users[..i + 1]), LoginOf(users[i]);
      && (login.None? ==> now == sofar)
      && (login.Some? ==>
            && Keys(now) == Keys(sofar) + {Lower(login.value)}
            && UniqueOwners(now) ==
                 if Lower(login.value) in Keys(sofar) then UniqueOwners(sofar) else UniqueOwners(sofar) + [login.value])
  {
    var sofar, login := Logins(users[..i]), LoginOf(users[i]);
    assert Front(users[..i + 1]) == users[..i] && Last(users[..i + 1]) == users[i];
    if login.Some? {
      assert Front(sofar + [login.value]) == sofar && Last(sofar + [login.value]) == login.value;
      assert UniqueOwners(sofar) + [] == UniqueOwners(sofar);
    } else {
      assert sofar + [] == sofar;
    }
  }

  ghost predicate AllClean(owners: seq<string>) {
    forall i :: 0 <= i < |owners| ==> Trimmed(owners[i]) && owners[i] != ""
  }

  lemma {:induction false} LoginsAreClean(users: seq<User>)
    ensures AllClean(Logins(users)) && Keys(Logins(users)) == LoginKeys(users)
  {
    if users == [] {
    } else {
      var f, login := Logins(Front(users)), LoginOf(Last(users));
      LoginsAreClean(Front(users));
      if login.Some? {
        assert Front(f + [login.value]) == f && Last(f + [login.value]) == login.value;
      } else {
        assert f + [] == f;
      }
    }
  }

  lemma {:induction false} UniqueOwnersAreListed(owners: seq<string>)
    requires AllClean(owners)
    ensures Listed(UniqueOwners(owners)) && Keys(UniqueOwners(owners)) == Keys(owners)
  {
    if owners == [] {
    } else {
      var f, unique := Front(owners), UniqueOwners(Front(owners));
      UniqueOwnersAreListed(f);
      assert unique + [] == unique;
      if !Known(f, Last(owners)) {
        ListedStep(unique, Last(owners));
      }
    }
  }

  lemma ListedStep(owners: seq<string>, owner: string)
    requires Listed(owners) && !Known(owners, owner) && Trimmed(owner) && owner != ""
    ensures Listed(owners + [owner]) && Keys(owners + [owner]) == Keys(owners) + {Lower(owner)}
  {
    assert Front(owners + [owner]) == owners;
    KnownMeansListed(owners, owner);
  }

  // ---------- writing the primary owner ----------

  /** The owners an apply writes about: the primary is put in front if nobody listed it. */
  function OwnersWith(owners: seq<string>, primary: string): seq<string> {
    if Known(owners, primary) then owners else [primary] + owners
  }

  /** The first listed spelling of the primary, or the primary as given. */
  function Display(owners: seq<string>, primary: string): (r: string)
    ensures SameOwner(r, primary)
    ensures r in owners || r == primary
  {
    if owners == [] then primary
    else if SameOwner(owners[0], primary) then owners[0]
    else Display(owners[1..], primary)
  }

  lemma {:induction false} DisplayIsFirstSpelling(owners: seq<string>, primary: string, k: nat)
    requires k < |owners| && SameOwner(owners[k], primary) && forall m :: 0 <= m < k ==> !SameOwner(owners[m], primary)
    ensures Display(owners, primary) == owners[k]
  {
    if k == 0 {
    } else {
      assert forall m :: 0 <= m < k - 1 ==> owners[1..][m] == owners[m + 1];
      DisplayIsFirstSpelling(owners[1..], primary, k - 1);
    }
  }

  lemma {:induction false} DisplayOfUnlisted(owners: seq<string>, primary: string)
    requires forall m :: 0 <= m < |owners| ==> !SameOwner(owners[m], primary)
    ensures Display(owners, primary) == primary
  {
    if owners == [] {
    } else {
      DisplayOfUnlisted(owners[1..], primary);
    }
  }

  function AccountFor(owner: string, primary: string, shop: Option<string>): Account {
    if SameOwner(owner, primary) then Account(Text(owner), True, "single_account", "primary", shop)
    else Account(Text(owner), False, "unknown", "out_of_scope", None)
  }

  /** One account per owner, first spelling first. */
  function AccountsFor(owners: seq<string>, primary: string, shop: Option<string>): seq<Account> {
    if owners == [] then []
    else
      var before := AccountsFor(Front(owners), primary, shop);
      if Known(Front(owners), Last(owners)) then before else before + [AccountFor(Last(owners), primary, shop)]
  }

  predicate Applicable(primaryOwner: string) {
    '@' in Strip(primaryOwner)
  }

  function WithPrimary(c: Config, display: string, accounts: seq<Account>): Config {
    c.(owner := Text(display), ownerEmail := Text(display), topology := Accounts(accounts))
  }

  function Applied(c: Config, primaryOwner: string, owners: seq<string>, shop: Option<string>): Config {
    var all := OwnersWith(owners, Strip(primaryOwner));
    var display := Display(all, Strip(primaryOwner));
    WithPrimary(c, display, AccountsFor(all, display, shop))
  }

  method CollectAccounts(owners: seq<string>, primary: string, shop: Option<string>) returns (accounts: seq<Account>)
    ensures accounts == AccountsFor(owners, primary, shop)
  {
    accounts := [];
    var seen: set<string> := {};
    for i := 0 to |owners|
      invariant accounts == AccountsFor(owners[..i], primary, shop)
      invariant seen == Keys(owners[..i])
    {
      assert Front(owners[..i + 1]) == owners[..i] && Last(owners[..i + 1]) == owners[i];
      var key := Lower(owners[i]);
      if key in seen {
        continue;
      }
      seen := seen + {key};
      accounts := accounts + [AccountFor(owners[i], primary, shop)];
    }
    assert owners[..|owners|] == owners;
  }

  method ApplyPrimaryOwner(c: Config, primaryOwner: string, allOwners: seq<string>, shop: Option<string>)
    returns (updated: Option<Config>)
    ensures updated == if Applicable(primaryOwner) then Some(Applied(c, primaryOwner, allOwners, shop)) else None
  {
    var primary := Strip(primaryOwner);
    if primary == "" || '@' !in primary {
      return None;
    }
    var owners := allOwners;
    if !Known(owners, primary) {
      owners := [primary] + owners;
    }
    var display := Display(owners, primary);
    var accounts := CollectAccounts(owners, display, shop);
    updated := Some(WithPrimary(c, display, accounts));
  }

  // ---------- what an applied config says ----------

  predicate Scoped(a: Account) {
    a.Account? && a.inScope == True
  }

  function AccountKey(a: Account): string {
    if a.Account? && a.owner.Text? then Lower(a.owner.s) else ""
  }

  ghost predicate KeyedOnce(accounts: seq<Account>) {
    forall i, j :: 0 <= i < j < |accounts| ==> AccountKey(accounts[i]) != AccountKey(accounts[j])
  }

  ghost predicate HasKey(accounts: seq<Account>, k: string) {
    exists i :: 0 <= i < |accounts| && AccountKey(accounts[i]) == k
  }

  lemma KeyStep(before: seq<Account>, a: Account)
    requires KeyedOnce(before) && !HasKey(before, AccountKey(a))
    ensures KeyedOnce(before + [a])
    ensures forall k :: HasKey(before + [a], k) <==> HasKey(before, k) || k == AccountKey(a)
  {
    var after := before + [a];
    assert after[|before|] == a;
    assert forall i :: 0 <= i < |before| ==> after[i] == before[i];
  }

  /** One account per key and no other, and in scope exactly if it is the primary's. */
  ghost predicate Covers(accounts: seq<Account>, keys: set<string>, primary: string) {
    && KeyedOnce(accounts)
    && (forall k :: HasKey(accounts, k) <==> k in keys)
    && (forall i :: 0 <= i < |accounts| ==> Scoped(accounts[i]) == (AccountKey(accounts[i]) == Lower(primary)))
  }

  lemma CoversStep(before: seq<Account>, a: Account, keys: set<string>, primary: string)
    requires Covers(before, keys, primary) && AccountKey(a) !in keys
    requires Scoped(a) == (AccountKey(a) == Lower(primary))
    ensures Covers(before + [a], keys + {AccountKey(a)}, primary)
  {
    KeyStep(before, a);
  }

  /** Each listed owner has exactly one account, ignoring case, and no account is for anybody else. */
  lemma {:induction false} OneAccountPerOwner(owners: seq<string>, primary: string, shop: Option<string>)
    ensures Covers(AccountsFor(owners, primary, shop), Keys(owners), primary)
  {
    if owners == [] {
    } else {
      var before, keys := AccountsFor(Front(owners), primary, shop), Keys(Front(owners));
      OneAccountPerOwner(Front(owners), primary, shop);
      if Known(Front(owners), Last(owners)) {
        assert Keys(owners) == keys;
      } else {
        CoversStep(before, AccountFor(Last(owners), primary, shop), keys, primary);
      }
    }
  }

  /** What is recorded for an owner: in scope and with the shop if it is the primary, else out of scope without. */
  predicate Describes(a: Account, owner: string, primary: string, shop: Option<string>) {
    && a.Account? && a.owner == Text(owner)
    && (SameOwner(owner, primary) ==>
          a.inScope == True && a.classification == "single_account" && a.tag == "primary" && a.shopDomain == shop)
    && (!SameOwner(owner, primary) ==>
          a.inScope == False && a.classification == "unknown" && a.tag == "out_of_scope" && a.shopDomain == None)
  }

  /** The accounts describe the owners, each in its first spelling, in the order they were listed. */
  lemma {:induction false} AccountsDescribeOwners(owners: seq<string>, primary: string, shop: Option<string>)
    ensures var accounts, unique := AccountsFor(owners, primary, shop), UniqueOwners(owners);
      |accounts| == |unique| && forall i :: 0 <= i < |unique| ==> Describes(accounts[i], unique[i], primary, shop)
  {
    if owners == [] {
    } else {
      AccountsDescribeOwners(Front(owners), primary, shop);
    }
  }

  /** All of the flags are down but one. */
  ghost predicate OnlyOne(flags: seq<bool>, i: int) {
    0 <= i < |flags| && forall j :: 0 <= j < |flags| ==> (flags[j] <==> j == i)
  }

  function ScopeFlags(accounts: seq<Account>): (r: seq<bool>)
    ensures |r| == |accounts| && forall i :: 0 <= i < |accounts| ==> r[i] == Scoped(accounts[i])
  {
    seq(|accounts|, i requires 0 <= i < |accounts| => Scoped(accounts[i]))
  }

  lemma PrimaryIsAmong(owners: seq<string>, primary: string)
    ensures Known(OwnersWith(owners, primary), primary)
  {
    if !Known(owners, primary) {
      var all := [primary] + owners;
      KnownMeansListed(all, primary);
      assert SameOwner(all[0], primary);
    }
  }

  /** Exactly one account is in scope: the primary owner's. */
  lemma ExactlyOneAccountInScope(c: Config, primaryOwner: string, owners: seq<string>, shop: Option<string>)
    ensures var accounts := Applied(c, primaryOwner, owners, shop).topology.accounts;
      exists i :: OnlyOne(ScopeFlags(accounts), i) && AccountKey(accounts[i]) == Lower(Strip(primaryOwner))
  {
    var primary := Strip(primaryOwner);
    var all := OwnersWith(owners, primary);
    var display := Display(all, primary);
    var accounts := AccountsFor(all, display, shop);
    PrimaryIsAmong(owners, primary);
    OneAccountPerOwner(all, display, shop);
    assert HasKey(accounts, Lower(primary));
    var i :| 0 <= i < |accounts| && AccountKey(accounts[i]) == Lower(primary);
    assert OnlyOne(ScopeFlags(accounts), i);
  }

  /** Reading back returns the primary owner, in the spelling the owner list gave it. */
  lemma PreferredOwnerReadsBack(c: Config, primaryOwner: string, owners: seq<string>, shop: Option<string>)
    requires Applicable(primaryOwner)
    ensures var read := PreferredOwner(Applied(c, primaryOwner, owners, shop));
      && read.Some? && SameOwner(read.value, Strip(primaryOwner))
      && (read.value in owners || read.value == Strip(primaryOwner))
      && Applied(c, primaryOwner, owners, shop).owner == Text(read.value)
    ensures Applied(c, primaryOwner, owners, shop).other == c.other
  {
    var primary := Strip(primaryOwner);
    var display := Display(OwnersWith(owners, primary), primary);
    TrimmedIgnoresCase(display, primary);
    assert |display| == |Lower(display)| == |primary|;
  }

  /**
   Everything an apply writes. The primary is spelled as the list first spells it, and otherwise put in front of
   the list as given; both owner keys hold that spelling, and the accounts describe the list.
  */
  lemma AppliedSays(c: Config, primaryOwner: string, owners: seq<string>, shop: Option<string>, k: nat)
    requires k <= |owners| && (k < |owners| ==> SameOwner(owners[k], Strip(primaryOwner)))
    requires forall m :: 0 <= m < k ==> !SameOwner(owners[m], Strip(primaryOwner))
    ensures var updated := Applied(c, primaryOwner, owners, shop);
      var spelled := if k < |owners| then owners[k] else Strip(primaryOwner);
      var unique := UniqueOwners(if k < |owners| then owners else [Strip(primaryOwner)] + owners);
      && updated.owner == Text(spelled) && updated.ownerEmail == Text(spelled) && updated.other == c.other
      && updated.topology.Accounts? && |updated.topology.accounts| == |unique|
      && forall i :: 0 <= i < |unique| ==> Describes(updated.topology.accounts[i], unique[i], spelled, shop)
  {
    var primary := Strip(primaryOwner);
    var all := OwnersWith(owners, primary);
    KnownMeansListed(owners, primary);
    if k < |owners| {
      DisplayIsFirstSpelling(owners, primary, k);
    } else {
      DisplayIsFirstSpelling([primary] + owners, primary, 0);
    }
    AccountsDescribeOwners(all, Display(all, primary), shop);
  }

  // ---------- the status shown for selection ----------

  datatype Status = Status(
    primaryFlags: seq<bool>, primaryOwner: Option<string>, needsPrimarySelection: bool, topologyConfigured: bool)

  function Flags(owners: seq<string>, primary: Option<string>): (r: seq<bool>)
    ensures |r| == |owners|
    ensures forall i :: 0 <= i < |owners| ==> r[i] == (primary.Some? && SameOwner(owners[i], primary.value))
  {
    seq(|owners|, i requires 0 <= i < |owners| => primary.Some? && SameOwner(owners[i], primary.value))
  }

  function TopologyStatus(c: Config, owners: seq<string>): Status {
    var primary := PreferredOwner(c);
    var known := primary.Some? && Known(owners, primary.value);
    Status(Flags(owners, primary), primary, |owners| > 1 && !known, known && !c.topology.NoTopology?)
  }

  predicate NamesLiveOwner(live: seq<string>, owner: Option<string>) {
    owner.Some? && exists j :: 0 <= j < |live| && SameOwner(live[j], owner.value)
  }

  /** The status of any config: what it prefers, whether that is live, and whether there is a choice to make. */
  lemma StatusSays(c: Config, live: seq<string>)
    ensures var s, preferred := TopologyStatus(c, live), PreferredOwner(c);
      && s.primaryOwner == preferred
      && (s.needsPrimarySelection <==> |live| > 1 && !NamesLiveOwner(live, preferred))
      && (s.topologyConfigured <==> NamesLiveOwner(live, preferred) && !c.topology.NoTopology?)
      && |s.primaryFlags| == |live|
      && (forall i :: 0 <= i < |live| ==> s.primaryFlags[i] == (preferred.Some? && SameOwner(live[i], preferred.value)))
  {
    if PreferredOwner(c).Some? {
      KnownMeansListed(live, PreferredOwner(c).value);
    }
  }

  /** Of the live owners, the one the primary names is flagged and no other. */
  lemma ExactlyOneOwnerFlagged(live: seq<string>, primary: string)
    requires Listed(live) && Known(live, primary)
    ensures exists i :: OnlyOne(Flags(live, Some(primary)), i)
  {
    KnownMeansListed(live, primary);
    var i :| 0 <= i < |live| && SameOwner(live[i], primary);
    var flags := Flags(live, Some(primary));
    forall j | 0 <= j < |live| ensures flags[j] <==> j == i {
      assert j < i ==> !SameOwner(live[j], live[i]);
      assert i < j ==> !SameOwner(live[i], live[j]);
    }
    assert OnlyOne(flags, i);
  }

  /**
   After an apply, the status read against the owners live by then asks for a selection exactly when there
   are several and the primary is not one of them, and it calls the topology configured exactly when it is.
  */
  lemma SelectionSettledIffPrimaryIsLive(
      c: Config, primaryOwner: string, owners: seq<string>, shop: Option<string>, live: seq<string>)
    requires Applicable(primaryOwner) && Listed(live)
    ensures var s := TopologyStatus(Applied(c, primaryOwner, owners, shop), live);
      && (s.needsPrimarySelection <==> |live| > 1 && !Known(live, Strip(primaryOwner)))
      && (s.topologyConfigured <==> Known(live, Strip(primaryOwner)))
      && (Known(live, Strip(primaryOwner)) ==> exists i :: OnlyOne(s.primaryFlags, i))
  {
    PreferredOwnerReadsBack(c, primaryOwner, owners, shop);
    var read := PreferredOwner(Applied(c, primaryOwner, owners, shop)).value;
    if Known(live, read) {
      ExactlyOneOwnerFlagged(live, read);
    }
  }

  // ---------- inferring the owner from the shop ----------

  const NOISE_SUFFIXES: set<string> := {"dev", "staging", "test", "shop", "store"}

  function SplitOn(s: string, sep: char): (parts: seq<string>)
    ensures parts != [] && forall p :: p in parts ==> sep !in p
  {
    if s == "" then [""]
    else
      var parts := SplitOn(s[1..], sep);
      if s[0] == sep then [""] + parts else [[s[0]] + parts[0]] + parts[1..]
  }

  function Join(parts: seq<string>, sep: char): string
    requires parts != []
  {
    if |parts| == 1 then parts[0] else parts[0] + [sep] + Join(parts[1..], sep)
  }

  /** Splitting loses nothing; together with the parts being free of the separator that fixes it. */
  lemma {:induction false} SplitJoins(s: string, sep: char)
    ensures Join(SplitOn(s, sep), sep) == s
  {
    if s == "" {
    } else {
      var parts := SplitOn(s[1..], sep);
      SplitJoins(s[1..], sep);
      if s[0] == sep {
        assert ([""] + parts)[1..] == parts;
        assert [s[0]] + s[1..] == s;
      } else {
        var all := [[s[0]] + parts[0]] + parts[1..];
        assert all[1..] == parts[1..];
        if |parts| > 1 {
          var rest := Join(parts[1..], sep);
          assert ([s[0]] + parts[0]) + [sep] + rest == [s[0]] + (parts[0] + [sep] + rest);
        }
        assert [s[0]] + s[1..] == s;
      }
    }
  }

  function Hyphenated(s: string): (r: string)
    ensures |r| == |s| && forall i :: 0 <= i < |s| ==> r[i] == if s[i] == '_' then '-' else s[i]
  {
    if s == "" then "" else [if s[0] == '_' then '-' else s[0]] + Hyphenated(s[1..])
  }

  predicate OccursAt(s: string, part: string, i: nat) {
    i + |part| <= |s| && s[i..i + |part|] == part
  }

  predicate Contains(s: string, part: string) {
    exists i :: 0 <= i <= |s| && OccursAt(s, part, i)
  }

  function IsToken(): string -> bool {
    (t: string) => t != "" && t !in NOISE_SUFFIXES
  }

  function ShopSlugTokens(shop: string): (tokens: seq<string>)
    ensures tokens != []
  {
    var slug := SplitOn(Lower(Strip(shop)), '.')[0];
    var tokens := Filter(SplitOn(Hyphenated(slug), '-'), IsToken());
    if tokens != [] then tokens else [SplitOn(slug, '-')[0]]
  }

  /** The shop's name: the first label of its domain, stripped and in lower case. */
  function ShopName(shop: string): string {
    SplitOn(Lower(Strip(shop)), '.')[0]
  }

  predicate Telling(shop: string, t: string) {
    t in SplitOn(Hyphenated(ShopName(shop)), '-') && t != "" && t !in NOISE_SUFFIXES
  }

  /** The tokens are the telling pieces of the shop's name; if there are none, what stands before its first hyphen. */
  lemma TokensOfShop(shop: string, t: string)
    ensures (exists x :: Telling(shop, x)) ==> (t in ShopSlugTokens(shop) <==> Telling(shop, t))
    ensures !(exists x :: Telling(shop, x)) ==> (t in ShopSlugTokens(shop) <==> t == SplitOn(ShopName(shop), '-')[0])
  {
    var tokens := Filter(SplitOn(Hyphenated(ShopName(shop)), '-'), IsToken());
    assert forall x :: x in tokens <==> Telling(shop, x);
    assert tokens != [] ==> tokens[0] in tokens;
  }

  predicate ContainsToken(local: string, tokens: seq<string>) {
    exists t :: t in tokens && Contains(local, t)
  }

  /** The owner's local part contains a token of the shop's name. */
  predicate Matches(owner: string, shop: string) {
    ContainsToken(Lower(SplitOn(owner, '@')[0]), ShopSlugTokens(shop))
  }

  function MatchesShop(shop: string): string -> bool {
    (owner: string) => Matches(owner, shop)
  }

  function InferPrimary(owners: seq<string>, shop: Option<string>): (r: Option<string>)
    ensures r.Some? ==> r.value in owners
  {
    if |owners| <= 1 || shop.None? || shop.value == "" then None
    else
      var matches := Filter(owners, MatchesShop(shop.value));
      if |matches| == 1 then
        assert matches[0] in matches;
        Some(matches[0])
      else None
  }

  /** An owner matches if some token of the shop's name stands in the local part of its address, ignoring case. */
  lemma MatchesIff(owner: string, shop: string)
    ensures MatchesShop(shop)(owner) <==>
      exists t :: t in ShopSlugTokens(shop) && Contains(Lower(SplitOn(owner, '@')[0]), t)
  {
  }

  /** The i-th element satisfies p and no other does. */
  ghost predicate OnlyAt<T(!new)>(s: seq<T>, p: T -> bool, i: int) {
    0 <= i < |s| && forall j :: 0 <= j < |s| ==> (p(s[j]) <==> j == i)
  }

  lemma {:induction false} FilterLeavesOne<T(!new)>(s: seq<T>, p: T -> bool, x: T)
    ensures Filter(s, p) == [x] <==> exists i :: OnlyAt(s, p, i) && s[i] == x
  {
    if s == [] {
    } else {
      var f := Front(s);
      FilterLeavesOne(f, p, x);
      assert Filter(s, p) == Filter(f, p) + if p(Last(s)) then [Last(s)] else [];
      if p(Last(s)) {
        LastOfOnly(s, p, x);
      } else {
        FrontOfOnly(s, p, x);
      }
    }
  }

  lemma FrontOfOnly<T(!new)>(s: seq<T>, p: T -> bool, x: T)
    requires s != [] && !p(Last(s))
    ensures (exists i :: OnlyAt(s, p, i) && s[i] == x) <==> exists i :: OnlyAt(Front(s), p, i) && Front(s)[i] == x
  {
    forall i ensures OnlyAt(s, p, i) <==> OnlyAt(Front(s), p, i) {
      assert forall j :: 0 <= j < |Front(s)| ==> Front(s)[j] == s[j];
    }
  }

  lemma NoneLeft<T(!new)>(s: seq<T>, p: T -> bool)
    requires forall x :: x in s ==> !p(x)
    ensures Filter(s, p) == []
  {
    assert forall x :: x !in Filter(s, p);
  }

  lemma LastOfOnly<T(!new)>(s: seq<T>, p: T -> bool, x: T)
    requires s != [] && p(Last(s))
    ensures Filter(Front(s), p) + [Last(s)] == [x] <==> exists i :: OnlyAt(s, p, i) && s[i] == x
  {
    var f := Front(s);
    if Filter(f, p) + [Last(s)] == [x] {
      assert |Filter(f, p)| == 0 && (Filter(f, p) + [Last(s)])[|Filter(f, p)|] == x;
      assert forall j :: 0 <= j < |f| ==> f[j] in f && f[j] == s[j];
      assert OnlyAt(s, p, |s| - 1);
    }
    if i :| OnlyAt(s, p, i) && s[i] == x {
      assert i == |s| - 1;
      assert forall y :: y in f ==> !p(y);
      NoneLeft(f, p);
    }
  }

  /** An owner is inferred exactly when there are several and it is the only one to match the shop's name. */
  lemma InferredIffOnlyMatch(owners: seq<string>, shop: Option<string>, owner: string)
    ensures InferPrimary(owners, shop) == Some(owner) <==>
      && |owners| > 1 && shop.Some? && shop.value != ""
      && exists i :: OnlyAt(owners, MatchesShop(shop.value), i) && owners[i] == owner
  {
    if |owners| > 1 && shop.Some? && shop.value != "" {
      var matches := Filter(owners, MatchesShop(shop.value));
      FilterLeavesOne(owners, MatchesShop(shop.value), owner);
      assert matches == [owner] <==> |matches| == 1 && matches[0] == owner;
    }
  }

  // ---------- ensuring a primary owner ----------

  datatype Reason =
    | NoManago | ListFailed | AlreadyConfigured | NoOwners | NeedsManualSelection | SingleOwnerAuto | InferredFromShop
    | ApplyFailed

  datatype EnsureResult = EnsureResult(applied: bool, primaryOwner: Option<string>, reason: Reason, ownerCount: nat)

  datatype AuditNote = AuditNote(primaryOwner: string, reason: Reason, ownerCount: nat)

  /** The stored connector, if an eligible one exists, and the audit events written about it. */
  datatype Store = Store(config: Option<Config>, audit: seq<AuditNote>)

  datatype Outcome = Outcome(store: Store, result: EnsureResult)

  /** The owner that can be determined without asking. */
  function AutoPrimary(owners: seq<string>, shop: Option<string>, allowSingle: bool, allowInference: bool)
    : (r: (Option<string>, Reason))
    ensures r.0.Some? ==> r.0.value in owners
    ensures r.0.None? <==> r.1 == NeedsManualSelection
  {
    if |owners| == 1 then (if allowSingle then (Some(owners[0]), SingleOwnerAuto) else (None, NeedsManualSelection))
    else if allowInference && InferPrimary(owners, shop).Some? then (InferPrimary(owners, shop), InferredFromShop)
    else (None, NeedsManualSelection)
  }

  function Skip(s: Store, primaryOwner: Option<string>, reason: Reason, ownerCount: nat): Outcome {
    Outcome(s, EnsureResult(false, primaryOwner, reason, ownerCount))
  }

  function Write(audit: seq<AuditNote>, c: Config, primary: string, reason: Reason, ownerCount: nat): Outcome {
    Outcome(Store(Some(c), audit + [AuditNote(primary, reason, ownerCount)]),
            EnsureResult(true, Some(primary), reason, ownerCount))
  }

  /** What an apply to a connector with config c comes to. */
  function Apply(s: Store, c: Config, primary: string, reason: Reason, live: seq<string>, shop: Option<string>): Outcome {
    if !Applicable(primary) then Skip(s, None, ApplyFailed, |live|)
    else
      var updated := Applied(c, primary, live, shop);
      Write(s.audit, updated, updated.owner.s, reason, |live|)
  }

  predicate Configured(c: Config, live: seq<string>) {
    PreferredOwner(c).Some? && Known(live, PreferredOwner(c).value)
  }

  /** owners is what list_manago_owners returned, None when it raised. */
  function Ensure(
      s: Store, owners: Option<seq<string>>, shop: Option<string>, allowSingle: bool, allowInference: bool): Outcome
  {
    if s.config.None? then Skip(s, None, NoManago, 0)
    else if owners.None? then Skip(s, None, ListFailed, 0)
    else
      var live, c := owners.value, s.config.value;
      var (primary, reason) := AutoPrimary(live, shop, allowSingle, allowInference);
      if Configured(c, live) then Skip(s, PreferredOwner(c), AlreadyConfigured, |live|)
      else if live == [] then Skip(s, None, NoOwners, 0)
      else if primary.None? then Skip(s, None, reason, |live|)
      else Apply(s, c, primary.value, reason, live, shop)
  }

  class Connector {
    var config: Option<Config>
    var audit: seq<AuditNote>

    constructor (config: Option<Config>)
      ensures Stored() == Store(config, [])
    {
      this.config, audit := config, [];
    }

    function Stored(): Store
      reads this
    {
      Store(config, audit)
    }

    method EnsurePrimaryOwner(
        owners: Option<seq<string>>, shop: Option<string>, allowSingle: bool, allowInference: bool)
      returns (r: EnsureResult)
      modifies this
      ensures Outcome(Stored(), r) == Ensure(old(Stored()), owners, shop, allowSingle, allowInference)
    {
      if config == None {
        return EnsureResult(false, None, NoManago, 0);
      }
      if owners == None {
        return EnsureResult(false, None, ListFailed, 0);
      }
      var live, existing := owners.value, PreferredOwner(config.value);
      if existing.Some? && Known(live, existing.value) {
        return EnsureResult(false, existing, AlreadyConfigured, |live|);
      }
      if live == [] {
        return EnsureResult(false, None, NoOwners, 0);
      }
      var primary: Option<string>, reason := None, NeedsManualSelection;
      if |live| == 1 {
        if allowSingle {
          primary, reason := Some(live[0]), SingleOwnerAuto;
        }
      } else if allowInference {
        primary := InferPrimary(live, shop);
        if primary.Some? {
          reason := InferredFromShop;
        }
      }
      assert (primary, reason) == AutoPrimary(live, shop, allowSingle, allowInference);
      if primary == None {
        return EnsureResult(false, None, reason, |live|);
      }
      r := Persist(primary.value, reason, live, shop);
    }

    method Persist(primary: string, reason: Reason, live: seq<string>, shop: Option<string>) returns (r: EnsureResult)
      requires config.Some?
      modifies this
      ensures Outcome(Stored(), r) == Apply(old(Stored()), old(config.value), primary, reason, live, shop)
    {
      var updated := ApplyPrimaryOwner(config.value, primary, live, shop);
      if updated == None {
        return EnsureResult(false, None, ApplyFailed, |live|);
      }
      var owner := updated.value.owner.s;
      config, audit := updated, audit + [AuditNote(owner, reason, |live|)];
      r := EnsureResult(true, Some(owner), reason, |live|);
    }
  }

  /** An apply from the live list leaves the connector configured for that list. */
  lemma AppliedIsConfigured(c: Config, primary: string, live: seq<string>, shop: Option<string>)
    requires Applicable(primary) && Listed(live) && primary in live
    ensures var updated := Applied(c, primary, live, shop);
      && Configured(updated, live) && updated.owner.Text? && PreferredOwner(updated) == Some(updated.owner.s)
  {
    PreferredOwnerReadsBack(c, primary, live, shop);
    KnownMeansListed(live, PreferredOwner(Applied(c, primary, live, shop)).value);
    assert Strip(primary) == primary;
    var i :| 0 <= i < |live| && live[i] == primary;
    assert SameOwner(live[i], PreferredOwner(Applied(c, primary, live, shop)).value);
  }

  /** The owner that can be told without asking: the only one there is, or the one inferred from the shop. */
  ghost predicate Determined(
      live: seq<string>, shop: Option<string>, allowSingle: bool, allowInference: bool, owner: string)
  {
    || (|live| == 1 && allowSingle && owner == live[0])
    || (|live| > 1 && allowInference && InferPrimary(live, shop) == Some(owner))
  }

  /** The report on applying owner o: refused if it is no address, else with its reason. */
  predicate ReportsApply(r: EnsureResult, live: seq<string>, o: string) {
    if '@' !in Strip(o) then r == EnsureResult(false, None, ApplyFailed, |live|)
    else
      && r.applied && r.ownerCount == |live|
      && r.reason == (if |live| == 1 then SingleOwnerAuto else InferredFromShop)
      && r.primaryOwner.Some? && SameOwner(r.primaryOwner.value, Strip(o))
  }

  /** What an ensure reports, and why: the first of the obstacles, in this order, or none. */
  lemma EnsureReports(
      s: Store, owners: Option<seq<string>>, shop: Option<string>, allowSingle: bool, allowInference: bool)
    ensures var r := Ensure(s, owners, shop, allowSingle, allowInference).result;
      if s.config.None? then r == EnsureResult(false, None, NoManago, 0)
      else if owners.None? then r == EnsureResult(false, None, ListFailed, 0)
      else if NamesLiveOwner(owners.value, PreferredOwner(s.config.value)) then
        r == EnsureResult(false, PreferredOwner(s.config.value), AlreadyConfigured, |owners.value|)
      else if owners.value == [] then r == EnsureResult(false, None, NoOwners, 0)
      else if !(exists o :: Determined(owners.value, shop, allowSingle, allowInference, o)) then
        r == EnsureResult(false, None, NeedsManualSelection, |owners.value|)
      else
        exists o :: Determined(owners.value, shop, allowSingle, allowInference, o) && ReportsApply(r, owners.value, o)
  {
    if s.config.Some? && owners.Some? {
      var live, c := owners.value, s.config.value;
      if PreferredOwner(c).Some? {
        KnownMeansListed(live, PreferredOwner(c).value);
      }
      if live != [] {
        var (primary, reason) := AutoPrimary(live, shop, allowSingle, allowInference);
        DeterminedIff(live, shop, allowSingle, allowInference);
        if primary.Some? && Applicable(primary.value) {
          PreferredOwnerReadsBack(c, primary.value, live, shop);
        }
      }
    }
  }

  lemma DeterminedIff(live: seq<string>, shop: Option<string>, allowSingle: bool, allowInference: bool)
    requires live != []
    ensures var (primary, reason) := AutoPrimary(live, shop, allowSingle, allowInference);
      && (forall o :: Determined(live, shop, allowSingle, allowInference, o) <==> primary == Some(o))
      && (primary.Some? ==> reason == if |live| == 1 then SingleOwnerAuto else InferredFromShop)
  {
  }

  /**
   A second ensure with the same owners changes nothing: no config write and no audit event. Once the first
   one has applied an owner, the second reports already_configured with it, whatever its other inputs.
  */
  lemma EnsureTwice(
      s: Store, owners: Option<seq<string>>, shop: Option<string>, allowSingle: bool, allowInference: bool,
      shop': Option<string>, allowSingle': bool, allowInference': bool)
    requires owners.Some? ==> Listed(owners.value)
    ensures var once := Ensure(s, owners, shop, allowSingle, allowInference);
      && Ensure(once.store, owners, shop, allowSingle, allowInference).store == once.store
      && (once.result.applied ==>
            Ensure(once.store, owners, shop', allowSingle', allowInference') ==
              Skip(once.store, once.result.primaryOwner, AlreadyConfigured, |owners.value|))
  {
    var once := Ensure(s, owners, shop, allowSingle, allowInference);
    if once.result.applied {
      var primary := AutoPrimary(owners.value, shop, allowSingle, allowInference).0.value;
      AppliedIsConfigured(s.config.value, primary, owners.value, shop);
    }
  }

  lemma AppliedCoversLive(c: Config, primary: string, live: seq<string>, shop: Option<string>)
    requires Applicable(primary) && Listed(live) && primary in live
    ensures var updated := Applied(c, primary, live, shop);
      && updated.other == c.other && updated.owner.Text?
      && Covers(updated.topology.accounts, Keys(live), updated.owner.s)
  {
    assert Strip(primary) == primary;
    KnownMeansListed(live, primary);
    var i :| 0 <= i < |live| && live[i] == primary;
    assert SameOwner(live[i], primary);
    OneAccountPerOwner(live, Display(live, primary), shop);
  }

  /** The config is written exactly when an audit event is, and the event names the owner then preferred. */
  lemma EveryWriteIsAudited(
      s: Store, owners: Option<seq<string>>, shop: Option<string>, allowSingle: bool, allowInference: bool)
    requires owners.Some? ==> Listed(owners.value)
    ensures var o := Ensure(s, owners, shop, allowSingle, allowInference);
      && (!o.result.applied ==> o.store == s)
      && (o.result.applied ==>
            && o.store.config.Some? && o.result.primaryOwner.Some?
            && PreferredOwner(o.store.config.value) == o.result.primaryOwner
            && Known(owners.value, o.result.primaryOwner.value)
            && o.store.config.value.other == s.config.value.other
            && o.store.config.value.topology.Accounts?
            && Covers(o.store.config.value.topology.accounts, Keys(owners.value), o.result.primaryOwner.value)
            && o.store.audit ==
                 s.audit + [AuditNote(o.result.primaryOwner.value, o.result.reason, o.result.ownerCount)])
  {
    var o := Ensure(s, owners, shop, allowSingle, allowInference);
    if o.result.applied {
      var primary := AutoPrimary(owners.value, shop, allowSingle, allowInference).0.value;
      AppliedIsConfigured(s.config.value, primary, owners.value, shop);
      AppliedCoversLive(s.config.value, primary, owners.value, shop);
    }
  }
}
