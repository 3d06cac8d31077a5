/** `UserService`: resolving an OAuth profile to a user, and the read-only
    queries over users, their accounts and their service grants. */
module UserService {
  import opened Wrappers
  import opened Strings
  import opened Lists
  import opened Store

  /** The normalised OAuth profile handed over by the provider strategy. */
  datatype Profile = Profile(id: string, username: string, email: string, avatar: string)

  /** The username a new user gets: the email up to its first "@", or the
      whole email when it has none. */
  function NewUserName(email: string): (r: string)
    ensures r <= email && '@' !in r
    ensures '@' in email ==> |r| < |email| && email[|r|] == '@'
    ensures '@' !in email ==> r == email
  {
    FirstField(email, '@')
  }

  /** `findFirst({ where: { email } })`. */
  function FindUserByEmail(users: seq<User>, email: string): Option<User> {
    Find(users, (u: User) => u.email == email)
  }

  /** `findUnique({ where: { id } })`. */
  function FindUserById(users: seq<User>, id: string): Option<User> {
    Find(users, (u: User) => u.id == id)
  }

  /** `username` is unique in the users table: `getUserByUsername` looks it
      up with `findUnique`. */
  predicate UsernameTaken(users: seq<User>, username: string) {
    exists i :: 0 <= i < |users| && users[i].username == username
  }

  const UsernameConflict := "Unique constraint failed on the fields: (`username`)"

  /** `providerAccountId` is unique in the accounts table: the seed upserts
      accounts `where: { providerAccountId }`, which Prisma allows only on a
      unique field. */
  predicate ProviderIdTaken(accounts: seq<Account>, providerAccountId: string) {
    exists j :: 0 <= j < |accounts| && accounts[j].providerAccountId == providerAccountId
  }

  const ProviderIdConflict := "Unique constraint failed on the fields: (`providerAccountId`)"

  /** What `findOrCreateUserFromProfile` returns, with the two tables it may
      write. */
  datatype Resolution = Resolution(result: Result<User, string>, users: seq<User>, accounts: seq<Account>)

  function LinkedAccount(userId: string, profile: Profile, provider: string): Account {
    Account(userId, provider, profile.id, profile.username, profile.avatar, None)
  }

  function NewUser(id: string, profile: Profile): User {
    User(id, NewUserName(profile.email), profile.email, Some(profile.avatar), None)
  }

  /** The effect of `findOrCreateUserFromProfile` on the users and accounts
      tables. The user is looked up by email only; an existing user gets a new
      account only when none of its accounts (deleted ones included) is of the
      same provider; otherwise a new user is created with one account. Every
      insert fails, writing nothing, when it would repeat a unique username or
      provider account id.
      `newId` is the id the database assigns to a created user. */
  function Resolve(users: seq<User>, accounts: seq<Account>, profile: Profile, provider: string, newId: string): Resolution {
    match FindUserByEmail(users, profile.email)
    case Some(user) =>
      var existing := Find(accounts, (a: Account) => a.userId == user.id && a.provider == provider);
      if existing.Some? then Resolution(Success(user), users, accounts)
      else if ProviderIdTaken(accounts, profile.id) then Resolution(Failure(ProviderIdConflict), users, accounts)
      else Resolution(Success(user), users, accounts + [LinkedAccount(user.id, profile, provider)])
    case None =>
      if UsernameTaken(users, NewUserName(profile.email)) then
        Resolution(Failure(UsernameConflict), users, accounts)
      else if ProviderIdTaken(accounts, profile.id) then
        Resolution(Failure(ProviderIdConflict), users, accounts)
      else
        Resolution(Success(NewUser(newId, profile)), users + [NewUser(newId, profile)],
                   accounts + [LinkedAccount(newId, profile, provider)])
  }

  /** An existing user with the profile's email is returned as found; no user
      is created and at most one account, of the profile's provider and id, is
      appended. The only failure is a taken provider account id, and it writes
      nothing. */
  lemma ExistingUserIsReturned(users: seq<User>, accounts: seq<Account>, profile: Profile, provider: string, newId: string, i: nat)
    requires i < |users| && users[i].email == profile.email
    ensures var res := Resolve(users, accounts, profile, provider, newId);
      && res.users == users
      && (!ProviderIdTaken(accounts, profile.id) ==> res.result.Success?)
      && (res.result.Success? ==>
            && res.result.value.email == profile.email
            && res.result.value in users
            && (res.accounts == accounts ||
                res.accounts == accounts + [LinkedAccount(res.result.value.id, profile, provider)]))
      && (res.result.Failure? ==>
            res.result.error == ProviderIdConflict && ProviderIdTaken(accounts, profile.id) && res.accounts == accounts)
  {
  }

  /** A profile whose id is already some account's provider account id never
      gets a new account: the found user is returned only when it already has
      an account of this provider, and otherwise the call fails (with the
      username conflict first, when a new user's username is also taken). */
  lemma TakenProviderIdAddsNoAccount(users: seq<User>, accounts: seq<Account>, profile: Profile, provider: string, newId: string, j: nat)
    requires j < |accounts| && accounts[j].providerAccountId == profile.id
    ensures var res := Resolve(users, accounts, profile, provider, newId);
      && res.users == users && res.accounts == accounts
      && (res.result.Success? <==>
            (FindUserByEmail(users, profile.email).Some? &&
             Find(accounts, (a: Account) => a.userId == FindUserByEmail(users, profile.email).value.id && a.provider == provider).Some?))
      && (res.result.Failure? ==> res.result.error in {ProviderIdConflict, UsernameConflict})
      && (res.result.Failure? && !UsernameTaken(users, NewUserName(profile.email)) ==> res.result.error == ProviderIdConflict)
  {
    assert ProviderIdTaken(accounts, profile.id);
  }

  /** An account of the same provider blocks linking, even when its
      `providerAccountId` is not the profile's id. */
  lemma SameProviderBlocksLinking(users: seq<User>, accounts: seq<Account>, profile: Profile, provider: string, newId: string, j: nat)
    requires FindUserByEmail(users, profile.email).Some?
    requires j < |accounts| && accounts[j].provider == provider
    requires accounts[j].userId == FindUserByEmail(users, profile.email).value.id
    ensures Resolve(users, accounts, profile, provider, newId).accounts == accounts
  {
    var user := FindUserByEmail(users, profile.email).value;
    var p := (a: Account) => a.userId == user.id && a.provider == provider;
    assert p(accounts[j]);
  }

  /** With no user for the email, and the derived username and the profile's
      id both free, exactly one user and exactly one account for it are
      created; the user's image is the avatar and the account carries the
      profile's id. */
  lemma NewProfileCreatesUserAndAccount(users: seq<User>, accounts: seq<Account>, profile: Profile, provider: string, newId: string)
    requires FindUserByEmail(users, profile.email).None?
    requires !UsernameTaken(users, NewUserName(profile.email))
    requires !ProviderIdTaken(accounts, profile.id)
    ensures var res := Resolve(users, accounts, profile, provider, newId);
      && res.result.Success?
      && res.users == users + [res.result.value]
      && res.result.value.id == newId && res.result.value.image == Some(profile.avatar)
      && res.result.value.email == profile.email
      && res.accounts == accounts + [Account(newId, provider, profile.id, profile.username, profile.avatar, None)]
  {
  }

  /** A second callback with the same profile returns what the first one
      returned (the user it created) and writes nothing. */
  lemma {:induction false} SecondCallbackCreatesNothing(users: seq<User>, accounts: seq<Account>, profile: Profile, provider: string, newId: string, otherId: string)
    requires FindUserByEmail(users, profile.email).None?
    requires !UsernameTaken(users, NewUserName(profile.email))
    ensures var first := Resolve(users, accounts, profile, provider, newId);
      var second := Resolve(first.users, first.accounts, profile, provider, otherId);
      && second.result == first.result
      && second.users == first.users
      && second.accounts == first.accounts
  {
    var first := Resolve(users, accounts, profile, provider, newId);
    if ProviderIdTaken(accounts, profile.id) {
      return;
    }
    var user := NewUser(newId, profile);
    var byEmail := (u: User) => u.email == profile.email;
    assert first.users == users + [user];
    assert forall i :: 0 <= i < |users| ==> !byEmail(first.users[i]);
    assert byEmail(first.users[|users|]);
    assert FindUserByEmail(first.users, profile.email) == Some(user);
    var account := LinkedAccount(newId, profile, provider);
    assert first.accounts[|accounts|] == account;
    var sameProvider := (a: Account) => a.userId == user.id && a.provider == provider;
    assert sameProvider(first.accounts[|accounts|]);
  }

  /** `findOrCreateUserFromProfile` against the database. `newId` must be
      fresh, as a generated id is. */
  method FindOrCreateUserFromProfile(db: Database, profile: Profile, provider: string, newId: string)
    returns (r: Result<User, string>)
    requires forall i :: 0 <= i < |db.users| ==> db.users[i].id != newId
    modifies db
    ensures Resolution(r, db.users, db.accounts) == Resolve(old(db.users), old(db.accounts), profile, provider, newId)
    ensures db.services == old(db.services) && db.userServices == old(db.userServices)
    ensures db.auditLogs == old(db.auditLogs) && db.hookLogs == old(db.hookLogs)
  {
    var newUserName := NewUserName(profile.email);
    var user := FindUserByEmail(db.users, profile.email);
    if user.Some? {
      var existingAccount := Find(db.accounts, (a: Account) => a.userId == user.value.id && a.provider == provider);
      if existingAccount.None? {
        if ProviderIdTaken(db.accounts, profile.id) {
          return Failure(ProviderIdConflict);
        }
        db.accounts := db.accounts + [LinkedAccount(user.value.id, profile, provider)];
      }
      return Success(user.value);
    }
    if UsernameTaken(db.users, newUserName) {
      return Failure(UsernameConflict);
    }
    if ProviderIdTaken(db.accounts, profile.id) {
      return Failure(ProviderIdConflict);
    }
    var created := User(newId, newUserName, profile.email, Some(profile.avatar), None);
    db.users := db.users + [created];
    db.accounts := db.accounts + [LinkedAccount(newId, profile, provider)];
    return Success(created);
  }

  /** The grant links to a service with exactly this name (the relation filter
      of `userHasService`; it does not look at `deletedAt`). */
  predicate LinksToServiceNamed(g: UserServiceGrant, services: seq<Service>, name: string) {
    exists k :: 0 <= k < |services| && services[k].id == g.serviceId && services[k].name == name
  }

  /** `userHasService`: false for an unknown user, otherwise whether one of
      the user's grants links to a service named exactly `name`. */
  function UserHasService(users: seq<User>, services: seq<Service>, userServices: seq<UserServiceGrant>,
                          userId: string, name: string): (r: bool)
    ensures r <==> (exists i :: 0 <= i < |users| && users[i].id == userId) &&
                   (exists j :: 0 <= j < |userServices| && userServices[j].userId == userId &&
                                LinksToServiceNamed(userServices[j], services, name))
  {
    var user := FindUserById(users, userId);
    var grants := Filter(userServices, (g: UserServiceGrant) => g.userId == userId && LinksToServiceNamed(g, services, name));
    if user.None? || |grants| == 0 then false else
      assert grants[0] in userServices;
      true
  }

  /** The accounts of `userId` that are not soft-deleted, in table order. */
  function LiveAccountsOf(accounts: seq<Account>, userId: string): (r: seq<Account>)
    ensures forall a :: a in r <==> a in accounts && a.userId == userId && a.deletedAt.None?
  {
    Filter(accounts, (a: Account) => a.userId == userId && a.deletedAt.None?)
  }

  /** The grants of `userId` that are not soft-deleted, in table order. */
  function LiveGrantsOf(userServices: seq<UserServiceGrant>, userId: string): (r: seq<UserServiceGrant>)
    ensures forall g :: g in r <==> g in userServices && g.userId == userId && g.deletedAt.None?
  {
    Filter(userServices, (g: UserServiceGrant) => g.userId == userId && g.deletedAt.None?)
  }

  datatype UserAndAccounts = UserAndAccounts(user: Option<User>, accounts: Option<seq<Account>>)

  /** `getUserAndAccountByEmail`: the user found by email with its live
      accounts; `accounts` is null exactly when the user is. */
  function GetUserAndAccountByEmail(users: seq<User>, accounts: seq<Account>, email: string): (r: UserAndAccounts)
    ensures r.accounts.None? <==> r.user.None?
    ensures r.user.None? <==> forall i :: 0 <= i < |users| ==> users[i].email != email
    ensures r.user.Some? ==> r.user.value in users && r.user.value.email == email
    ensures r.user.Some? ==> forall a :: a in r.accounts.value <==>
              a in accounts && a.userId == r.user.value.id && a.deletedAt.None?
  {
    var user := FindUserByEmail(users, email);
    UserAndAccounts(user, if user.Some? then Some(LiveAccountsOf(accounts, user.value.id)) else None)
  }

  datatype Overview = Overview(user: User, userServices: seq<UserServiceGrant>, accounts: seq<Account>)

  /** `me`: the users with the id, each with its live grants and live accounts. */
  function Me(users: seq<User>, userServices: seq<UserServiceGrant>, accounts: seq<Account>, userId: string): (r: seq<Overview>)
    ensures |r| <= |users|
    ensures (|r| == 0) <==> forall i :: 0 <= i < |users| ==> users[i].id != userId
    ensures forall i :: 0 <= i < |r| ==> r[i].user in users && r[i].user.id == userId
    ensures forall i :: 0 <= i < |r| ==> forall g :: g in r[i].userServices <==>
              g in userServices && g.userId == userId && g.deletedAt.None?
    ensures forall i :: 0 <= i < |r| ==> forall a :: a in r[i].accounts <==>
              a in accounts && a.userId == userId && a.deletedAt.None?
  {
    var matches := Filter(users, (u: User) => u.id == userId);
    var grants := LiveGrantsOf(userServices, userId);
    var live := LiveAccountsOf(accounts, userId);
    assert |matches| > 0 ==> matches[0] in users && matches[0].id == userId;
    seq(|matches|, i requires 0 <= i < |matches| => Overview(matches[i], grants, live))
  }
}
