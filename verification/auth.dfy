/** The authentication store: the signed-in user and token, the list of
    accounts remembered for quick switching (each with its own token), the
    active account id, and the loading and error flags. The demo credentials,
    the brand name and the clock are parameters; storage is a ghost map from
    storage key to the value last written. */
module Auth {
  import opened Wrappers
  import opened Seqs
  import Text
  import Utils

  datatype UserStatus = Active | Inactive | Suspended

  datatype Role = Role(id: string, name: string, description: Option<string>)

  datatype User = User(
    id: string,
    name: string,
    email: string,
    role: Role,
    status: UserStatus,
    createdAt: string,
    lastLoginAt: Option<string>)

  /** `AccountWithToken`: a user together with that account's token. */
  datatype Account = Account(user: User, token: string)

  /** What storage holds under each key the store writes. */
  datatype Stored = StoredUser(u: User) | StoredToken(t: string) | StoredAccounts(a: seq<Account>) | StoredId(id: string)

  const UserKey := "halolight-user"
  const TokenKey := "halolight-token"
  const AccountsKey := "halolight-accounts"
  const ActiveAccountKey := "halolight-active-account-id"

  const WrongCredentials := "邮箱或密码错误"
  const UnknownAccount := "账号不存在"

  // --------------------------------------------------------- derived values

  /** `isAuthenticated`: `Boolean(token)`. */
  predicate IsAuthenticated(token: string) {
    token != ""
  }

  /** `checkAuth`: a token and a user. */
  predicate CheckAuth(token: string, user: Option<User>) {
    IsAuthenticated(token) && user.Some?
  }

  /** `initials`: `'HL'` without a user, otherwise the abbreviation of the
      user's name. Unlike `getInitials`, an empty name gives `''`. */
  function Initials(user: Option<User>): (r: string)
    ensures user.None? ==> r == "HL"
    ensures |r| <= 2
  {
    if user.None? then "HL" else Utils.Abbreviate(user.value.name)
  }

  /** The session's initials agree with `getInitials` except for a user whose
      name is empty. */
  lemma InitialsAgreeWithGetInitials(u: User)
    ensures u.name != "" ==> Initials(Some(u)) == Utils.GetInitials(u.name)
    ensures u.name == "" ==> Initials(Some(u)) == "" && Utils.GetInitials(u.name) == "HL"
  {
    if u.name == "" {
      assert Utils.WordStarts("", true) == "";
    }
  }

  // ----------------------------------------------------------------- login

  /** The user a successful demo login creates. */
  function DemoUser(brandName: string, email: string, nowIso: string): User {
    User("1", brandName + " Admin", email, Role("1", "Administrator", Some("系统管理员")), Active, nowIso, Some(nowIso))
  }

  /** `'mock-token-' + Date.now()`. */
  function MockToken(nowMs: nat): (t: string)
    ensures Text.StartsWith(t, "mock-token-") && IsAuthenticated(t)
  {
    "mock-token-" + Text.NatToString(nowMs)
  }

  function AccountEmail(a: Account): string { a.user.email }
  function AccountId(a: Account): string { a.user.id }
  function HasEmail(email: string): Account -> bool { (a: Account) => a.user.email == email }
  function HasAccountId(id: string): Account -> bool { (a: Account) => a.user.id == id }
  function NotAccountId(id: string): Account -> bool { (a: Account) => a.user.id != id }

  /** The account list after a login: the first account with the same email is
      replaced in place, otherwise the account is appended. */
  function UpsertAccount(accounts: seq<Account>, account: Account): (r: seq<Account>)
    ensures account in r
    ensures |r| == |accounts| || r == accounts + [account]
  {
    match FindIndex(accounts, HasEmail(account.user.email))
    case Some(k) => assert accounts[k := account][k] == account; accounts[k := account]
    case None => accounts + [account]
  }

  /** The first account with the same email is replaced where it stands;
      every other account, later duplicates included, is kept, in order. */
  lemma UpsertReplacesInPlace(accounts: seq<Account>, account: Account, k: nat)
    requires k < |accounts| && accounts[k].user.email == account.user.email
    requires forall j :: 0 <= j < k ==> accounts[j].user.email != account.user.email
    ensures UpsertAccount(accounts, account) == accounts[k := account]
  {
    assert HasEmail(account.user.email)(accounts[k]);
  }

  /** With no account for the email, the account is appended. */
  lemma UpsertAppends(accounts: seq<Account>, account: Account)
    requires forall k :: 0 <= k < |accounts| ==> accounts[k].user.email != account.user.email
    ensures UpsertAccount(accounts, account) == accounts + [account]
  {
  }

  /** Upserting keeps the emails of the account list unique. */
  lemma UpsertKeepsEmailsUnique(accounts: seq<Account>, account: Account)
    requires UniqueBy(accounts, AccountEmail)
    ensures UniqueBy(UpsertAccount(accounts, account), AccountEmail)
  {
    var r := UpsertAccount(accounts, account);
    match FindIndex(accounts, HasEmail(account.user.email))
    case Some(k) =>
      forall i, j | 0 <= i < j < |r| ensures AccountEmail(r[i]) != AccountEmail(r[j]) {
        assert AccountEmail(r[i]) == AccountEmail(accounts[i]) && AccountEmail(r[j]) == AccountEmail(accounts[j]);
      }
    case None =>
      forall i, j | 0 <= i < j < |r| ensures AccountEmail(r[i]) != AccountEmail(r[j]) {
        if j == |accounts| {
          assert !HasEmail(account.user.email)(accounts[i]);
        } else {
          assert r[i] == accounts[i] && r[j] == accounts[j];
        }
      }
  }

  /** Signing in again with the same email does not grow the account list:
      the second login replaces the first one's account. */
  lemma RepeatLoginKeepsOneAccount(accounts: seq<Account>, first: Account, second: Account)
    requires first.user.email == second.user.email
    ensures |UpsertAccount(UpsertAccount(accounts, first), second)| == |UpsertAccount(accounts, first)|
  {
    var once := UpsertAccount(accounts, first);
    var k :| 0 <= k < |once| && once[k] == first;
    assert HasEmail(second.user.email)(once[k]);
  }

  // ----------------------------------------------------------------- the store

  class AuthStore {
    var user: Option<User>
    var token: string
    var accounts: seq<Account>
    var activeAccountId: Option<string>
    var loading: bool
    var error: string
    /** Storage: key to the value last written there. */
    ghost var storage: map<string, Stored>

    /** Module initialisation: every signal read from storage on its own,
        with `null`, `''`, `[]` and `null` as defaults. */
    constructor (storedUser: Option<User>, storedToken: string, storedAccounts: seq<Account>, storedActiveId: Option<string>)
      ensures user == storedUser && token == storedToken && accounts == storedAccounts && activeAccountId == storedActiveId
      ensures !loading && error == "" && storage == map[]
    {
      user, token, accounts, activeAccountId := storedUser, storedToken, storedAccounts, storedActiveId;
      loading, error := false, "";
      storage := map[];
    }

    /** `login`, its delay dropped: the demo pair signs in (upserting the
        account by email); anything else fails with `'邮箱或密码错误'` and
        leaves the session alone. Loading ends false on both paths. */
    method Login(email: string, password: string, demoEmail: string, demoPassword: string,
                 brandName: string, nowIso: string, nowMs: nat) returns (r: Result<User>)
      modifies this
      ensures r.Failure? <==> email != demoEmail || password != demoPassword
      ensures r.Failure? ==> r.error == WrongCredentials && error == WrongCredentials
      ensures r.Failure? ==> user == old(user) && token == old(token) && accounts == old(accounts)
      ensures r.Failure? ==> activeAccountId == old(activeAccountId) && storage == old(storage)
      ensures r.Success? ==> r.value == DemoUser(brandName, email, nowIso) && error == ""
      ensures r.Success? ==> user == Some(r.value) && token == MockToken(nowMs) && activeAccountId == Some(r.value.id)
      ensures r.Success? ==> CheckAuth(token, user)
      ensures r.Success? ==> accounts == UpsertAccount(old(accounts), Account(r.value, token))
      ensures r.Success? ==> storage == old(storage)[UserKey := StoredUser(r.value)][TokenKey := StoredToken(token)]
                                                    [AccountsKey := StoredAccounts(accounts)][ActiveAccountKey := StoredId(r.value.id)]
      ensures !loading
    {
      loading := true;
      error := "";
      if email != demoEmail || password != demoPassword {
        error := WrongCredentials;
        loading := false;
        return Failure(WrongCredentials);
      }
      var userData := DemoUser(brandName, email, nowIso);
      var accountToken := MockToken(nowMs);
      var updatedAccounts := UpsertAccount(accounts, Account(userData, accountToken));
      user := Some(userData);
      token := accountToken;
      accounts := updatedAccounts;
      activeAccountId := Some(userData.id);
      storage := storage[UserKey := StoredUser(userData)][TokenKey := StoredToken(accountToken)]
                        [AccountsKey := StoredAccounts(updatedAccounts)][ActiveAccountKey := StoredId(userData.id)];
      loading := false;
      r := Success(userData);
    }

    /** `logout`: the session is cleared, the account list is kept. */
    method Logout()
      modifies this
      ensures user.None? && token == "" && activeAccountId.None? && error == ""
      ensures !CheckAuth(token, user)
      ensures accounts == old(accounts) && loading == old(loading)
      ensures storage == old(storage) - {UserKey, TokenKey, ActiveAccountKey}
    {
      user := None;
      token := "";
      activeAccountId := None;
      error := "";
      storage := storage - {UserKey, TokenKey, ActiveAccountKey};
    }

    /** `switchAccount`, its delay dropped: an unknown id fails with
        `'账号不存在'`; a known one becomes the session (its user, its token). */
    method SwitchAccount(accountId: string) returns (r: Result<()>)
      modifies this
      ensures r.Failure? <==> forall k :: 0 <= k < |old(accounts)| ==> old(accounts)[k].user.id != accountId
      ensures r.Failure? ==> r.error == UnknownAccount && error == UnknownAccount
      ensures r.Failure? ==> user == old(user) && token == old(token) && activeAccountId == old(activeAccountId) && storage == old(storage)
      ensures r.Success? ==> exists k :: 0 <= k < |old(accounts)| && old(accounts)[k].user.id == accountId
                                         && (forall j :: 0 <= j < k ==> old(accounts)[j].user.id != accountId)
                                         && user == Some(old(accounts)[k].user) && token == old(accounts)[k].token
      ensures r.Success? ==> activeAccountId == Some(accountId) && error == ""
      ensures r.Success? ==> storage == old(storage)[UserKey := StoredUser(user.value)][TokenKey := StoredToken(token)]
                                                    [ActiveAccountKey := StoredId(accountId)]
      ensures accounts == old(accounts) && !loading
    {
      loading := true;
      error := "";
      var account := Find(accounts, HasAccountId(accountId));
      if account.None? {
        error := UnknownAccount;
        loading := false;
        return Failure(UnknownAccount);
      }
      user := Some(account.value.user);
      token := account.value.token;
      activeAccountId := Some(accountId);
      storage := storage[UserKey := StoredUser(account.value.user)][TokenKey := StoredToken(account.value.token)]
                        [ActiveAccountKey := StoredId(accountId)];
      loading := false;
      r := Success(());
    }

    /** `loadAccounts`, its delay dropped: the list is re-read from storage. */
    method LoadAccounts(storedAccounts: seq<Account>) returns (r: seq<Account>)
      modifies this
      ensures accounts == storedAccounts && r == storedAccounts && !loading
      ensures user == old(user) && token == old(token) && activeAccountId == old(activeAccountId) && storage == old(storage)
      ensures error == old(error)
    {
      loading := true;
      accounts := storedAccounts;
      loading := false;
      r := storedAccounts;
    }

    /** `removeAccount`: every account with the id goes; removing the active
        account also logs out. */
    method RemoveAccount(accountId: string)
      modifies this
      ensures accounts == Filter(old(accounts), NotAccountId(accountId))
      ensures forall k :: 0 <= k < |accounts| ==> accounts[k].user.id != accountId
      ensures old(activeAccountId) == Some(accountId) ==> user.None? && token == "" && activeAccountId.None? && error == ""
      ensures old(activeAccountId) == Some(accountId) ==>
        storage == old(storage)[AccountsKey := StoredAccounts(accounts)] - {UserKey, TokenKey, ActiveAccountKey}
      ensures old(activeAccountId) != Some(accountId) ==>
        user == old(user) && token == old(token) && activeAccountId == old(activeAccountId) && error == old(error)
      ensures old(activeAccountId) != Some(accountId) ==> storage == old(storage)[AccountsKey := StoredAccounts(accounts)]
      ensures loading == old(loading)
    {
      var kept := Filter(accounts, NotAccountId(accountId));
      assert forall k :: 0 <= k < |kept| ==> NotAccountId(accountId)(kept[k]);
      accounts, storage := kept, storage[AccountsKey := StoredAccounts(kept)];
      if activeAccountId == Some(accountId) {
        Logout();
      }
    }

    method ClearError()
      modifies this
      ensures error == "" && user == old(user) && token == old(token) && accounts == old(accounts)
      ensures activeAccountId == old(activeAccountId) && loading == old(loading) && storage == old(storage)
    {
      error := "";
    }

    /** `initAuth`: the stored values are adopted, all together, only when both
        a stored user and a non-empty stored token exist. */
    method InitAuth(storedUser: Option<User>, storedToken: string, storedAccounts: seq<Account>, storedActiveId: Option<string>)
      modifies this
      ensures storedUser.Some? && storedToken != "" ==>
        user == storedUser && token == storedToken && accounts == storedAccounts && activeAccountId == storedActiveId
      ensures !(storedUser.Some? && storedToken != "") ==>
        user == old(user) && token == old(token) && accounts == old(accounts) && activeAccountId == old(activeAccountId)
      ensures CheckAuth(token, user) <==> (storedUser.Some? && storedToken != "") || CheckAuth(old(token), old(user))
      ensures loading == old(loading) && error == old(error) && storage == old(storage)
    {
      if storedUser.Some? && storedToken != "" {
        user := storedUser;
        token := storedToken;
        accounts := storedAccounts;
        activeAccountId := storedActiveId;
      }
    }

    /** `getCurrentUser`. */
    function GetCurrentUser(): Option<User> reads this { user }

    /** `getToken`. */
    function GetToken(): string reads this { token }
  }
}
