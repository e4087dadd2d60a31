/** frontend/src/utils/mockAuth.js: a mock sign-in over the browser's
    `localStorage`, a string key/value store. The two keys it uses hold the
    token and the signed-in user; the user is kept as a record rather than as
    its JSON text. The one-second delay of login and register is left out:
    each call is its state before and after. */
module MockAuth {
  import opened Wrappers

  const TokenKey: string := "terabox_token"
  const UserKey: string := "terabox_user"
  const MockToken: string := "mock_jwt_token"
  const DemoEmail: string := "demo@terabox.com"
  const DemoPassword: string := "demo123"
  const InvalidCredentials: string := "Invalid email or password"

  /** The user record stored under `terabox_user`. */
  datatype StoredUser = StoredUser(id: string, name: string, email: string, storageUsed: int, storageLimit: int)

  /** The demo account: 500 GiB used of 1 TiB. */
  const DemoUser: StoredUser := StoredUser("1", "Demo User", DemoEmail, 536870912000, 1099511627776)

  /** A stored value: plain text, or the JSON text of a user record. */
  datatype Item = Text(text: string) | UserJson(user: StoredUser)

  /** What `mockLogin` and `mockRegister` resolve to. */
  datatype Outcome = Outcome(success: bool, message: Option<string>)

  /** What `mockRegister` is given; it does not look at it. */
  datatype Registration = Registration(name: string, email: string, password: string)

  /** `localStorage.getItem(key)` is truthy: present and not the empty
      string (JSON text is never empty). */
  predicate Truthy(items: map<string, Item>, key: string)
  {
    key in items && (items[key].UserJson? || items[key].text != "")
  }

  /** The user entry, when there is one, holds what `mockLogin` wrote: a
      user record's JSON. */
  predicate WellFormed(items: map<string, Item>)
  {
    UserKey in items ==> items[UserKey].UserJson?
  }

  /** isAuthenticated, on a given store. */
  predicate AuthenticatedIn(items: map<string, Item>)
  {
    Truthy(items, TokenKey)
  }

  /** getCurrentUser, on a given store: the parsed user when both entries are
      truthy, otherwise null. */
  function CurrentUserIn(items: map<string, Item>): Option<StoredUser>
    requires WellFormed(items)
  {
    if Truthy(items, TokenKey) && Truthy(items, UserKey) then Some(items[UserKey].user) else None
  }

  /** The store after a successful login. */
  function LoggedIn(items: map<string, Item>): map<string, Item>
  {
    items[TokenKey := Text(MockToken)][UserKey := UserJson(DemoUser)]
  }

  /** The store after a logout. */
  function LoggedOut(items: map<string, Item>): map<string, Item>
  {
    items - {TokenKey, UserKey}
  }

  // ---------------------------------------------------------------------
  // Properties of the store

  /** A current user needs both entries, so it implies being authenticated. */
  lemma CurrentUserNeedsToken(items: map<string, Item>)
    requires WellFormed(items)
    ensures CurrentUserIn(items).Some? <==> AuthenticatedIn(items) && UserKey in items
    ensures CurrentUserIn(items).Some? ==> AuthenticatedIn(items)
  {
  }

  /** The converse fails: a token alone authenticates but gives no user. */
  lemma TokenWithoutUser()
    ensures var items := map[TokenKey := Text(MockToken)];
            WellFormed(items) && AuthenticatedIn(items) && CurrentUserIn(items) == None
  {
    var items := map[TokenKey := Text(MockToken)];
    assert UserKey != TokenKey;
    assert UserKey !in items;
  }

  /** After a login the store authenticates and yields exactly the demo record. */
  lemma LoginThenCurrentUser(items: map<string, Item>)
    ensures WellFormed(LoggedIn(items))
    ensures AuthenticatedIn(LoggedIn(items))
    ensures CurrentUserIn(LoggedIn(items)) == Some(DemoUser)
    ensures forall k :: k in items && k != TokenKey && k != UserKey ==> k in LoggedIn(items) && LoggedIn(items)[k] == items[k]
  {
    assert TokenKey != UserKey;
  }

  /** After a logout neither entry is left, nobody is signed in, and logging
      out again changes nothing. */
  lemma LogoutClears(items: map<string, Item>)
    ensures TokenKey !in LoggedOut(items) && UserKey !in LoggedOut(items)
    ensures WellFormed(LoggedOut(items))
    ensures !AuthenticatedIn(LoggedOut(items)) && CurrentUserIn(LoggedOut(items)) == None
    ensures LoggedOut(LoggedOut(items)) == LoggedOut(items)
    ensures forall k :: k in items && k != TokenKey && k != UserKey ==> k in LoggedOut(items) && LoggedOut(items)[k] == items[k]
  {
  }

  /** Whether `mockLogin` accepts the credentials. */
  predicate DemoCredentials(email: string, password: string)
  {
    email == DemoEmail && password == DemoPassword
  }

  // ---------------------------------------------------------------------
  // The store and the four calls

  class SessionStore {
    /** The `localStorage` entries. */
    var items: map<string, Item>

    ghost predicate Valid()
      reads this
    {
      WellFormed(items)
    }

    constructor (initial: map<string, Item>)
      requires WellFormed(initial)
      ensures Valid() && items == initial
    {
      items := initial;
    }

    /** isAuthenticated: the token entry is truthy. */
    function IsAuthenticated(): (r: bool)
      reads this
      ensures r <==> TokenKey in items && items[TokenKey] != Text("")
    {
      AuthenticatedIn(items)
    }

    /** getCurrentUser: the stored user when both entries are truthy, else null. */
    function GetCurrentUser(): (r: Option<StoredUser>)
      requires Valid()
      reads this
      ensures r.None? <==> !IsAuthenticated() || UserKey !in items
      ensures r.Some? ==> items[UserKey] == UserJson(r.value)
    {
      CurrentUserIn(items)
    }

    /** mockLogin: the demo credentials store the token and the demo user and
        succeed; anything else leaves the store alone and fails with
        "Invalid email or password". */
    method MockLogin(email: string, password: string) returns (r: Outcome)
      requires Valid()
      modifies this
      ensures Valid()
      ensures r.success <==> DemoCredentials(email, password)
      ensures r.success ==> items == LoggedIn(old(items)) && r.message == None
      ensures !r.success ==> items == old(items) && r.message == Some(InvalidCredentials)
    {
      if email == DemoEmail && password == DemoPassword {
        items := items[TokenKey := Text(MockToken)];
        items := items[UserKey := UserJson(DemoUser)];
        r := Outcome(true, None);
      } else {
        r := Outcome(false, Some(InvalidCredentials));
      }
    }

    /** mockRegister: always succeeds and never touches the store. */
    method MockRegister(userData: Registration) returns (r: Outcome)
      ensures r.success && r.message == None
    {
      r := Outcome(true, None);
    }

    /** mockLogout: removes the token and then the user entry. */
    method MockLogout()
      requires Valid()
      modifies this
      ensures Valid()
      ensures items == LoggedOut(old(items))
    {
      items := items - {TokenKey};
      items := items - {UserKey};
    }
  }
}
