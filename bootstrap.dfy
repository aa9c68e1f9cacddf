/**
 Start-up of the client session: the initial state restored from the browser's
 key-value storage, the effect that mirrors the session back into that storage, and
 the decision taken on the answer to the one token check made at start-up.
 */
module Bootstrap {
  import opened Wrappers
  import opened Session

  const TokenKey := "complexappToken"
  const UsernameKey := "complexappUsername"
  const AvatarKey := "complexappAvatar"

  /** The three storage keys that hold the session. */
  function SessionKeys(): (keys: set<string>)
    ensures |keys| == 3
  {
    assert TokenKey != UsernameKey && TokenKey != AvatarKey && UsernameKey != AvatarKey;
    {TokenKey, UsernameKey, AvatarKey}
  }

  /** The storage lookup: the stored string, or null when the key is absent. */
  function Get(items: map<string, string>, key: string): (r: Option<string>)
    ensures r.Some? <==> key in items
    ensures r.Some? ==> r.value == items[key]
  {
    if key in items then Some(items[key]) else None
  }

  /** JavaScript truthiness of a storage value: null and the empty string are false. */
  predicate Truthy(v: Option<string>) {
    v.Some? && v.value != ""
  }

  /** The state the client starts with, restored from storage `items`. */
  function InitialState(items: map<string, string>): (s: State)
    ensures s.loggedIn <==> TokenKey in items && items[TokenKey] != ""
    ensures s.user.token == Get(items, TokenKey)
    ensures s.user.username == Get(items, UsernameKey)
    ensures s.user.avatar == Get(items, AvatarKey)
    ensures s.flashMessages == [] && !s.isSearchOpen && !s.isChatOpen && s.unreadChatCount == 0
    ensures Valid(s)
  {
    State(
      loggedIn := Truthy(Get(items, TokenKey)),
      user := User(Get(items, TokenKey), Get(items, UsernameKey), Get(items, AvatarKey)),
      flashMessages := [],
      isSearchOpen := false,
      isChatOpen := false,
      unreadChatCount := 0)
  }

  /** From the restored state, the unread counter is never negative, whatever is dispatched. */
  lemma UnreadNeverNegative(items: map<string, string>, acts: seq<Action>)
    ensures Run(InitialState(items), acts).unreadChatCount >= 0
  {
    RunValid(InitialState(items), acts);
  }

  /** The string storage keeps for a value: writing null stores the text "null". */
  function StoredValue(v: Option<string>): (r: string)
    ensures v.Some? ==> r == v.value
  {
    match v
    case Some(x) => x
    case None => "null"
  }

  /**
   The storage after the session-sync effect has run on state `s`: when signed in the three
   session keys hold the user's token, name and avatar; when signed out none of them is
   present. Every other key is left as it was.
   */
  function Persisted(items: map<string, string>, s: State): (r: map<string, string>)
    ensures s.loggedIn ==> TokenKey in r && r[TokenKey] == StoredValue(s.user.token)
    ensures s.loggedIn ==> UsernameKey in r && r[UsernameKey] == StoredValue(s.user.username)
    ensures s.loggedIn ==> AvatarKey in r && r[AvatarKey] == StoredValue(s.user.avatar)
    ensures !s.loggedIn ==> TokenKey !in r && UsernameKey !in r && AvatarKey !in r
    ensures r.Keys == if s.loggedIn then items.Keys + SessionKeys() else items.Keys - SessionKeys()
    ensures forall k :: k in items && k !in SessionKeys() ==> k in r && r[k] == items[k]
  {
    if s.loggedIn then
      items[TokenKey := StoredValue(s.user.token)]
           [UsernameKey := StoredValue(s.user.username)]
           [AvatarKey := StoredValue(s.user.avatar)]
    else
      items - SessionKeys()
  }

  /** Running the sync twice leaves the storage as running it once does. */
  lemma PersistIdempotent(items: map<string, string>, s: State)
    ensures Persisted(Persisted(items, s), s) == Persisted(items, s)
  {
    var once := Persisted(items, s);
    if s.loggedIn {
      var t, u, v := StoredValue(s.user.token), StoredValue(s.user.username), StoredValue(s.user.avatar);
      assert once == items[TokenKey := t][UsernameKey := u][AvatarKey := v];
      assert once[TokenKey := t] == once;
      assert once[TokenKey := t][UsernameKey := u] == once;
    } else {
      assert once == items - SessionKeys();
      assert once - SessionKeys() == once;
    }
  }

  /**
   What start-up restores from the storage that the sync wrote, for any state: signed out
   restores signed out with no identity; signed in restores the stored strings of the three
   parts (a null part comes back as the text "null"), signed in iff the stored token is not
   the empty string.
   */
  lemma RestoreFromPersisted(items: map<string, string>, s: State)
    ensures var r := InitialState(Persisted(items, s));
      if s.loggedIn then
        && r.user == User(Some(StoredValue(s.user.token)), Some(StoredValue(s.user.username)),
                          Some(StoredValue(s.user.avatar)))
        && (r.loggedIn <==> StoredValue(s.user.token) != "")
      else
        !r.loggedIn && r.user == User(None, None, None)
  {
  }

  /** A signed-in state with a null token is stored as "null", which restores signed in. */
  lemma NullTokenRestoresSignedIn(items: map<string, string>, s: State)
    requires s.loggedIn && s.user.token == None
    ensures InitialState(Persisted(items, s)).loggedIn
    ensures InitialState(Persisted(items, s)).user.token == Some("null")
  {
    RestoreFromPersisted(items, s);
  }

  /**
   Restoring from the storage that the sync wrote gives back the session: signed out stays
   signed out with no identity, and a signed-in user with a non-empty token and all three
   parts present is restored signed in, with the same identity.
   */
  lemma PersistThenRestore(items: map<string, string>, s: State)
    requires s.loggedIn ==> Truthy(s.user.token) && s.user.username.Some? && s.user.avatar.Some?
    ensures InitialState(Persisted(items, s)).loggedIn == s.loggedIn
    ensures s.loggedIn ==> InitialState(Persisted(items, s)).user == s.user
    ensures !s.loggedIn ==> InitialState(Persisted(items, s)).user == User(None, None, None)
  {
    RestoreFromPersisted(items, s);
  }

  /** The browser's key-value storage, which the sync effect updates one key at a time. */
  class LocalStorage {
    var items: map<string, string>

    constructor (initial: map<string, string>)
      ensures items == initial
    {
      items := initial;
    }

    method SetItem(key: string, value: Option<string>)
      modifies this
      ensures items == old(items)[key := StoredValue(value)]
    {
      items := items[key := StoredValue(value)];
    }

    method RemoveItem(key: string)
      modifies this
      ensures items == old(items) - {key}
    {
      items := items - {key};
    }
  }

  /** The session-sync effect: three writes when signed in, three removals when signed out. */
  method PersistSession(storage: LocalStorage, s: State)
    modifies storage
    ensures storage.items == Persisted(old(storage.items), s)
  {
    if s.loggedIn {
      storage.SetItem(TokenKey, s.user.token);
      storage.SetItem(UsernameKey, s.user.username);
      storage.SetItem(AvatarKey, s.user.avatar);
    } else {
      storage.RemoveItem(TokenKey);
      storage.RemoveItem(UsernameKey);
      storage.RemoveItem(AvatarKey);
      assert storage.items == old(storage.items) - SessionKeys();
    }
  }

  const ExpiredMessage := "Your session has expired. Please log in again."

  /**
   How the start-up token check ends: the server answered, with a truthy or falsy body,
   or the request failed or was cancelled before an answer arrived.
   */
  datatype CheckOutcome = Answered(valid: bool) | Failed | Cancelled

  /**
   The actions the start-up token check dispatches. The check is only made for a session
   restored as signed in, and only a falsy answer ends the session.
   */
  function TokenCheckActions(loggedIn: bool, outcome: CheckOutcome): (acts: seq<Action>)
    ensures acts == [] || acts == [Logout, FlashMessage(ExpiredMessage)]
    ensures acts != [] <==> loggedIn && outcome == Answered(false)
  {
    if !loggedIn then []
    else match outcome
      case Answered(valid) => if valid then [] else [Logout, FlashMessage(ExpiredMessage)]
      case Failed => []
      case Cancelled => []
  }

  /**
   The state after the token check's actions. The check is decided on `restored`, the
   sign-in status of the first render, but its actions are dispatched to `s`, whatever the
   state is when the answer arrives. An invalid token signs `s` out and leaves the expiry
   notice as its newest message, changing nothing else, even if the user has meanwhile
   signed out or signed in again; any other outcome leaves `s` untouched.
   */
  lemma TokenCheckEffect(restored: bool, s: State, outcome: CheckOutcome)
    ensures var r := Run(s, TokenCheckActions(restored, outcome));
      if restored && outcome == Answered(false) then
        && !r.loggedIn
        && r.flashMessages == s.flashMessages + [ExpiredMessage]
        && r.flashMessages[|r.flashMessages| - 1] == ExpiredMessage
        && r.user == s.user
        && r.isSearchOpen == s.isSearchOpen && r.isChatOpen == s.isChatOpen
        && r.unreadChatCount == s.unreadChatCount
      else r == s
  {
    var acts := TokenCheckActions(restored, outcome);
    if acts != [] {
      var t1 := Reduce(s, Logout);
      assert acts[1..] == [FlashMessage(ExpiredMessage)] && acts[1..][1..] == [];
      assert Run(s, acts) == Run(t1, acts[1..]) == Reduce(t1, FlashMessage(ExpiredMessage));
    }
  }

  /**
   A session signed in again while the start-up check was pending is still signed out by a
   falsy answer to that check, since the check was decided on the restored state.
   */
  lemma StaleCheckEndsNewSession(items: map<string, string>, user: User, outcome: CheckOutcome)
    requires InitialState(items).loggedIn && outcome == Answered(false)
    ensures var now := Run(InitialState(items), [Logout, Login(user)]);
      && now.loggedIn
      && !Run(now, TokenCheckActions(InitialState(items).loggedIn, outcome)).loggedIn
  {
    var s0 := InitialState(items);
    var now := Run(s0, [Logout, Login(user)]);
    var s1 := Reduce(s0, Logout);
    assert [Logout, Login(user)][1..] == [Login(user)] && [Login(user)][1..] == [];
    assert now == Run(s1, [Login(user)]) == Run(Reduce(s1, Login(user)), []);
    TokenCheckEffect(s0.loggedIn, now, outcome);
  }

  /** After an expired session is signed out, the sync effect removes every session key. */
  lemma ExpiredSessionClearsStorage(items: map<string, string>, s: State)
    ensures Persisted(items, Run(s, TokenCheckActions(true, Answered(false)))).Keys
            == items.Keys - SessionKeys()
  {
    TokenCheckEffect(true, s, Answered(false));
  }

  /** Start-up with no stored token: signed out, with no token. */
  lemma StartWithoutToken(items: map<string, string>)
    requires TokenKey !in items
    ensures !InitialState(items).loggedIn && InitialState(items).user.token == None
  {
  }

  /** Start-up with stored token "abc123" and a falsy check answer: signed in, then signed out with the notice. */
  lemma StartWithExpiredToken(items: map<string, string>)
    requires TokenKey in items && items[TokenKey] == "abc123"
    ensures InitialState(items).loggedIn
    ensures TokenCheckActions(InitialState(items).loggedIn, Answered(false)) == [Logout, FlashMessage(ExpiredMessage)]
    ensures var r := Run(InitialState(items), [Logout, FlashMessage(ExpiredMessage)]);
      !r.loggedIn && r.flashMessages == [ExpiredMessage]
  {
    TokenCheckEffect(true, InitialState(items), Answered(false));
  }

  /**
   One might expect a signed-out state never to hold a token. The code does not keep that:
   a stored empty token restores signed out with token "", and signing out keeps the token
   of the state it starts from.
   */
  lemma SignedOutMayKeepToken(items: map<string, string>, s: State)
    ensures TokenKey in items && items[TokenKey] == "" ==>
      !InitialState(items).loggedIn && InitialState(items).user.token == Some("")
    ensures Reduce(s, Logout).user.token == s.user.token
  {
  }
}
