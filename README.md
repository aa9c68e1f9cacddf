# Session store and start-up of a social web client, in Dafny

This project models the global state machine of the client of a social web
application (posts, profiles, chat, search), as written in `app/Main.js`:

- **the session store** (module `Session`): the global state record (`loggedIn`, the
  user's `token`/`username`/`avatar`, the list of flash messages, the search and chat
  panel flags, the unread chat counter), the ten kinds of action and the reducer that
  maps a state and an action to the next state. `Run` dispatches a batch of actions in
  order. Each action's write set is listed in `Writes`, and the reducer is proved to
  leave every other field alone.
- **the reducer as written** (module `SessionDraft`): the client writes its reducer
  as in-place assignments on a mutable draft of the state. The class `Draft` does the
  same, and `Draft.Apply` is proved to produce exactly `Session.Reduce`.
- **start-up** (module `Bootstrap`):
  - the initial state restored from the browser's key-value storage (keys
    `complexappToken`, `complexappUsername`, `complexappAvatar`);
  - the effect that mirrors the session into that storage, once as a map
    transformation (`Persisted`) and once as the step-by-step `setItem`/`removeItem`
    calls on a `LocalStorage` object (`PersistSession`);
  - the decision taken on the answer to the start-up token check (`TokenCheckActions`).

Storage values are strings. A missing key reads as `None` (null). Writing null stores
the text `"null"`, as the browser's storage API does (`StoredValue`). The truthiness of
the server's answer to the token check is a boolean in `CheckOutcome.Answered`.

One might expect a signed-out state never to hold a token. The code does not keep
that invariant, and the model follows the code:
- signing out leaves the whole `user` record, token included, in the state;
- a stored empty token restores a signed-out state whose token is `""`.

`Bootstrap.SignedOutMayKeepToken` states both facts.

The start-up token check is decided on the state of the first render, but its actions
are dispatched to whatever the state is when the answer arrives. `Bootstrap.TokenCheckEffect`
therefore takes the restored sign-in status apart from the current state. A session
signed in again while the check was pending is still signed out by a falsy answer
(`Bootstrap.StaleCheckEndsNewSession`).

## Model

| member | source | states |
|---|---|---|
| `Session.Reduce` | app/Main.js:47-78 | every field outside the action's write set keeps its value; login sets `loggedIn` and the user to the action's data; logout clears `loggedIn` and keeps the user; a flash message is appended at the end; open/close search set/clear the search flag; toggle flips and close clears the chat flag; increment adds exactly 1 and clear sets 0; an unknown kind changes nothing; a non-negative counter stays non-negative |
| `Session.ToggleChatTwice` | app/Main.js:65-67 | toggling the chat twice restores the original state |
| `Session.RunFrame` | app/Main.js:47-78 | a field that no action of a batch writes keeps its value across the whole batch |
| `Session.RunValid` | app/Main.js:71-75 | from a state with a non-negative unread counter, no batch of actions makes it negative |
| `Session.RunFlashMessages` | app/Main.js:56-58 | a batch appends exactly the values of its flash-message actions, in dispatch order, and keeps the earlier messages in front |
| `Session.FlashInCallOrder` | app/Main.js:56-58 | flashing `vs` one by one leaves the old list followed by `vs`, so the length grows by exactly `|vs|` |
| `Session.RunUnreadCount` | app/Main.js:71-75 | the unread counter after a batch equals the increments since the last clear, plus the starting value if the batch has no clear |
| `SessionDraft.Draft.constructor` | app/Main.js:80 | a fresh draft describes the given state |
| `SessionDraft.Draft.Apply` | app/Main.js:47-78 | the in-place assignments of each reducer case leave the draft equal to `Reduce` of the old state, and keep the counter non-negative |
| `Bootstrap.Get` | app/Main.js:38-40 | a storage read yields the stored string exactly when the key is present, and null otherwise |
| `Bootstrap.InitialState` | app/Main.js:34-45 | `loggedIn` holds iff the token key is present and non-empty; the user fields are the stored values (or null); no messages, both panels closed, unread count 0 |
| `Bootstrap.UnreadNeverNegative` | app/Main.js:44 | starting from the restored state, the unread counter is never negative after any batch of actions |
| `Bootstrap.StartWithoutToken` | app/Main.js:35-38 | with no stored token the client starts signed out with a null token |
| `Bootstrap.Persisted` | app/Main.js:82-92 | signed in: the three session keys hold the user's token, name and avatar; signed out: none of them is present; every other key is untouched |
| `Bootstrap.PersistIdempotent` | app/Main.js:82-92 | running the sync twice gives the same storage as running it once |
| `Bootstrap.RestoreFromPersisted` | app/Main.js:83-90 | for any state, restoring from what the sync wrote gives signed out with no user when signed out; when signed in, the user's three parts as stored strings (null as "null"), and signed in iff the stored token is not empty |
| `Bootstrap.NullTokenRestoresSignedIn` | app/Main.js:84 | a signed-in state with a null token is stored as "null" and restores signed in with token "null" |
| `Bootstrap.PersistThenRestore` | app/Main.js:83-90 | restoring from the storage the sync wrote gives back the sign-in status, and the same user when signed in with a full identity and a non-empty token, or no user when signed out |
| `Bootstrap.LocalStorage.SetItem` | app/Main.js:84-86 | a write maps the key to the stored string of the value and changes no other key |
| `Bootstrap.LocalStorage.RemoveItem` | app/Main.js:88-90 | a removal deletes the key and changes no other key |
| `Bootstrap.PersistSession` | app/Main.js:82-91 | the three `setItem` or three `removeItem` calls leave the storage equal to `Persisted` of the old storage |
| `Bootstrap.TokenCheckActions` | app/Main.js:95-111 | the check dispatches either nothing or exactly logout then the expiry message, and the latter iff the session was restored signed in and the answer was falsy |
| `Bootstrap.TokenCheckEffect` | app/Main.js:96-104 | with the check decided on the restored sign-in status and its actions applied to any current state: after a falsy answer to a restored session the current state is signed out, the expiry message is its newest one, and nothing else changed; after any other outcome the current state is unchanged |
| `Bootstrap.StaleCheckEndsNewSession` | app/Main.js:96-103 | a session signed in again while the start-up check was pending is signed out by a falsy answer to it |
| `Bootstrap.ExpiredSessionClearsStorage` | app/Main.js:101-103 | after an expired session is signed out, the sync removes every session key and keeps the others |
| `Bootstrap.StartWithExpiredToken` | app/Main.js:96-103 | stored token "abc123" starts signed in; a falsy answer dispatches logout then the notice, leaving a signed-out state whose only message is the notice |
| `Bootstrap.SignedOutMayKeepToken` | app/Main.js:53-55 | logout keeps the token, and a stored empty token starts signed out with token "" |

## Left out

- The JSX tree, the routes, lazy loading, transitions and the context providers (lines 114-150): UI composition with no logic of its own.
- The HTTP request, its cancel token, `async`/`await` and the logging in `catch` (lines 97-110): network I/O. Only the outcome is kept, as `CheckOutcome`.
- The scheduling of effects by the UI framework (lines 92 and 112). The model does not capture that the sync effect runs only when `loggedIn` changes, so a login while already signed in does not rewrite storage. It also does not capture that the token check runs once, on the first render.
- `Axios.defaults.baseURL` and the environment (line 8), DOM bootstrapping and hot reload (lines 152-158): configuration and platform code.
- The components imported from `./components/*` are not part of this model.
- `Session.Reduce`: `action.data` of a login is modelled as a user record of three optional strings. Any other shape the server might send is not modelled.
- `Session.Reduce`: the value of a flash-message action is modelled as a string. The source pushes `action.value` of any type, `undefined` included.
- `Session.Reduce`: an action of an unrecognised kind is `Other(kind)`, where `kind` is taken to be none of the nine recognised names. The type does not enforce this.
- `Session.Reduce`: the unread counter is an unbounded integer. The limits of JavaScript's floating-point numbers are not modelled.
