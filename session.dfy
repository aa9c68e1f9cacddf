/**
 The global session store of the client: the record that the whole UI reads, the
 actions that may be dispatched to it, and the reducer that computes the next record.
 The reducer is a total, deterministic transition function: every action is accepted
 in every state, and an action of an unknown kind changes nothing.
 */
module Session {
  import opened Wrappers

  /** The identity of the signed-in user; each part may be missing (null). */
  datatype User = User(token: Option<string>, username: Option<string>, avatar: Option<string>)

  /** The whole global state. */
  datatype State = State(
    loggedIn: bool,
    user: User,
    flashMessages: seq<string>,
    isSearchOpen: bool,
    isChatOpen: bool,
    unreadChatCount: int)

  /**
   The action kinds the reducer recognises, plus any other kind (`Other`), which it ignores.
   The `kind` of an `Other` action stands for a name that is none of the nine recognised
   ones: an action named like a recognised kind is written with that kind's constructor.
   */
  datatype Action =
    | Login(data: User)
    | Logout
    | FlashMessage(value: string)
    | OpenSearch
    | CloseSearch
    | ToggleChat
    | CloseChat
    | IncrementUnreadChatCount
    | ClearUnreadChatCount
    | Other(kind: string)

  /** The fields of the state, used to say which ones an action may write. */
  datatype Field = LoggedInField | UserField | FlashMessagesField | SearchField | ChatField | UnreadField

  /** `s` and `t` hold the same value in field `f`. */
  predicate Agree(s: State, t: State, f: Field) {
    match f
    case LoggedInField => s.loggedIn == t.loggedIn
    case UserField => s.user == t.user
    case FlashMessagesField => s.flashMessages == t.flashMessages
    case SearchField => s.isSearchOpen == t.isSearchOpen
    case ChatField => s.isChatOpen == t.isChatOpen
    case UnreadField => s.unreadChatCount == t.unreadChatCount
  }

  /** The write set of each action kind: the fields its case of the reducer assigns. */
  function Writes(a: Action): set<Field> {
    match a
    case Login(_) => {LoggedInField, UserField}
    case Logout => {LoggedInField}
    case FlashMessage(_) => {FlashMessagesField}
    case OpenSearch | CloseSearch => {SearchField}
    case ToggleChat | CloseChat => {ChatField}
    case IncrementUnreadChatCount | ClearUnreadChatCount => {UnreadField}
    case Other(_) => {}
  }

  /** The state invariant the store keeps: the unread counter is never negative. */
  predicate Valid(s: State) {
    s.unreadChatCount >= 0
  }

  /**
   The reducer. Each case writes only the fields in `Writes(a)`; all others keep their
   values, and an unrecognised kind leaves the state as it was.
   */
  function Reduce(s: State, a: Action): (r: State)
    ensures forall f :: f !in Writes(a) ==> Agree(s, r, f)
    ensures a.Login? ==> r.loggedIn && r.user == a.data
    ensures a.Logout? ==> !r.loggedIn && r.user == s.user
    ensures a.FlashMessage? ==> r.flashMessages == s.flashMessages + [a.value]
    ensures a.OpenSearch? ==> r.isSearchOpen
    ensures a.CloseSearch? ==> !r.isSearchOpen
    ensures a.ToggleChat? ==> r.isChatOpen != s.isChatOpen
    ensures a.CloseChat? ==> !r.isChatOpen
    ensures a.IncrementUnreadChatCount? ==> r.unreadChatCount == s.unreadChatCount + 1
    ensures a.ClearUnreadChatCount? ==> r.unreadChatCount == 0
    ensures a.Other? ==> r == s
    ensures Valid(s) ==> Valid(r)
  {
    match a
    case Login(data) => s.(loggedIn := true, user := data)
    case Logout => s.(loggedIn := false)
    case FlashMessage(v) => s.(flashMessages := s.flashMessages + [v])
    case OpenSearch => s.(isSearchOpen := true)
    case CloseSearch => s.(isSearchOpen := false)
    case ToggleChat => s.(isChatOpen := !s.isChatOpen)
    case CloseChat => s.(isChatOpen := false)
    case IncrementUnreadChatCount => s.(unreadChatCount := s.unreadChatCount + 1)
    case ClearUnreadChatCount => s.(unreadChatCount := 0)
    case Other(_) => s
  }

  /** Dispatching `acts` one after the other, in order, starting from `s`. */
  function Run(s: State, acts: seq<Action>): State
    decreases |acts|
  {
    if acts == [] then s else Run(Reduce(s, acts[0]), acts[1..])
  }

  /** Toggling the chat twice gives back the state it started from. */
  lemma ToggleChatTwice(s: State)
    ensures Reduce(Reduce(s, ToggleChat), ToggleChat) == s
  {
  }

  /** Dispatching two batches is dispatching their concatenation. */
  lemma {:induction false} RunConcat(s: State, xs: seq<Action>, ys: seq<Action>)
    ensures Run(s, xs + ys) == Run(Run(s, xs), ys)
    decreases |xs|
  {
    if xs == [] {
      assert xs + ys == ys;
    } else {
      assert (xs + ys)[1..] == xs[1..] + ys;
      RunConcat(Reduce(s, xs[0]), xs[1..], ys);
    }
  }

  /** One more action at the end is one more reducer step. */
  lemma RunSnoc(s: State, acts: seq<Action>, a: Action)
    ensures Run(s, acts + [a]) == Reduce(Run(s, acts), a)
  {
    RunConcat(s, acts, [a]);
  }

  /** A field that no action of the batch writes keeps its value across the whole batch. */
  lemma {:induction false} RunFrame(s: State, acts: seq<Action>, f: Field)
    requires forall i :: 0 <= i < |acts| ==> f !in Writes(acts[i])
    ensures Agree(s, Run(s, acts), f)
    decreases |acts|
  {
    if acts != [] {
      var t := Reduce(s, acts[0]);
      assert f !in Writes(acts[0]);
      RunFrame(t, acts[1..], f);
    }
  }

  /** The invariant `Valid` holds after any batch of actions that starts from a valid state. */
  lemma {:induction false} RunValid(s: State, acts: seq<Action>)
    requires Valid(s)
    ensures Valid(Run(s, acts))
    decreases |acts|
  {
    if acts != [] {
      RunValid(Reduce(s, acts[0]), acts[1..]);
    }
  }

  /** The values of the flash-message actions of a batch, in dispatch order. */
  function FlashValues(acts: seq<Action>): seq<string>
    decreases |acts|
  {
    if acts == [] then []
    else (if acts[0].FlashMessage? then [acts[0].value] else []) + FlashValues(acts[1..])
  }

  /** The message list only grows: a batch appends exactly its flash values, in order. */
  lemma {:induction false} RunFlashMessages(s: State, acts: seq<Action>)
    ensures Run(s, acts).flashMessages == s.flashMessages + FlashValues(acts)
    decreases |acts|
  {
    if acts != [] {
      RunFlashMessages(Reduce(s, acts[0]), acts[1..]);
    }
  }

  /** One flash-message action per value of `vs`. */
  function FlashActions(vs: seq<string>): (acts: seq<Action>)
    ensures |acts| == |vs|
    ensures forall i :: 0 <= i < |vs| ==> acts[i] == FlashMessage(vs[i])
  {
    seq(|vs|, i requires 0 <= i < |vs| => FlashMessage(vs[i]))
  }

  lemma {:induction false} FlashValuesOfFlashActions(vs: seq<string>)
    ensures FlashValues(FlashActions(vs)) == vs
    decreases |vs|
  {
    if vs != [] {
      assert FlashActions(vs)[1..] == FlashActions(vs[1..]);
      FlashValuesOfFlashActions(vs[1..]);
    }
  }

  /** Flashing the messages `vs` one by one adds exactly `|vs|` messages, in call order. */
  lemma FlashInCallOrder(s: State, vs: seq<string>)
    ensures Run(s, FlashActions(vs)).flashMessages == s.flashMessages + vs
    ensures |Run(s, FlashActions(vs)).flashMessages| == |s.flashMessages| + |vs|
  {
    RunFlashMessages(s, FlashActions(vs));
    FlashValuesOfFlashActions(vs);
  }

  /** The number of increment actions in a batch. */
  function Increments(acts: seq<Action>): nat
    decreases |acts|
  {
    if acts == [] then 0
    else (if acts[0].IncrementUnreadChatCount? then 1 else 0) + Increments(acts[1..])
  }

  /** The actions after the last clear of the unread counter (the whole batch when there is none). */
  function SinceLastClear(acts: seq<Action>): (rest: seq<Action>)
    ensures |rest| <= |acts|
    ensures ClearUnreadChatCount !in rest
    decreases |acts|
  {
    if acts == [] then []
    else if acts[|acts| - 1] == ClearUnreadChatCount then []
    else SinceLastClear(acts[..|acts| - 1]) + [acts[|acts| - 1]]
  }

  /** Reference value of the unread counter after a batch: a clear resets it to 0, each increment adds 1. */
  function UnreadAfter(start: int, acts: seq<Action>): int {
    (if ClearUnreadChatCount in acts then 0 else start) + Increments(SinceLastClear(acts))
  }

  lemma {:induction false} IncrementsSnoc(acts: seq<Action>, a: Action)
    ensures Increments(acts + [a]) == Increments(acts) + (if a.IncrementUnreadChatCount? then 1 else 0)
    decreases |acts|
  {
    if acts == [] {
      assert [a][1..] == [];
    } else {
      assert (acts + [a])[1..] == acts[1..] + [a];
      IncrementsSnoc(acts[1..], a);
    }
  }

  /** The unread counter after a batch is the net effect of its increments and clears, in order. */
  lemma {:induction false} RunUnreadCount(s: State, acts: seq<Action>)
    ensures Run(s, acts).unreadChatCount == UnreadAfter(s.unreadChatCount, acts)
    decreases |acts|
  {
    if acts != [] {
      var init, a := acts[..|acts| - 1], acts[|acts| - 1];
      assert acts == init + [a];
      RunUnreadCount(s, init);
      RunSnoc(s, init, a);
      assert ClearUnreadChatCount in acts <==> ClearUnreadChatCount in init || a == ClearUnreadChatCount;
      if a != ClearUnreadChatCount {
        assert SinceLastClear(acts) == SinceLastClear(init) + [a];
        IncrementsSnoc(SinceLastClear(init), a);
      }
    }
  }
}
