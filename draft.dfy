/**
 The reducer as the client writes it: case by case it assigns fields of a mutable
 draft of the state, and pushes onto the draft's message list in place. The draft
 library then publishes the draft as the next state; `Apply` is proved to produce
 exactly `Session.Reduce` of the state it started from.
 */
module SessionDraft {
  import opened Session

  class Draft {
    var loggedIn: bool
    var user: User
    var flashMessages: seq<string>
    var isSearchOpen: bool
    var isChatOpen: bool
    var unreadChatCount: int

    /** The state this draft currently describes. */
    function Snapshot(): State
      reads this
    {
      State(loggedIn, user, flashMessages, isSearchOpen, isChatOpen, unreadChatCount)
    }

    /** A draft of the current state `s`. */
    constructor (s: State)
      ensures Snapshot() == s
    {
      loggedIn := s.loggedIn;
      user := s.user;
      flashMessages := s.flashMessages;
      isSearchOpen := s.isSearchOpen;
      isChatOpen := s.isChatOpen;
      unreadChatCount := s.unreadChatCount;
    }

    /** Runs the reducer's case for `a` on this draft. */
    method Apply(a: Action)
      modifies this
      ensures Snapshot() == Reduce(old(Snapshot()), a)
      ensures Valid(old(Snapshot())) ==> Valid(Snapshot())
    {
      match a {
        case Login(data) =>
          loggedIn := true;
          user := data;
        case Logout =>
          loggedIn := false;
        case FlashMessage(v) =>
          flashMessages := flashMessages + [v];
        case OpenSearch =>
          isSearchOpen := true;
        case CloseSearch =>
          isSearchOpen := false;
        case ToggleChat =>
          isChatOpen := !isChatOpen;
        case CloseChat =>
          isChatOpen := false;
        case IncrementUnreadChatCount =>
          unreadChatCount := unreadChatCount + 1;
        case ClearUnreadChatCount =>
          unreadChatCount := 0;
        case Other(_) =>
      }
    }
  }
}
