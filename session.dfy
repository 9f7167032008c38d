/** The state the top-level App component keeps, and its handlers: one
    chat turn, feedback, clearing, log-in and log-out, and the two effects
    that load and save the history. The browser's local storage is the two
    `stored…` fields. */
module Session {
  import opened ChatTypes
  import opened Conversation

  /** What an accepted turn sent to the model service, and the loading
      state shown while it was outstanding. */
  datatype Dispatch = Dispatch(call: Call, loading: LoadingState)

  class ChatSession {
    const greeting: Message
    var messages: seq<Message>
    var isLoading: bool
    var isThinkingMode: bool
    var loadingState: LoadingState
    var page: Page
    var user: Option<string>
    /** Local storage: the logged-in user name and the saved history. */
    var storedUser: Option<string>
    var storedHistory: Option<seq<StoredMessage>>

    /** The component's initial state, before its effects run. */
    constructor (loadTime: nat, storedUser: Option<string>, storedHistory: Option<seq<StoredMessage>>)
      ensures greeting == Greeting(loadTime) && messages == [greeting]
      ensures !isLoading && !isThinkingMode && loadingState == IDLE
      ensures page == LoginPage && user == None
      ensures this.storedUser == storedUser && this.storedHistory == storedHistory
    {
      greeting := Greeting(loadTime);
      messages := [Greeting(loadTime)];
      isLoading, isThinkingMode, loadingState := false, false, IDLE;
      page, user := LoginPage, None;
      this.storedUser, this.storedHistory := storedUser, storedHistory;
    }

    /** The start-up effect: a stored user name opens the chat page, and a
        stored history replaces the greeting after repair. */
    method Restore(now: nat)
      modifies this`user, this`page, this`messages
      ensures storedUser.Some? && storedUser.value != "" ==> user == storedUser && page == ChatPage
      ensures !(storedUser.Some? && storedUser.value != "") ==> user == old(user) && page == LoginPage
      ensures messages == if storedHistory.Some? then Repair(storedHistory.value, now) else old(messages)
    {
      if storedUser.Some? && storedUser.value != "" {
        user := storedUser;
        page := ChatPage;
      } else {
        page := LoginPage;
      }
      if storedHistory.Some? {
        messages := Repair(storedHistory.value, now);
      }
    }

    /** The saving effect, run after the messages or the page change. */
    method Save()
      modifies this`storedHistory
      ensures storedHistory == if ShouldPersist(page, messages) then Some(Serialize(messages)) else old(storedHistory)
    {
      if page == ChatPage && |messages| > 1 {
        storedHistory := Some(Serialize(messages));
      }
    }

    method Login(username: string)
      modifies this`user, this`storedUser, this`page
      ensures user == Some(username) && storedUser == Some(username) && page == ChatPage
    {
      user := Some(username);
      storedUser := Some(username);
      page := ChatPage;
    }

    /** Log-out forgets the user and the history and goes back to the greeting. */
    method Logout()
      modifies this`user, this`storedUser, this`storedHistory, this`messages, this`page
      ensures user == None && storedUser == None && storedHistory == None
      ensures messages == [greeting] && page == LoginPage
      ensures !ShouldPersist(page, messages) && ShowStarters(messages)
    {
      user := None;
      storedUser := None;
      storedHistory := None;
      messages := [greeting];
      page := LoginPage;
    }

    /** Clearing the history keeps the user logged in on the chat page. */
    method ClearHistory()
      modifies this`messages, this`storedHistory, this`page
      ensures messages == [greeting] && storedHistory == None && page == ChatPage
      ensures !ShouldPersist(page, messages) && ShowStarters(messages)
    {
      messages := [greeting];
      storedHistory := None;
      page := ChatPage;
    }

    /** `handleFeedback(id, f)` */
    method Feedback(id: string, f: Option<Vote>)
      modifies this`messages
      ensures messages == SetFeedback(old(messages), id, f)
    {
      messages := SetFeedback(messages, id, f);
    }

    /** `handleSendMessage(newMessage, file)`. The service answers a call
        `c` with the stream `replies(c)`; `now` and `errorTime` are the
        clock readings that stamp the new messages' ids. An empty text with
        no file changes nothing. Otherwise the user's message and an empty
        answer are appended, the call is chosen, the chunks are folded into
        the answer one by one, a failure overwrites the answer with the
        apology, and the loading state is cleared on every path. */
    method SendMessage(newMessage: string, file: Option<File>, replies: Call -> Stream, now: nat, errorTime: nat)
      returns (dispatch: Option<Dispatch>)
      modifies this`messages, this`isLoading, this`loadingState
      ensures OutgoingText(newMessage, file) == "" ==>
        dispatch == None && messages == old(messages)
        && isLoading == old(isLoading) && loadingState == old(loadingState)
      ensures OutgoingText(newMessage, file) != "" ==>
        var text := OutgoingText(newMessage, file);
        var call := ChooseCall(isThinkingMode, file, old(messages), text);
        && dispatch == Some(Dispatch(call, InFlight(call, file)))
        && messages == Turn(old(messages), text, replies(call),
                            StampedId("user", now), StampedId("ai", now), StampedId("error", errorTime))
        && !isLoading && loadingState == IDLE
    {
      var messageText := OutgoingText(newMessage, file);
      if messageText == "" {
        return None;
      }
      var userMessage := UserMessage(StampedId("user", now), messageText);
      var historyForApi := messages;
      var aiPlaceholder := Placeholder(StampedId("ai", now));
      messages := messages + [userMessage, aiPlaceholder];
      isLoading := true;
      var call := ChooseCall(isThinkingMode, file, historyForApi, messageText);
      loadingState := InFlight(call, file);
      dispatch := Some(Dispatch(call, loadingState));

      var stream := replies(call);
      ghost var base := messages;
      var accumulatedText := "";
      var accumulatedSources: seq<Source> := [];
      var i := 0;
      while i < |stream.chunks|
        invariant i <= |stream.chunks|
        invariant accumulatedText == TextOf(stream.chunks[..i])
        invariant accumulatedSources == SourcesOf(stream.chunks[..i])
        invariant messages == Streamed(base, stream.chunks[..i])
      {
        var chunk := stream.chunks[i];
        assert stream.chunks[..i + 1][..i] == stream.chunks[..i];
        accumulatedText := accumulatedText + chunk.text;
        if chunk.sources.Some? && |chunk.sources.value| > 0 {
          accumulatedSources := accumulatedSources + chunk.sources.value;
        }
        UpdateLastTwice(base, TextOf(stream.chunks[..i]), SourcesOf(stream.chunks[..i]),
                        accumulatedText, accumulatedSources);
        messages := UpdateLast(messages, accumulatedText, accumulatedSources);
        i := i + 1;
      }
      assert stream.chunks[..i] == stream.chunks;
      if stream.fails {
        messages := ApplyFailure(messages, StampedId("error", errorTime));
      }
      isLoading := false;
      loadingState := IDLE;
    }
  }
}
