/** The `ChatWindow` component (components/ChatWindow.tsx): the message
    list, the conversation starters, and the composer — the text input,
    the attached file, and the submit, summarize, attach and remove
    handlers. The controller it talks to is the `ChatSession` it was
    given; `onSendMessage` and `setIsThinkingMode` act on that object. */
module Composer {
  import opened ChatTypes
  import JsText
  import opened Conversation
  import Session
  import opened Render
  import opened MessageView

  const SUMMARY_PROMPT: string := "Please provide a concise summary of the attached document."

  const DEFAULT_PLACEHOLDER: string := "Ask the Inclusion Coach..."

  /** The message list: only the last message is told that a turn is loading. */
  function MessageViews(ms: seq<Message>, isLoading: bool, ls: LoadingState): (views: seq<View>)
    ensures |views| == |ms|
  {
    seq(|ms|, i requires 0 <= i < |ms| => RenderMessage(ms[i], isLoading && i == |ms| - 1, ls))
  }

  /** Every message but the last shows as a bubble with no streaming
      cursor, whatever the loading state; the last waits or streams only
      while a turn is loading. */
  lemma OnlyLastWaits(ms: seq<Message>, isLoading: bool, ls: LoadingState)
    ensures var views := MessageViews(ms, isLoading, ls);
      forall i :: 0 <= i < |ms| ==>
        && (!views[i].Bubble? ==> isLoading && i == |ms| - 1)
        && (views[i].Bubble? ==>
              forall n :: 0 <= n < |views[i].body| ==>
                (Cursor in views[i].body[n].inline ==> isLoading && i == |ms| - 1))
  {
    var views := MessageViews(ms, isLoading, ls);
    forall i | 0 <= i < |ms|
      ensures && (!views[i].Bubble? ==> isLoading && i == |ms| - 1)
              && (views[i].Bubble? ==>
                    forall n :: 0 <= n < |views[i].body| ==>
                      (Cursor in views[i].body[n].inline ==> isLoading && i == |ms| - 1))
    {
      var m := ms[i];
      RenderContentCursor(m.content, m.author == AI, isLoading && i == |ms| - 1, m.sources);
    }
  }

  class ChatWindow {
    var inputValue: string
    var attachedFile: Option<File>
    const app: Session.ChatSession

    constructor (app: Session.ChatSession)
      ensures this.app == app && inputValue == "" && attachedFile == None
    {
      this.app := app;
      inputValue := "";
      attachedFile := None;
    }

    /** The send button: disabled while loading, or when there is neither
        text (after trimming) nor a file. */
    predicate SubmitDisabled()
      reads this, app
    {
      app.isLoading || (JsText.Trim(inputValue) == "" && attachedFile == None)
    }

    /** The attach button and the text input are disabled while loading;
        the summarize button never is. */
    predicate InputDisabled()
      reads app
    {
      app.isLoading
    }

    function InputPlaceholder(): (p: string)
      reads this
      ensures attachedFile == None <==> p == DEFAULT_PLACEHOLDER
    {
      if attachedFile.Some? then
        var p := "Ask a question about " + attachedFile.value.name;
        assert p[4] != DEFAULT_PLACEHOLDER[4];
        p
      else DEFAULT_PLACEHOLDER
    }

    /** Starters are offered until the first turn. */
    predicate StartersShown()
      reads app
    {
      ShowStarters(app.messages)
    }

    /** The text input's `onChange`. */
    method Edit(value: string)
      modifies this`inputValue
      ensures inputValue == value
    {
      inputValue := value;
    }

    /** `handleSelectStarter(starter)`: fills the input, sends nothing. */
    method SelectStarter(starter: string)
      modifies this`inputValue
      ensures inputValue == starter
    {
      inputValue := starter;
    }

    /** `handleFileChange`: the first chosen file is attached and thinking
        mode is switched on; choosing nothing changes nothing. */
    method FileChange(files: seq<File>)
      modifies this`attachedFile, app`isThinkingMode
      ensures |files| > 0 ==> attachedFile == Some(files[0]) && app.isThinkingMode
      ensures |files| == 0 ==>
        attachedFile == old(attachedFile) && app.isThinkingMode == old(app.isThinkingMode)
    {
      if |files| > 0 {
        attachedFile := Some(files[0]);
        app.isThinkingMode := true;
      }
    }

    /** `handleRemoveFile`: only the attachment goes; thinking mode, once
        switched on by attaching, stays on. */
    method RemoveFile()
      modifies this`attachedFile
      ensures attachedFile == None
    {
      attachedFile := None;
    }

    /** `sendMessageAndClear(message, file)`: with neither text nor file
        nothing happens; otherwise the turn is run and the composer is
        cleared. */
    method SendMessageAndClear(message: string, file: Option<File>, replies: Call -> Stream, now: nat, errorTime: nat)
      returns (dispatch: Option<Session.Dispatch>)
      modifies this`inputValue, this`attachedFile, app`messages, app`isLoading, app`loadingState
      ensures message == "" && file == None ==>
        && dispatch == None && inputValue == old(inputValue) && attachedFile == old(attachedFile)
        && app.messages == old(app.messages) && app.isLoading == old(app.isLoading)
        && app.loadingState == old(app.loadingState)
      ensures !(message == "" && file == None) ==>
        var text := OutgoingText(message, file);
        var call := ChooseCall(app.isThinkingMode, file, old(app.messages), text);
        && text != ""
        && dispatch == Some(Session.Dispatch(call, InFlight(call, file)))
        && app.messages == Turn(old(app.messages), text, replies(call),
                                StampedId("user", now), StampedId("ai", now), StampedId("error", errorTime))
        && !app.isLoading && app.loadingState == IDLE
        && inputValue == "" && attachedFile == None
    {
      if message == "" && file == None {
        return None;
      }
      dispatch := app.SendMessage(message, file, replies, now, errorTime);
      inputValue := "";
      attachedFile := None;
    }

    /** `handleSubmit`: sends the trimmed input with the attachment. Unless
        the send button would have been disabled for want of text and
        file, the turn is run; an attachment or thinking mode makes it a
        deep dive on that file. */
    method Submit(replies: Call -> Stream, now: nat, errorTime: nat)
      returns (dispatch: Option<Session.Dispatch>)
      modifies this`inputValue, this`attachedFile, app`messages, app`isLoading, app`loadingState
      ensures dispatch.Some? <==> !(JsText.Trim(old(inputValue)) == "" && old(attachedFile) == None)
      ensures dispatch.Some? ==>
        && dispatch.value.call.text == OutgoingText(JsText.Trim(old(inputValue)), old(attachedFile))
        && dispatch.value.call == ChooseCall(app.isThinkingMode, old(attachedFile), old(app.messages),
                                             dispatch.value.call.text)
        && (dispatch.value.call.ChatCall? ==> dispatch.value.call.history == old(app.messages))
        && (dispatch.value.call.DeepDiveCall? <==> app.isThinkingMode || old(attachedFile).Some?)
        && (dispatch.value.call.DeepDiveCall? ==> dispatch.value.call.file == old(attachedFile))
        && dispatch.value.loading == InFlight(dispatch.value.call, old(attachedFile))
        && app.messages == Turn(old(app.messages), dispatch.value.call.text, replies(dispatch.value.call),
                                StampedId("user", now), StampedId("ai", now), StampedId("error", errorTime))
        && inputValue == "" && attachedFile == None && !app.isLoading && app.loadingState == IDLE
      ensures dispatch.None? ==>
        && app.messages == old(app.messages) && app.isLoading == old(app.isLoading)
        && app.loadingState == old(app.loadingState)
        && inputValue == old(inputValue) && attachedFile == old(attachedFile)
    {
      dispatch := SendMessageAndClear(JsText.Trim(inputValue), attachedFile, replies, now, errorTime);
    }

    /** `handleSummarizeClick`: asks for a summary of the attachment. The
        request goes out like any other send: a deep dive on the attached
        file when there is one or thinking mode is on, otherwise a chat call
        carrying the history. */
    method Summarize(replies: Call -> Stream, now: nat, errorTime: nat)
      returns (dispatch: Option<Session.Dispatch>)
      modifies this`inputValue, this`attachedFile, app`messages, app`isLoading, app`loadingState
      ensures dispatch.Some?
      ensures dispatch.value.call.text == SUMMARY_PROMPT
      ensures dispatch.value.call == ChooseCall(app.isThinkingMode, old(attachedFile), old(app.messages), SUMMARY_PROMPT)
      ensures dispatch.value.loading == InFlight(dispatch.value.call, old(attachedFile))
      ensures dispatch.value.call.DeepDiveCall? <==> app.isThinkingMode || old(attachedFile).Some?
      ensures old(attachedFile).None? && app.isThinkingMode ==>
        dispatch.value.call == DeepDiveCall(SUMMARY_PROMPT, None)
        && dispatch.value.loading == LoadingState(Some(DeepDiveMode), None)
      ensures old(attachedFile).Some? ==>
        dispatch.value.call == DeepDiveCall(SUMMARY_PROMPT, old(attachedFile))
        && dispatch.value.loading == LoadingState(Some(DeepDiveMode), Some(old(attachedFile).value.name))
      ensures old(attachedFile).None? && !app.isThinkingMode ==>
        dispatch.value.call == ChatCall(old(app.messages), SUMMARY_PROMPT)
        && dispatch.value.loading == LoadingState(Some(ChatMode), None)
      ensures app.messages == Turn(old(app.messages), SUMMARY_PROMPT, replies(dispatch.value.call),
                                   StampedId("user", now), StampedId("ai", now), StampedId("error", errorTime))
      ensures inputValue == "" && attachedFile == None && !app.isLoading && app.loadingState == IDLE
    {
      dispatch := SendMessageAndClear(SUMMARY_PROMPT, attachedFile, replies, now, errorTime);
    }
  }

  /** The send button is enabled exactly when no turn is loading and the
      controller would accept what it sends: a non-empty trimmed text, or
      the document label of an attachment. */
  lemma SendEnabledIffAccepted(w: ChatWindow)
    ensures !w.SubmitDisabled() <==>
      !w.app.isLoading && OutgoingText(JsText.Trim(w.inputValue), w.attachedFile) != ""
  {
  }

  /** Attaching a file and pressing Summarize sends a deep dive on that very
      file, labelled with its name, and leaves the composer empty. */
  method AttachThenSummarize(w: ChatWindow, f: File, replies: Call -> Stream, now: nat, errorTime: nat)
    returns (dispatch: Option<Session.Dispatch>)
    modifies w`inputValue, w`attachedFile, w.app`messages, w.app`isLoading, w.app`loadingState, w.app`isThinkingMode
    ensures dispatch == Some(Session.Dispatch(DeepDiveCall(SUMMARY_PROMPT, Some(f)),
                                              LoadingState(Some(DeepDiveMode), Some(f.name))))
    ensures w.app.messages == Turn(old(w.app.messages), SUMMARY_PROMPT, replies(DeepDiveCall(SUMMARY_PROMPT, Some(f))),
                                   StampedId("user", now), StampedId("ai", now), StampedId("error", errorTime))
    ensures w.app.isThinkingMode && w.inputValue == "" && w.attachedFile == None
    ensures !w.app.isLoading && w.app.loadingState == IDLE
  {
    w.FileChange([f]);
    dispatch := w.Summarize(replies, now, errorTime);
  }
}
