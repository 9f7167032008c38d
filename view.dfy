/** The `Message` component (components/Message.tsx): what one message
    shows — a waiting indicator, or a bubble with its rendered text, the
    feedback buttons and the numbered source list — and what a click on a
    feedback button asks the controller to store. */
module MessageView {
  import opened ChatTypes
  import Decimal
  import Conversation
  import opened Render

  datatype View =
    | ThinkingIndicator
    | DeepDiveIndicator(caption: string)
    | Bubble(author: Author, body: seq<Node>, feedbackButtons: bool, sourceLabels: seq<string>)

  const DEEP_DIVE_WAIT: string := "This may take a moment while I review the details."

  /** The line under "Performing Deep Dive Analysis...". */
  function DeepDiveCaption(fileName: Option<string>): (caption: string)
    ensures fileName.Some? && fileName.value != "" ==>
      caption == "Reviewing \"" + fileName.value + "\"..."
    ensures !(fileName.Some? && fileName.value != "") ==> caption == DEEP_DIVE_WAIT
  {
    if fileName.Some? && fileName.value != "" then "Reviewing \"" + fileName.value + "\"..."
    else DEEP_DIVE_WAIT
  }

  /** The label of source `i`: `[i+1] title`. */
  function SourceLabel(i: nat, s: Source): string {
    "[" + Decimal.FromNat(i + 1) + "] " + s.title
  }

  /** The source list, shown when the message has at least one source. */
  function SourceLabels(sources: Option<seq<Source>>): (labels: seq<string>)
    ensures |labels| == if sources.Some? then |sources.value| else 0
    ensures forall i :: 0 <= i < |labels| ==> labels[i] == SourceLabel(i, sources.value[i])
  {
    if sources.Some? then
      seq(|sources.value|, i requires 0 <= i < |sources.value| => SourceLabel(i, sources.value[i]))
    else []
  }

  /** `<Message message={m} isLoading={isLoading} loadingState={ls} />` */
  function RenderMessage(m: Message, isLoading: bool, ls: Conversation.LoadingState): View {
    if m.author == AI && isLoading && m.content == "" then
      if ls.mode == Some(Conversation.DeepDiveMode) then DeepDiveIndicator(DeepDiveCaption(ls.fileName))
      else ThinkingIndicator
    else
      Bubble(m.author,
             RenderContent(m.content, m.author == AI, isLoading, m.sources),
             m.author == AI && !isLoading && m.content != "",
             SourceLabels(m.sources))
  }

  /** An indicator replaces the bubble exactly while an empty AI message
      is loading, the deep-dive one exactly when the call in flight is a
      deep dive; the feedback buttons show exactly on an AI message with
      text that is not loading, so never beside an indicator. */
  lemma IndicatorsAndButtons(m: Message, isLoading: bool, ls: Conversation.LoadingState)
    ensures var v := RenderMessage(m, isLoading, ls);
      && (!v.Bubble? <==> m.author == AI && isLoading && m.content == "")
      && (v.DeepDiveIndicator? <==>
            m.author == AI && isLoading && m.content == "" && ls.mode == Some(Conversation.DeepDiveMode))
      && (v.Bubble? && v.feedbackButtons <==> m.author == AI && !isLoading && m.content != "")
      && (v.Bubble? ==> v.author == m.author && |v.sourceLabels| == |m.sources.GetOr([])|)
  {
  }

  /** Every citation link in a bubble points at an entry of its source
      list, and the number written in the link is the number that entry
      is labelled with. A user's message, or an AI message without
      sources, has no links at all. */
  lemma CitationsMatchLabels(m: Message, isLoading: bool, ls: Conversation.LoadingState)
    ensures var v := RenderMessage(m, isLoading, ls);
      v.Bubble? ==>
        forall n, k :: 0 <= n < |v.body| && 0 <= k < |v.body[n].inline| && v.body[n].inline[k].CiteLink? ==>
          var link := v.body[n].inline[k];
          && m.author == AI && m.sources.Some?
          && link.index < |v.sourceLabels|
          && Decimal.AllDigits(link.digits)
          && v.sourceLabels[link.index]
             == "[" + Decimal.FromNat(Decimal.Value(link.digits)) + "] " + m.sources.value[link.index].title
  {
    var v := RenderMessage(m, isLoading, ls);
    if v.Bubble? {
      RenderContentLinks(m.content, m.author == AI, isLoading, m.sources);
      var cite := m.author == AI && m.sources.Some? && |m.sources.value| > 0;
      var count := if m.sources.Some? then |m.sources.value| else 0;
      forall n, k | 0 <= n < |v.body| && 0 <= k < |v.body[n].inline| && v.body[n].inline[k].CiteLink?
        ensures var link := v.body[n].inline[k];
          && m.author == AI && m.sources.Some?
          && link.index < |v.sourceLabels|
          && Decimal.AllDigits(link.digits)
          && v.sourceLabels[link.index]
             == "[" + Decimal.FromNat(Decimal.Value(link.digits)) + "] " + m.sources.value[link.index].title
      {
        var x := v.body[n].inline;
        assert x[k].CiteLink?;
        assert cite;
        assert LinksValid(x, count);
        assert x[k].index < count;
      }
    }
  }

  // ---------------------------------------------------------------------
  // The text a citation link shows

  /** As written, the link text is the template `[$1]` returned from a
      replacer function; JavaScript expands `$1` only in a replacement
      string, so every link shows the literal text `[$1]`. */
  function LinkTextAsWritten(link: Tok): string
    requires link.CiteLink?
  {
    "[$1]"
  }

  /** The number a reader sees on a link: the marker as the model wrote it. */
  function LinkText(link: Tok): (text: string)
    requires link.CiteLink?
    ensures |text| == |link.digits| + 2 && text[1..|text| - 1] == link.digits
  {
    "[" + link.digits + "]"
  }

  /** As written, links to different sources look the same, and none shows
      its number. */
  lemma LinkTextAsWrittenHidesNumber(a: Tok, b: Tok)
    requires a.CiteLink? && b.CiteLink?
    ensures LinkTextAsWritten(a) == LinkTextAsWritten(b)
    ensures LinkTextAsWritten(CiteLink(0, "1")) != LinkText(CiteLink(0, "1"))
  {
  }

  /** With the corrected text, links to different sources look different,
      and each shows the number that parses to its source's position. */
  lemma LinkTextShowsNumber(a: Tok, b: Tok, count: nat)
    requires a.CiteLink? && b.CiteLink? && LinksValid([a, b], count)
    ensures a.index != b.index ==> LinkText(a) != LinkText(b)
    ensures var d := LinkText(a)[1..|LinkText(a)| - 1];
      Decimal.AllDigits(d) && Decimal.Value(d) == a.index + 1
  {
    assert [a, b][0] == a && [a, b][1] == b;
  }

  // ---------------------------------------------------------------------
  // Feedback buttons

  /** `handleFeedback(vote)`: clicking the vote already given withdraws it
      (`null`); any other click gives that vote. */
  function ToggleFeedback(current: Feedback, clicked: Vote): (next: Option<Vote>)
    ensures next == None <==> current == Rated(clicked)
    ensures next != None ==> next == Some(clicked)
  {
    if current == Rated(clicked) then None else Some(clicked)
  }

  /** A click on a feedback button of message `i`, stored by the controller. */
  function Click(ms: seq<Message>, i: nat, vote: Vote): seq<Message>
    requires i < |ms|
  {
    Conversation.SetFeedback(ms, ms[i].id, ToggleFeedback(ms[i].feedback, vote))
  }

  /** Clicking the same button twice leaves a given vote in place but turns
      a missing or withdrawn one into `null`; the text is never touched. */
  lemma ClickTwice(ms: seq<Message>, i: nat, vote: Vote)
    requires i < |ms|
    ensures var r := Click(Click(ms, i, vote), i, vote);
      && |r| == |ms|
      && r[i].feedback == (if ms[i].feedback == Rated(vote) then Rated(vote) else Cleared)
      && r[i].(feedback := ms[i].feedback) == ms[i]
  {
    var once := Click(ms, i, vote);
    Conversation.SetFeedbackEffect(ms, ms[i].id, ToggleFeedback(ms[i].feedback, vote));
    Conversation.SetFeedbackEffect(once, once[i].id, ToggleFeedback(once[i].feedback, vote));
  }

  /** The second button replaces the first vote. */
  lemma ClickOther(ms: seq<Message>, i: nat, first: Vote, second: Vote)
    requires i < |ms| && first != second
    ensures Click(Click(ms, i, first), i, second)[i].feedback == Rated(second)
  {
    var once := Click(ms, i, first);
    Conversation.SetFeedbackEffect(ms, ms[i].id, ToggleFeedback(ms[i].feedback, first));
    Conversation.SetFeedbackEffect(once, once[i].id, ToggleFeedback(once[i].feedback, second));
  }
}
