/** The pure parts of the chat controller (App.tsx): the seed greeting,
    the choice of outgoing text and call shape, the message-list updaters
    that one turn applies, feedback, and the repair of a persisted history. */
module Conversation {
  import opened ChatTypes
  import Decimal
  import Citations

  const GREETING_TEXT: string :=
    "Hello, I'm the Health Inclusion Coach. Think of me as a safe and confidential partner to help you explore topics around equality, diversity, and inclusion. Everything we discuss here is private. How can I support your reflection and learning today?"

  /** What a failed turn shows in place of the answer. */
  const APOLOGY: string :=
    "I'm sorry, I'm having trouble connecting right now. Please try again later."

  const DOCUMENT_LABEL_PREFIX: string := "Analyze the document: "

  /** One streamed piece of an answer. */
  datatype Chunk = Chunk(text: string, sources: Option<seq<Source>>)

  /** What the model service gives back for one call: the chunks it
      delivers, in order, and whether it then raises instead of ending. */
  datatype Stream = Stream(chunks: seq<Chunk>, fails: bool)

  /** The two service calls: `getChatResponseStream(history, text)` and
      `getDeepDiveResponseStream(text, file)`. */
  datatype Call =
    | ChatCall(history: seq<Message>, text: string)
    | DeepDiveCall(text: string, file: Option<File>)

  datatype Mode = ChatMode | DeepDiveMode

  /** `loadingState`: `mode` is `None` between turns. */
  datatype LoadingState = LoadingState(mode: Option<Mode>, fileName: Option<string>)

  const IDLE: LoadingState := LoadingState(None, None)

  datatype Page = LoginPage | ChatPage | SettingsPage

  /** A message as read back from the persisted snapshot: `id` may be
      missing, and `feedback` is `Unset` when the key is absent. */
  datatype StoredMessage = StoredMessage(
    id: Option<string>,
    author: Author,
    content: string,
    sources: Option<seq<Source>>,
    feedback: Feedback)

  /** `GREETING_MESSAGE`, whose id is fixed when the page loads. */
  function Greeting(loadTime: nat): (g: Message)
    ensures g.author == AI && g.content == GREETING_TEXT && g.feedback == Cleared
    ensures |g.id| > 0
  {
    Message("greeting-" + Decimal.FromNat(loadTime), AI, GREETING_TEXT, None, Cleared)
  }

  /** The id `<prefix>-<clock>` given to a message created at `time`. */
  function StampedId(prefix: string, time: nat): string {
    prefix + "-" + Decimal.FromNat(time)
  }

  /** `newMessage || (file ? "Analyze the document: " + file.name : "")` */
  function OutgoingText(newMessage: string, file: Option<File>): (text: string)
    ensures newMessage != "" ==> text == newMessage
    ensures newMessage == "" && file.Some? ==> text == DOCUMENT_LABEL_PREFIX + file.value.name
    ensures text == "" <==> newMessage == "" && file.None?
  {
    if newMessage != "" then newMessage
    else if file.Some? then DOCUMENT_LABEL_PREFIX + file.value.name
    else ""
  }

  /** Deep-dive when thinking mode is on or a file is attached, otherwise a
      chat call that carries the history as it was before the turn. */
  function ChooseCall(thinking: bool, file: Option<File>, history: seq<Message>, text: string): (c: Call)
    ensures c.DeepDiveCall? <==> thinking || file.Some?
    ensures c.text == text
    ensures c.DeepDiveCall? ==> c.file == file
    ensures c.ChatCall? ==> c.history == history
  {
    if thinking || file.Some? then DeepDiveCall(text, file) else ChatCall(history, text)
  }

  /** The loading state shown while the call is outstanding. */
  function InFlight(c: Call, file: Option<File>): (ls: LoadingState)
    ensures ls.mode.Some?
    ensures ls.mode == Some(DeepDiveMode) <==> c.DeepDiveCall?
    ensures ls.fileName.Some? <==> file.Some?
    ensures file.Some? ==> ls.fileName == Some(file.value.name)
  {
    LoadingState(Some(if c.DeepDiveCall? then DeepDiveMode else ChatMode),
                 if file.Some? then Some(file.value.name) else None)
  }

  function UserMessage(id: string, text: string): Message {
    Message(id, User, text, None, Unset)
  }

  /** The empty answer appended next to the user's message. */
  function Placeholder(id: string): Message {
    Message(id, AI, "", Some([]), Cleared)
  }

  /** `accumulatedText`: the texts of the chunks, in arrival order. */
  function TextOf(chunks: seq<Chunk>): string {
    if chunks == [] then "" else TextOf(chunks[..|chunks| - 1]) + chunks[|chunks| - 1].text
  }

  /** `accumulatedSources`: every non-empty source list, in arrival order. */
  function SourcesOf(chunks: seq<Chunk>): seq<Source> {
    if chunks == [] then []
    else
      var c := chunks[|chunks| - 1];
      SourcesOf(chunks[..|chunks| - 1]) + if c.sources.Some? && |c.sources.value| > 0 then c.sources.value else []
  }

  /** The per-chunk updater: when the last message is an answer, its text
      becomes `text` and its sources the deduplicated `sources`. */
  function UpdateLast(ms: seq<Message>, text: string, sources: seq<Source>): seq<Message> {
    if ms != [] && ms[|ms| - 1].author == AI then
      ms[|ms| - 1 := ms[|ms| - 1].(content := text, sources := Some(Citations.Dedup(sources)))]
    else ms
  }

  /** The updater run when the stream raises: the last answer's text becomes
      the apology; when the last message is not an answer, an apology is
      appended instead. */
  function ApplyFailure(ms: seq<Message>, errorId: string): seq<Message> {
    if ms != [] && ms[|ms| - 1].author == AI then
      ms[|ms| - 1 := ms[|ms| - 1].(content := APOLOGY)]
    else ms + [Message(errorId, AI, APOLOGY, None, Cleared)]
  }

  /** The list after the chunks have been folded in. */
  function Streamed(base: seq<Message>, chunks: seq<Chunk>): seq<Message> {
    if chunks == [] then base else UpdateLast(base, TextOf(chunks), SourcesOf(chunks))
  }

  /** The message list at the end of one accepted turn. */
  function Turn(ms: seq<Message>, text: string, stream: Stream, userId: string, aiId: string, errorId: string): seq<Message> {
    var streamed := Streamed(ms + [UserMessage(userId, text), Placeholder(aiId)], stream.chunks);
    if stream.fails then ApplyFailure(streamed, errorId) else streamed
  }

  /** `handleFeedback(id, f)`: every message with that id gets feedback `f`. */
  function SetFeedback(ms: seq<Message>, id: string, f: Option<Vote>): seq<Message> {
    seq(|ms|, i requires 0 <= i < |ms| =>
      if ms[i].id == id then ms[i].(feedback := FeedbackOf(f)) else ms[i])
  }

  /** `'up' | 'down' | null` as a feedback field. */
  function FeedbackOf(f: Option<Vote>): (fb: Feedback)
    ensures fb != Unset
  {
    match f
    case Some(v) => Rated(v)
    case None => Cleared
  }

  /** The id a repaired message gets when it has none: `<author>-<clock>-<index>`. */
  function RepairId(author: Author, now: nat, index: nat): string {
    AuthorTag(author) + "-" + Decimal.FromNat(now) + "-" + Decimal.FromNat(index)
  }

  /** One message of the loaded history: an empty or missing id is
      synthesized, a missing feedback becomes `null`. */
  function RepairOne(m: StoredMessage, now: nat, index: nat): Message {
    Message(
      if m.id.Some? && m.id.value != "" then m.id.value else RepairId(m.author, now, index),
      m.author,
      m.content,
      m.sources,
      if m.feedback == Unset then Cleared else m.feedback)
  }

  /** The history loaded at start-up, repaired message by message. */
  function Repair(stored: seq<StoredMessage>, now: nat): seq<Message> {
    seq(|stored|, i requires 0 <= i < |stored| => RepairOne(stored[i], now, i))
  }

  /** `JSON.stringify(messages)` read back as records. */
  function Serialize(ms: seq<Message>): seq<StoredMessage> {
    seq(|ms|, i requires 0 <= i < |ms| =>
      StoredMessage(Some(ms[i].id), ms[i].author, ms[i].content, ms[i].sources, ms[i].feedback))
  }

  /** The history is written only on the chat page and only once it holds
      more than the greeting. */
  predicate ShouldPersist(page: Page, ms: seq<Message>) {
    page == ChatPage && |ms| > 1
  }

  /** Conversation starters are offered until the first turn. */
  predicate ShowStarters(ms: seq<Message>) {
    |ms| <= 1
  }

  // ---------------------------------------------------------------------
  // What one turn does to the conversation

  /** Chunk texts concatenate: the text of two runs of chunks is the text of
      the first followed by the text of the second. */
  lemma {:induction false} TextOfAppend(a: seq<Chunk>, b: seq<Chunk>)
    ensures TextOf(a + b) == TextOf(a) + TextOf(b)
    decreases |b|
  {
    if b != [] {
      var b' := b[..|b| - 1];
      assert (a + b)[..|a + b| - 1] == a + b';
      assert (a + b)[|a + b| - 1] == b[|b| - 1];
      TextOfAppend(a, b');
      calc {
        TextOf(a + b);
        TextOf(a + b') + b[|b| - 1].text;
        TextOf(a) + TextOf(b') + b[|b| - 1].text;
        TextOf(a) + (TextOf(b') + b[|b| - 1].text);
      }
    } else {
      assert a + b == a;
    }
  }

  /** Arrival order: the accumulated text is the text of the chunks before
      chunk `i`, then chunk `i`'s own text, then the text of those after. */
  lemma TextOfInOrder(chunks: seq<Chunk>, i: nat)
    requires i < |chunks|
    ensures TextOf(chunks) == TextOf(chunks[..i]) + chunks[i].text + TextOf(chunks[i + 1..])
  {
    var front, back := chunks[..i + 1], chunks[i + 1..];
    assert chunks == front + back;
    TextOfAppend(front, back);
    assert front[..|front| - 1] == chunks[..i] && front[|front| - 1] == chunks[i];
    assert TextOf(front) == TextOf(chunks[..i]) + chunks[i].text;
  }

  /** While streaming, the answer only grows: the text after `i` chunks is
      a prefix of the text after any later count. */
  lemma AnswerGrows(chunks: seq<Chunk>, i: nat, j: nat)
    requires i <= j <= |chunks|
    ensures TextOf(chunks[..i]) <= TextOf(chunks[..j])
  {
    assert chunks[..j] == chunks[..i] + chunks[i..j];
    TextOfAppend(chunks[..i], chunks[i..j]);
  }

  /** Source lists accumulate in arrival order as well. */
  lemma {:induction false} SourcesOfAppend(a: seq<Chunk>, b: seq<Chunk>)
    ensures SourcesOf(a + b) == SourcesOf(a) + SourcesOf(b)
    decreases |b|
  {
    if b != [] {
      var b' := b[..|b| - 1];
      assert (a + b)[..|a + b| - 1] == a + b';
      assert (a + b)[|a + b| - 1] == b[|b| - 1];
      SourcesOfAppend(a, b');
      var c := b[|b| - 1];
      var extra := if c.sources.Some? && |c.sources.value| > 0 then c.sources.value else [];
      calc {
        SourcesOf(a + b);
        SourcesOf(a + b') + extra;
        SourcesOf(a) + SourcesOf(b') + extra;
        SourcesOf(a) + (SourcesOf(b') + extra);
      }
    } else {
      assert a + b == a;
    }
  }

  /** The per-chunk updater touches nothing but the last message, and that
      only when it is an answer: its text and sources change, its id,
      author and feedback stay. */
  lemma UpdateLastEffect(ms: seq<Message>, text: string, sources: seq<Source>)
    ensures var r := UpdateLast(ms, text, sources);
      && |r| == |ms|
      && (forall i :: 0 <= i < |ms| - 1 ==> r[i] == ms[i])
      && (ms == [] || ms[|ms| - 1].author != AI ==> r == ms)
      && (ms != [] && ms[|ms| - 1].author == AI ==>
            var last, old_last := r[|ms| - 1], ms[|ms| - 1];
            && last.content == text
            && last.sources == Some(Citations.Dedup(sources))
            && last.id == old_last.id && last.author == AI && last.feedback == old_last.feedback)
  {
  }

  /** Each chunk rewrites the answer from the totals so far, so only the
      latest update is visible. */
  lemma UpdateLastTwice(ms: seq<Message>, a: string, s: seq<Source>, b: string, t: seq<Source>)
    ensures UpdateLast(UpdateLast(ms, a, s), b, t) == UpdateLast(ms, b, t)
  {
  }

  /** The failure updater overwrites only the content of a trailing answer,
      keeping its sources; after anything else it appends a fresh apology. */
  lemma ApplyFailureEffect(ms: seq<Message>, errorId: string)
    ensures var r := ApplyFailure(ms, errorId);
      && r[|r| - 1].author == AI && r[|r| - 1].content == APOLOGY
      && (ms != [] && ms[|ms| - 1].author == AI ==>
            && |r| == |ms| && r[..|ms| - 1] == ms[..|ms| - 1]
            && r[|ms| - 1] == ms[|ms| - 1].(content := APOLOGY))
      && (ms == [] || ms[|ms| - 1].author != AI ==>
            r == ms + [Message(errorId, AI, APOLOGY, None, Cleared)])
  {
  }

  /** An accepted turn appends exactly two messages, the user's and the
      answer, and leaves the earlier ones as they were. */
  lemma TurnAppendsPair(ms: seq<Message>, text: string, stream: Stream, userId: string, aiId: string, errorId: string)
    ensures var r := Turn(ms, text, stream, userId, aiId, errorId);
      && |r| == |ms| + 2
      && r[..|ms|] == ms
      && r[|ms|] == UserMessage(userId, text)
      && r[|ms| + 1].id == aiId && r[|ms| + 1].author == AI && r[|ms| + 1].feedback == Cleared
  {
    var base := ms + [UserMessage(userId, text), Placeholder(aiId)];
    var streamed := Streamed(base, stream.chunks);
    assert |streamed| == |base| && streamed[..|ms| + 1] == base[..|ms| + 1];
    assert base[..|ms| + 1] == ms + [UserMessage(userId, text)];
  }

  /** A stream that ends normally leaves an answer holding the chunk texts
      in arrival order and the deduplicated union of their sources. */
  lemma TurnAnswer(ms: seq<Message>, text: string, stream: Stream, userId: string, aiId: string, errorId: string)
    requires !stream.fails
    ensures var r := Turn(ms, text, stream, userId, aiId, errorId);
      r[|r| - 1] == Message(aiId, AI, TextOf(stream.chunks),
                            Some(Citations.Dedup(SourcesOf(stream.chunks))), Cleared)
  {
    TurnAppendsPair(ms, text, stream, userId, aiId, errorId);
  }

  /** A stream that raises, before or after any chunk, leaves the apology
      as the answer's whole text; the sources gathered so far stay. */
  lemma TurnFailure(ms: seq<Message>, text: string, stream: Stream, userId: string, aiId: string, errorId: string)
    requires stream.fails
    ensures var r := Turn(ms, text, stream, userId, aiId, errorId);
      r[|r| - 1] == Message(aiId, AI, APOLOGY,
                            Some(Citations.Dedup(SourcesOf(stream.chunks))), Cleared)
  {
    TurnAppendsPair(ms, text, stream, userId, aiId, errorId);
  }

  // ---------------------------------------------------------------------
  // Feedback

  /** Feedback changes only the `feedback` of the messages with that id. */
  lemma SetFeedbackEffect(ms: seq<Message>, id: string, f: Option<Vote>)
    ensures var r := SetFeedback(ms, id, f);
      && |r| == |ms|
      && forall i :: 0 <= i < |ms| ==>
           && r[i].(feedback := ms[i].feedback) == ms[i]
           && r[i].feedback == if ms[i].id == id then FeedbackOf(f) else ms[i].feedback
  {
  }

  // ---------------------------------------------------------------------
  // Persisted history

  /** What the repair keeps and what it fills in. */
  lemma RepairEffect(stored: seq<StoredMessage>, now: nat)
    ensures var r := Repair(stored, now);
      && |r| == |stored|
      && forall i :: 0 <= i < |r| ==>
           && r[i].author == stored[i].author
           && r[i].content == stored[i].content
           && r[i].sources == stored[i].sources
           && r[i].id != ""
           && (stored[i].id.Some? && stored[i].id.value != "" ==> r[i].id == stored[i].id.value)
           && (!(stored[i].id.Some? && stored[i].id.value != "") ==>
                 r[i].id == RepairId(stored[i].author, now, i))
           && r[i].feedback != Unset
           && (stored[i].feedback != Unset ==> r[i].feedback == stored[i].feedback)
           && (stored[i].feedback == Unset ==> r[i].feedback == Cleared)
  {
  }

  /** Two messages of one load whose ids were both missing get different
      ids. */
  lemma RepairIdsDistinct(stored: seq<StoredMessage>, now: nat, i: nat, j: nat)
    requires i < |stored| && j < |stored| && i != j
    requires !(stored[i].id.Some? && stored[i].id.value != "")
    requires !(stored[j].id.Some? && stored[j].id.value != "")
    ensures Repair(stored, now)[i].id != Repair(stored, now)[j].id
  {
    RepairIdInjective(stored[i].author, stored[j].author, now, i, j);
  }

  /** Ids synthesized for two different positions differ. */
  lemma RepairIdInjective(a: Author, b: Author, now: nat, i: nat, j: nat)
    requires i != j
    ensures RepairId(a, now, i) != RepairId(b, now, j)
  {
    var p, q := AuthorTag(a) + "-" + Decimal.FromNat(now) + "-", AuthorTag(b) + "-" + Decimal.FromNat(now) + "-";
    var x, y := RepairId(a, now, i), RepairId(b, now, j);
    assert x == p + Decimal.FromNat(i) && y == q + Decimal.FromNat(j);
    if a == b {
      Decimal.FromNatInjective(i, j);
      assert x[|p|..] == Decimal.FromNat(i) && y[|p|..] == Decimal.FromNat(j);
    } else {
      assert x[0] == AuthorTag(a)[0] && y[0] == AuthorTag(b)[0];
    }
  }

  /** Messages as the controller creates them: a non-empty id and a
      feedback field that is present. */
  predicate Repaired(ms: seq<Message>) {
    forall i :: 0 <= i < |ms| ==> ms[i].id != "" && ms[i].feedback != Unset
  }

  /** Saving and loading gives back the same messages, except that an empty
      id is replaced and an absent feedback becomes `null`. */
  lemma RoundTrip(ms: seq<Message>, now: nat)
    ensures var r := Repair(Serialize(ms), now);
      && |r| == |ms|
      && forall i :: 0 <= i < |ms| ==>
           && r[i].author == ms[i].author && r[i].content == ms[i].content
           && r[i].sources == ms[i].sources && r[i].id != ""
           && (ms[i].id != "" ==> r[i].id == ms[i].id)
           && r[i].feedback == if ms[i].feedback == Unset then Cleared else ms[i].feedback
    ensures Repaired(ms) ==> Repair(Serialize(ms), now) == ms
  {
    RepairEffect(Serialize(ms), now);
  }

  /** A repaired history survives another save and load unchanged, whatever
      the clock says. */
  lemma RepairIdempotent(stored: seq<StoredMessage>, t1: nat, t2: nat)
    ensures Repaired(Repair(stored, t1))
    ensures Repair(Serialize(Repair(stored, t1)), t2) == Repair(stored, t1)
  {
    RepairEffect(stored, t1);
    RoundTrip(Repair(stored, t1), t2);
  }
}
