# Health Inclusion Coach — a verified model of the chat client's core

The Health Inclusion Coach is a browser chat client. A user converses with an
AI coach about equality, diversity and inclusion, and may attach a document
for a "deep dive". This project models the part of the client that holds
logic, and proves properties of that model:

- **The conversation controller** (`App.tsx`): one chat turn
  (`handleSendMessage`), feedback, clearing the history, log-in and log-out,
  and the two effects that load and save the history. The turn is the class
  method `Session.ChatSession.SendMessage`. Its `while` loop folds the
  streamed chunks into the answer, and its contract ties the new state to
  the pure function `Conversation.Turn`. The pure pieces are in
  `Conversation`: choice of text and call, the updaters, feedback, history
  repair. The source deduplication by uri (`new Map(...)`) is in
  `Citations`.
- **One message on screen** (`components/Message.tsx`): the waiting
  indicators, the feedback buttons and their toggle, the numbered source
  list, and `renderContent`. `renderContent` splits the text into lines,
  marks `**bold**`, turns `[n]` into citation links, and makes `* ` and
  `- ` lines list items. `Render` gives it structured output: a line is a
  `Paragraph` or a `ListItem` holding a sequence of tokens. A token is a
  character, a bold tag, a citation link or the streaming cursor; there is
  no HTML. `MessageView` is the component around it.
- **The composer** (`components/ChatWindow.tsx`): the class
  `Composer.ChatWindow` holds the input text and the attachment. Its methods
  are the component's handlers. It acts on the `ChatSession` it was given,
  standing in for the `onSendMessage` and `setIsThinkingMode` props.

Supporting modules: `ChatTypes` holds the records of `types.ts`. `Decimal`
holds decimal numerals, for `${Date.now()}` in ids, `[i+1]` labels and
`parseInt`. `JsText` holds JavaScript's `String.prototype.trim`, with its
whitespace set.

The model service is a parameter `replies: Call -> Stream`. A `Stream` is
the finite list of chunks the service delivers, plus whether it then raises
an error. An error before the first chunk is a stream with no chunks that
raises. Clock readings (`Date.now()`) are parameters. Local storage is the
two fields `storedUser` and `storedHistory` of `ChatSession`.

Points of the code's behaviour worth noting:

- Nothing in the controller refuses a second turn while one is loading.
  The rendered composer offers no second send, though. The send and
  attach buttons are disabled while loading. The Summarize button, which
  has no `disabled` of its own, is shown only while a file is attached,
  and every send clears the attachment.
- Thinking mode, once switched on by attaching a file, stays on. Removing
  the file does not reset it, and neither does finishing a turn.
- A failed turn overwrites only the answer's text. Sources gathered before
  the failure stay.
- Summarize clears the attachment, like every send: `sendMessageAndClear`
  resets it.
- A bullet line is tested on the trimmed line but cut with `substring(2)`
  on the untrimmed one. A bullet indented by two or more blanks therefore
  keeps its marker and loses two leading blanks; one indented by a single
  blank loses that blank and the marker, and keeps the blank after it.
  `Render.RenderContentLines` states exactly what each node spells.

## Model

| member | source | states |
|---|---|---|
| ChatTypes.AuthorTag | types.ts:2-5 | the author's string form is `"user"` exactly for a user, and is never empty |
| Decimal.FromNat | App.tsx:91 | a clock reading prints as a non-empty string of decimal digits |
| Decimal.ValueOfFromNat | components/Message.tsx:80 | `parseInt(_, 10)` of a printed number gives the number back |
| Decimal.FromNatInjective | App.tsx:40 | different numbers print differently |
| JsText.TrimStart | components/ChatWindow.tsx:89 | drops exactly the leading whitespace: the result is a suffix, everything dropped is blank, and it starts with a non-blank |
| JsText.TrimEnd | components/ChatWindow.tsx:89 | drops exactly the trailing whitespace: the result is a prefix, everything dropped is blank, and it ends with a non-blank |
| JsText.TrimIsInfix | components/ChatWindow.tsx:89 | `trim()` returns a contiguous piece of the input, flanked only by whitespace and neither starting nor ending with it |
| JsText.TrimIdempotent | components/ChatWindow.tsx:89 | trimming twice is trimming once |
| JsText.TrimEmptyIffBlank | components/ChatWindow.tsx:168 | the trimmed input is empty exactly when every character is whitespace |
| JsText.TrimStartSkipsBlanks | components/Message.tsx:89 | leading blanks do not change what the trimmed line starts with |
| Citations.IndexOf | App.tsx:132 | a `Map` lookup by uri finds the entry with that key, and finds none exactly when the key is absent |
| Citations.InsertEffect | App.tsx:132 | `Map.set` keeps keys distinct, adds the key, appends a new key at the end, and overwrites the value of an existing key where it stands |
| Citations.DedupKeysAndValues | App.tsx:132 | the deduplicated sources have distinct uris, the same set of uris as the input, and each carries the last source seen with its uri |
| Citations.DedupFirstSeenOrder | App.tsx:132 | the deduplicated sources are ordered by the first appearance of their uri |
| Citations.DedupOfDistinct | App.tsx:132 | sources whose uris are already distinct pass through unchanged |
| Citations.DedupIdempotent | App.tsx:132 | deduplicating twice is deduplicating once |
| Citations.DedupLastTitleWins | App.tsx:132 | of two sources with one uri, only the later is kept |
| Conversation.Greeting | App.tsx:9-14 | the seed greeting is an AI message with the fixed greeting text, a non-empty id and `null` feedback |
| Conversation.OutgoingText | App.tsx:87-88 | the text sent is the typed text if non-empty, else the document label for an attachment; it is empty exactly when both are absent |
| Conversation.ChooseCall | App.tsx:107-116 | the call is a deep dive exactly when thinking mode is on or a file is attached; a deep dive carries the file, and a chat call carries the history from before the turn; both carry the outgoing text |
| Conversation.InFlight | App.tsx:108-111 | while a call is out, the mode is `deepDive` exactly for a deep-dive call, and the file name is shown exactly when a file was given |
| Conversation.FeedbackOf | App.tsx:76-80 | a stored vote or `null` is never an absent feedback field |
| Conversation.TextOfAppend | App.tsx:118-122 | the accumulated text of two runs of chunks is the first run's text followed by the second's |
| Conversation.TextOfInOrder | App.tsx:121-122 | the accumulated text holds each chunk's text in arrival order, between the text before it and the text after it |
| Conversation.AnswerGrows | App.tsx:121-131 | while streaming, each update's text extends the previous one |
| Conversation.SourcesOfAppend | App.tsx:119-125 | accumulated sources are the non-empty chunk source lists, concatenated in arrival order |
| Conversation.UpdateLastEffect | App.tsx:127-135 | a chunk update changes only the last message, and only if it is an answer: its text and deduplicated sources change, its id, author and feedback stay |
| Conversation.UpdateLastTwice | App.tsx:127-135 | each chunk update overwrites the previous one, so only the latest totals show |
| Conversation.ApplyFailureEffect | App.tsx:141-156 | a failure turns a trailing answer's text into the apology and keeps everything else; after any other message it appends a new AI apology with `null` feedback |
| Conversation.TurnAppendsPair | App.tsx:90-104 | an accepted turn adds exactly the user's message and one answer with the new ids and `null` feedback, and leaves earlier messages unchanged |
| Conversation.TurnAnswer | App.tsx:118-136 | after a stream that ends normally, the answer holds the chunk texts in order and the deduplicated union of their sources |
| Conversation.TurnFailure | App.tsx:138-156 | after a stream that raises, at any point, the answer's text is the apology and the sources gathered so far stay |
| Conversation.SetFeedbackEffect | App.tsx:76-81 | feedback changes only the `feedback` of the messages with the given id; the list's length and all else stay |
| Conversation.RepairEffect | App.tsx:36-43 | the loaded history keeps length, authors, texts and sources; it keeps a present non-empty id and fills a missing or empty one with `author-now-index`; it keeps a present feedback and turns a missing one into `null` |
| Conversation.RepairIdsDistinct | App.tsx:38-41 | two messages of one load whose ids were both missing get different ids |
| Conversation.RepairIdInjective | App.tsx:40 | the filled-in id `author-now-index` differs for two different positions, whatever the authors |
| Conversation.RoundTrip | App.tsx:36-52 | saving then loading gives the messages back, except that a missing id is filled and a missing feedback becomes `null`; messages with both present come back unchanged |
| Conversation.RepairIdempotent | App.tsx:36-52 | a loaded history survives another save and load unchanged, whatever the clock says |
| Session.ChatSession.constructor | App.tsx:17-23 | the controller starts on the login page with only the greeting, idle and not in thinking mode |
| Session.ChatSession.Restore | App.tsx:25-45 | a stored user opens the chat page, otherwise the login page shows; a stored history replaces the messages after repair |
| Session.ChatSession.Save | App.tsx:48-52 | the history is saved exactly when the chat page shows more than the greeting |
| Session.ChatSession.Login | App.tsx:55-59 | log-in records and stores the user and opens the chat page |
| Session.ChatSession.Logout | App.tsx:61-67 | log-out forgets the user and the stored history, resets the list to the greeting and returns to the login page |
| Session.ChatSession.ClearHistory | App.tsx:69-74 | clearing resets the list to the greeting, forgets the stored history, stays on the chat page and offers the starters again |
| Session.ChatSession.Feedback | App.tsx:76-84 | the list becomes the feedback update of the old list |
| Session.ChatSession.SendMessage | App.tsx:86-161 | with nothing to send nothing changes; otherwise the call made is the chosen one, the list becomes the turn's result for that call's stream, and loading ends cleared on every path |
| Render.Closing | components/Message.tsx:75 | where the lazy `(.*?)` ends, a closing `**` stands |
| Render.ClosingIsFirst | components/Message.tsx:75 | that closing `**` is the first one, and no line terminator comes before it |
| Render.BoldIsLazy | components/Message.tsx:75 | `**x**y` with no `**` and no line break inside `x` becomes a bold span around exactly `x`, then the rest |
| Render.BoldRoundTrip | components/Message.tsx:75 | the bold pass only adds tags: spelling the tags back as `**` gives the line |
| Render.BoldUnchangedIffNoMatch | components/Message.tsx:75 | the bold pass leaves a line unchanged exactly when no complete `**…**` pair occurs in it |
| Render.DigitRun | components/Message.tsx:79 | `\d+` takes the whole run of ASCII digits |
| Render.MarkerAt | components/Message.tsx:79 | the digits of a recognised marker are one or more decimal digits, and the marker fits in the line |
| Render.MarkerSpelled | components/Message.tsx:79 | a recognised marker is spelled `[`, its digits, `]` at the head of the line |
| Render.MarkerRecognised | components/Message.tsx:79 | every `[`, one or more digits, `]` is recognised, with exactly those digits, whatever follows |
| Render.CitationLinked | components/Message.tsx:79-83 | a citation `[n]` with `1 <= n <=` the number of sources becomes a link to source `n - 1` carrying `n`'s digits, and the scan resumes right after it |
| Render.CitationKept | components/Message.tsx:79-85 | a citation whose number names no source is copied as written, and the scan resumes right after it |
| Render.LinkRoundTrip | components/Message.tsx:78-85 | the citation pass only replaces markers: spelling each link back as `[n]` gives the line |
| Render.LinksInRange | components/Message.tsx:79-83 | every link points at source `n-1` for its number `n`, and `1 <= n <= |sources|` |
| Render.NoLiveMarkerLeft | components/Message.tsx:79-84 | after the pass, no marker naming an existing source is left as text; with MarkerRecognised, a marker is any `[digits]` |
| Render.NoCitationSpelled | components/Message.tsx:79-84 | where no live marker is left, no `[n]` with `1 <= n <=` the number of sources is spelled out at any position |
| Render.InlineRoundTrip | components/Message.tsx:75-86 | both inline passes only add markup: spelling it back gives the line |
| Render.BulletCutsText | components/Message.tsx:89-94 | the two items a list item cuts are characters of the line |
| Render.ListItemIffBullet | components/Message.tsx:88-94 | the bullet test on the marked-up line agrees with the test on the plain line |
| Render.LineShape | components/Message.tsx:73-95 | a line is a list item exactly when its trimmed text starts with `* ` or `- `; the node spells out the line, less the first two characters for a list item |
| Render.LineCursor | components/Message.tsx:69-95 | the rendered line holds the cursor exactly when the line did |
| Render.LineLinks | components/Message.tsx:77-86 | without citations a line has no links; with them, every link is in range and no live marker is left, that is, no `[n]` naming a source stays text (MarkerRecognised, NoCitationSpelled) |
| Render.Split | components/Message.tsx:72 | `split('\n')` gives at least one piece, and no piece contains a newline |
| Render.SplitJoin | components/Message.tsx:72 | joining the pieces with newlines gives the text back |
| Render.JoinSplit | components/Message.tsx:72 | splitting newline-free pieces joined by newlines gives the pieces back |
| Render.SplitCount | components/Message.tsx:72-73 | there is one piece per newline, plus one |
| Render.LineTokens | components/Message.tsx:69-72 | a line as first read holds no markup, and every token but the last is a character, so it holds at most one cursor, at its end |
| Render.RenderContentLines | components/Message.tsx:68-97 | one node per newline plus one; each node is a list item exactly when its line is a bullet, and spells out its line less a cut bullet |
| Render.RenderContentCursor | components/Message.tsx:69-72 | the cursor is in the last node exactly when the message is an AI message that is loading, and never in any other node |
| Render.RenderContentLinks | components/Message.tsx:77-86 | links appear only in an AI message with sources; there every link is in range and no live marker is left, that is, no `[n]` naming a source stays text (MarkerRecognised, NoCitationSpelled) |
| MessageView.DeepDiveCaption | components/Message.tsx:36-38 | the caption names the file when there is a non-empty file name, and otherwise shows the waiting text |
| MessageView.SourceLabels | components/Message.tsx:137-153 | one label per source, source `i` labelled `[i+1] title`; none when there are no sources |
| MessageView.IndicatorsAndButtons | components/Message.tsx:55-116 | an indicator replaces the bubble exactly while an empty AI message is loading, the deep-dive one exactly in deep-dive mode; the feedback buttons show exactly on an AI message with text that is not loading |
| MessageView.CitationsMatchLabels | components/Message.tsx:78-150 | every link in a bubble belongs to an AI message with sources, points into its source list, and carries the number that source is labelled with |
| MessageView.LinkText | components/Message.tsx:82 | the corrected link text is the marker's own digits in brackets |
| MessageView.LinkTextAsWrittenHidesNumber | components/Message.tsx:82 | as written, every link shows the same text, and not its number |
| MessageView.LinkTextShowsNumber | components/Message.tsx:79-83 | with the corrected text, links to different sources show different texts, and each shows the number of its source |
| MessageView.ToggleFeedback | components/Message.tsx:99-103 | clicking the vote already given withdraws it (`null`); any other click gives that vote |
| MessageView.ClickTwice | components/Message.tsx:99-103 | clicking one button twice leaves that vote when it was the one given, and `null` otherwise, so a `null` feedback comes back; nothing but the feedback changes |
| MessageView.ClickOther | components/Message.tsx:99-103 | clicking the other button replaces the vote |
| Composer.MessageViews | components/ChatWindow.tsx:104-112 | one view per message |
| Composer.OnlyLastWaits | components/ChatWindow.tsx:104-112 | only the last message can show an indicator or the streaming cursor, and only while loading |
| Composer.ChatWindow.constructor | components/ChatWindow.tsx:48-49 | the composer starts with empty input and no attachment |
| Composer.ChatWindow.InputPlaceholder | components/ChatWindow.tsx:160 | the placeholder is the default prompt exactly when no file is attached |
| Composer.ChatWindow.Edit | components/ChatWindow.tsx:159 | typing sets the input |
| Composer.ChatWindow.SelectStarter | components/ChatWindow.tsx:96-99 | choosing a starter only fills the input; nothing is sent |
| Composer.ChatWindow.FileChange | components/ChatWindow.tsx:63-68 | choosing files attaches the first and switches thinking mode on; choosing none changes nothing |
| Composer.ChatWindow.RemoveFile | components/ChatWindow.tsx:70-75 | removing the file clears the attachment and changes nothing else, thinking mode included |
| Composer.ChatWindow.SendMessageAndClear | components/ChatWindow.tsx:77-85 | with neither text nor file nothing happens; otherwise exactly one turn runs, and the input and attachment are cleared |
| Composer.ChatWindow.Submit | components/ChatWindow.tsx:87-90 | the trimmed input is sent with the attachment, exactly when there is text or a file; the call is the controller's choice for that text, the attachment and the history before the turn: a deep dive on the attachment exactly when thinking mode is on or a file is attached, otherwise a chat call carrying that history; the loading state follows the call; the messages become the turn's, loading ends and the composer is cleared; with nothing to send, nothing changes |
| Composer.ChatWindow.Summarize | components/ChatWindow.tsx:92-94 | Summarize always sends the fixed summary request with the current attachment: a deep dive on that attachment (none when there is none) when a file is attached or thinking mode is on, otherwise a chat call with the history before the turn; the loading state follows the call; the messages become the turn's, loading ends and the composer is cleared |
| Composer.SendEnabledIffAccepted | components/ChatWindow.tsx:168 | the send button is enabled exactly when nothing is loading and the controller would accept the text it sends |
| Composer.AttachThenSummarize | components/ChatWindow.tsx:63-94 | attaching a file and pressing Summarize sends a deep dive on that file, labelled with its name, in thinking mode, and leaves the composer empty; the messages become that turn's and loading ends |

## Left out

- JSX markup, CSS classes, icons, scrolling and focus handling. They are presentation only.
- HTML: lines become `Paragraph` and `ListItem` nodes of tokens rather than HTML strings, so escaping and `dangerouslySetInnerHTML` are not modelled. A `<` typed in the text is a plain character here; in the browser it would be parsed as markup.
- Local storage, `JSON.parse` and `JSON.stringify`. They are browser I/O. Storage is two fields; a stored message is a record whose id may be missing. A malformed JSON string, which would throw at start-up, is not modelled.
- `alert` and `console` are output only.
- The model service (`services/geminiService`) is not part of this model. It is the parameter `replies`, a finite chunk list plus whether the stream then raises.
- `async`, `for await` and React's batching of state updates: a turn is one sequential method, and no other handler runs while it streams. A second send while a turn is loading is not modelled. The controller would not refuse one, but the rendered composer offers no control that could start it.
- `Date.now()`: the clock readings are parameters (`loadTime`, `now`, `errorTime`). The user message and the placeholder share the reading `now`.
- Conversation.Repair: one clock reading `now` serves the whole load, whereas the source reads `Date.now()` once per message inside the `map` callback (App.tsx:40), so filled-in ids of one load may carry different readings there. The ids still differ by their index.
- Object aliasing: the source mutates the last message object of a copied array in place. The model replaces that element of the sequence with an updated value. This leaves the same list as long as no other handler runs during the turn.
- A clear or a logout during a streaming turn is not modelled. The header's settings button stays enabled while a turn streams, so Clear History (App.tsx:69-72) or Log Out (App.tsx:61-67) can reset the list to the shared greeting object (App.tsx:9-14) mid-turn. The turn's remaining chunk updates (App.tsx:127-135), or its failure update (App.tsx:141-145), then find that object last with author AI and write the answer, or the apology, into it in place. From then on every later clear or logout shows that text as the greeting. The model's greeting is a value and its turns are atomic, so it cannot show this.
- The login, settings and scenario pages, the header and the thinking-mode toggle are not part of this model. They hold only routing, a toggle and static text. The settings page's back button is not modelled.
- `script.js` and `constants.tsx` are not part of this model: a separate page demo and static content.
- The four conversation-starter texts (ChatWindow.tsx:21-26) are static content; `Composer.ChatWindow.SelectStarter` takes the chosen text as a parameter.
- The file input's `value` reset (ChatWindow.tsx:72-74, 82-84) is a DOM detail and is left out.
- Composer.ChatWindow.InputDisabled and Composer.ChatWindow.StartersShown: these carry no contract of their own. They are the loading flag and `Conversation.ShowStarters`, whose effects appear in `Session.ChatSession.Logout` and `Session.ChatSession.ClearHistory`.

## Findings

| source | as written | input that shows it | evidently intended | confidence | as-written member | corrected member |
|---|---|---|---|---|---|---|
| components/Message.tsx:82 | the replacer function returns a template containing `[$1]`; JavaScript expands `$1` only in a replacement string, not in a function's return value, so every link shows the literal text `[$1]` | an AI message `See [1]` with one source: the link reads `[$1]` | the link shows its own number, `[1]` | high, not executed | MessageView.LinkTextAsWrittenHidesNumber | MessageView.LinkTextShowsNumber |
