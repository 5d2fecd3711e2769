# A desktop chat client for local models, in Dafny

This project models the state logic of a desktop chat client for locally run
language models. The client is a React application inside a Tauri shell, with
a Python generation script beside it. The user keeps several chats. Each chat
is bound, by its title, to a text model of a local inference server, to an
image-capable text model, to an image generator or to a speech synthesiser.

The model covers six parts:

- **Conversations** (`conversations.dfy`, from `src/App.tsx`). The store
  holds:
  - the ordered chat list;
  - a map from chat id to messages;
  - the active chat;
  - the `typing` and `loading` indicators.

  It covers creating, selecting, deleting and renaming chats. It also covers
  sending a message, including the routing by title, and the three kinds of
  reply that arrive later.
- **MessageWindow** (`message_window.dfy`, from `src/MessageList.tsx`). The
  paging window over a chat's messages:
  - the first visible index, the load guard, the bottom pin and the
    auto-scroll suppression flag;
  - timers, the intersection observer and animation frames, turned into
    events.
- **ContentParts** (`content_parts.dfy`, from `src/MessageList.tsx`):
  - how a message's text is cut into text and code segments on
    triple-backtick fences;
  - how the asset path is picked out of an audio reply.
- **Sidebar** (`sidebar.dfy`, from `src/chat-sidebar.tsx`): the chat search
  and the rename editor.
- **Market** (`market.dfy`, from `src/agents.tsx`). The agent marketplace:
  - the search and category filter;
  - the featured/regular split;
  - syncing the installed flags against the server's model list;
  - the install toggle;
  - the tag badges.
- **Composer** (`composer.dfy`, from `src/chat-window.tsx`). The message
  composer:
  - three parallel attachment lists;
  - PDF and data-URL intake, removal and sending;
  - the send guard and the helper line.

  The byte-to-base-64 conversion it uses is proved against
  **Base64** (`base64.dfy`), the encoding of section 4 of RFC 4648. That
  module also has a decoder and both round trips.
- **Inference** (`inference.dfy`, from `src-tauri/inference.py`):
  - how a prompt becomes a file name under `/generated/`;
  - the script's argument dispatch and exit status.

Shared vocabulary:

- **Text**: JavaScript `toLowerCase` (ASCII), `trim`, `includes`, `split`
  and number formatting, plus Python `strip`.
- **Util**: `Option`, order-preserving `Filter` and the sublist relation.

Each stateful component is a `class` whose methods change its fields.
- A method's `ensures` states the whole new state in terms of pure functions.
- What the component promises is proved about those functions as lemmas.
- Loops in the source are `while` loops with invariants:
  - the title `forEach`;
  - the `contentParts` `forEach`;
  - the byte loop of `arrayBufferToBase64`;
  - the per-page list updates.

Ids from `Date.now()` and stamps from `toLocaleTimeString` are parameters.

## Model

| member | source | states |
|---|---|---|
| Conversations.Appended | src/App.tsx:301-304 | appending to a chat's history gives the old list followed by the message; a chat without a list gets a list of just that message; every other chat's list is unchanged |
| Conversations.AppendAllInOrder | src/App.tsx:301-304 | appending several messages one after another leaves them in call order after the old list, and no other chat's list changes |
| Conversations.WithPreview | src/App.tsx:306-312 | only the chats whose id is the target get the new preview and the "now" stamp; ids, order, titles and all other chats are unchanged |
| Conversations.Renamed | src/App.tsx:449-455 | only the chats with that id change, and only in their title; ids, order and previews are kept |
| Conversations.Removed | src/App.tsx:437 | no chat with that id is left, the others are all still there in their order, and nothing new appears |
| Conversations.DeleteKeepsSelection | src/App.tsx:436-441 | deleting a chat keeps the selection valid (it names a chat, or is "" with no chats left) |
| Conversations.DeleteMovesSelection | src/App.tsx:438-440 | deleting the active chat moves the selection off it, and the selection becomes "" exactly when no chat remains |
| Conversations.AddSelects | src/App.tsx:144-151 | the chat created is the one selected, so the selection is valid |
| Conversations.UpdatesKeepSelection | src/App.tsx:306-312 | preview updates and renames keep the selection valid, in both directions |
| Conversations.TitleOfUnique | src/App.tsx:313-318 | with distinct ids the title loop yields the title of the one chat with the active id |
| Conversations.TitleOfMissing | src/App.tsx:313-318 | when no chat has the active id the loop leaves the title "" |
| Conversations.FindIndex | src/App.tsx:401-403 | the position found is the first model whose lowercased name contains the lowercased title; none exactly when no model matches |
| Conversations.FindModel | src/App.tsx:401-403 | `find` returns the first model of the list whose name contains the title, and nothing exactly when none matches |
| Conversations.RouteSpec | src/App.tsx:320-433 | "SDXL" goes to the image command and "TTS" to the audio command with the fixed speaker and language; any other title goes to the first text model whose name contains it, with prompt content + " " + system prompt and no images; only when no text model matches does the first matching image model get the request, with the attached images; no request exactly when neither fixed title nor any model matches |
| Conversations.RouteEmptyTitle | src/App.tsx:401-403 | the empty title is contained in every name, so a send whose active id names no chat goes to the first text model |
| Conversations.Store.constructor | src/App.tsx:136-142 | the initial chats, chat "1" active, no messages, both indicators off, a valid selection |
| Conversations.Store.AddNewChat | src/App.tsx:144-156 | the new chat is prepended with title "New Chat" and preview "Start a conversation...", becomes active, and maps to an empty list; earlier chats keep their order |
| Conversations.Store.Select | src/App.tsx:469 | any id becomes the active one; the selection is valid exactly when the id is a chat's id |
| Conversations.Store.ActiveTitle | src/App.tsx:313-318 | the `forEach` loop leaves in its variable the title of the last chat with the active id, or "" |
| Conversations.Store.SendMessage | src/App.tsx:288-434 | the user's message is appended to the active chat and becomes its preview before and whatever the routing; the request is the routing of the title found in the chat list; requests turn `typing` on, the two commands also `loading`; the reply target is the chat active at send time |
| Conversations.Store.Post | src/App.tsx:301-312 | one message appended and the same chat's preview set, nothing else, the selection kept valid |
| Conversations.Store.TextReplyArrives | src/App.tsx:212-243 | a 2xx response appends the reply and makes it the preview; a non-2xx status or an exception changes no message and no preview; `typing` always ends false |
| Conversations.Store.ImageReplyArrives | src/App.tsx:324-354 | a resolved command appends an assistant message carrying the image and sets the preview "Image Done"; a rejection appends nothing; both indicators end false |
| Conversations.Store.AudioReplyArrives | src/App.tsx:362-396 | the same for audio, with the result as the message's audio |
| Conversations.Store.DeleteChat | src/App.tsx:436-447 | the chat and its message list are removed, the others keep their order, the selection falls back to the first remaining chat or "" when the deleted chat was active, and stays valid |
| Conversations.Store.RenameChat | src/App.tsx:449-455 | the chat list becomes the renamed list; messages and selection are untouched |
| MessageWindow.InitialStart | src/MessageList.tsx:195-197 | the first visible index leaves exactly min(50, n) messages visible |
| MessageWindow.PageBack | src/MessageList.tsx:215 | one load moves the start back by min(25, start), never below 0 |
| MessageWindow.Visible | src/MessageList.tsx:205-208 | the visible messages are the suffix from the start, and none past the end |
| MessageWindow.InitialWindowIsLastFifty | src/MessageList.tsx:195-208 | the initial window is exactly the last min(50, n) messages |
| MessageWindow.VisibleAppend | src/MessageList.tsx:205-208 | appending a message extends the visible suffix by that message |
| MessageWindow.PageBackExtends | src/MessageList.tsx:214-216 | a load only adds earlier messages in front of the visible ones |
| MessageWindow.PageBackTimesIs | src/MessageList.tsx:210-219 | k completed loads move the start back by 25 each, clamped at 0 |
| MessageWindow.EightyMessages | src/MessageList.tsx:210-219 | 80 messages open at 30, one load gives 5, and two or more give 0 |
| MessageWindow.Window.constructor | src/MessageList.tsx:195-203 | the window opens at max(0, n - 50), pinned, with no load running; the mount auto-scroll raises the suppression flag |
| MessageWindow.Window.LoadButton | src/MessageList.tsx:287-296 | the button shows exactly when the start is positive and no load runs, and offers min(25, start) messages |
| MessageWindow.Window.Receive | src/MessageList.tsx:256-269 | a new message list keeps the start; a length change while pinned scrolls to the bottom and raises the flag |
| MessageWindow.Window.LoadMore | src/MessageList.tsx:210-213 | a no-op while a load runs or at start 0; otherwise the guard is raised |
| MessageWindow.Window.LoadTimerFires | src/MessageList.tsx:214-218 | a running load moves the start back one page, and the guard ends cleared |
| MessageWindow.Window.TopSentinelIntersects | src/MessageList.tsx:224-230 | ignored while auto-scrolling; otherwise the load guard ends raised exactly when a load was already running or the start is above 0 |
| MessageWindow.Window.Scroll | src/MessageList.tsx:246-254 | ignored while auto-scrolling; otherwise pinned exactly when less than 50 pixels from the bottom, and becoming pinned scrolls down |
| MessageWindow.Window.CooldownEnds | src/MessageList.tsx:265-267 | the suppression flag clears |
| ContentParts.FindFence | src/MessageList.tsx:53 | a fence found lies at or after the search start |
| ContentParts.FindFenceFirst | src/MessageList.tsx:53 | it is the first fence from there on, and none is found only when there is none |
| ContentParts.TagEndSpec | src/MessageList.tsx:53 | the optional part skipped after an opener is a language tag (word characters and one newline) and holds no backtick |
| ContentParts.NextMatch | src/MessageList.tsx:53 | a match has an opening fence, a tag ending where the code starts, and a closing fence, inside the text in that order |
| ContentParts.NextMatchLeftmost | src/MessageList.tsx:53 | the match is leftmost and lazy: no fence starts before it or inside its code |
| ContentParts.NextMatchNone | src/MessageList.tsx:53 | there is no match exactly when no opener from the start on is ever closed |
| ContentParts.Exec | src/MessageList.tsx:53 | each search finds matches at or after where it starts, inside the text |
| ContentParts.Iterate | src/MessageList.tsx:52-53 | repeated searches give matches that are in order and do not overlap |
| ContentParts.IterateAreNext | src/MessageList.tsx:52-53 | each match is what the search finds just after the previous one |
| ContentParts.IterateExhaustive | src/MessageList.tsx:52-53 | after the last match the search finds nothing |
| ContentParts.Matches | src/MessageList.tsx:52-53 | `matchAll` matches are in order and do not overlap |
| ContentParts.MatchesAreNext | src/MessageList.tsx:52-53 | match n is the leftmost match after match n - 1 |
| ContentParts.MatchesExhaustive | src/MessageList.tsx:52-53 | no match is missed after the last |
| ContentParts.SplitParts | src/MessageList.tsx:55 | `split` gives one more piece than there are matches |
| ContentParts.CodeBlocks | src/MessageList.tsx:52-54 | one trimmed code block per match |
| ContentParts.MatchShape | src/MessageList.tsx:53 | every match is an opening fence, a tag, the code and a closing fence |
| ContentParts.MatchTag | src/MessageList.tsx:53 | a tag is stripped only when a newline follows the word characters directly |
| ContentParts.MatchFences | src/MessageList.tsx:53 | each match starts and ends on a fence and its code begins after the tag |
| ContentParts.CodeHasNoFence | src/MessageList.tsx:53 | the lazy capture stops at the first closing fence, so no code holds a fence |
| ContentParts.TextHasNoFence | src/MessageList.tsx:55 | no text piece before a match holds a fence |
| ContentParts.UnclosedEndsScan | src/MessageList.tsx:53 | when the leftmost opener has no closer, no later opener has one either |
| ContentParts.InterleaveFrom | src/MessageList.tsx:55 | the pieces and matches from piece n on spell the text from there |
| ContentParts.Tiling | src/MessageList.tsx:55 | pieces and matches, in turn, spell the whole message: nothing lost, doubled or reordered |
| ContentParts.ContentParts | src/MessageList.tsx:51-62 | the `forEach` loop produces the segments: each non-blank piece trimmed, then the non-empty code block of the same index, in order |
| ContentParts.PushWellFormed | src/MessageList.tsx:57-60 | one loop step keeps every segment non-blank and trimmed |
| ContentParts.PartsUpToWellFormed | src/MessageList.tsx:57-60 | the segments of the first n pieces are all non-blank and trimmed |
| ContentParts.PartsWellFormed | src/MessageList.tsx:51-62 | no segment is blank or has outer whitespace |
| ContentParts.NoMatchOnePiece | src/MessageList.tsx:55-60 | without a match the whole text is one piece |
| ContentParts.PartsWithoutFence | src/MessageList.tsx:51-62 | text with no fence gives its trimmed text, or nothing when blank |
| ContentParts.PartsUnclosedFence | src/MessageList.tsx:53-58 | a single fence with no closer is not a code block: the text, backticks included, is one trimmed segment |
| ContentParts.FirstAssetLine | src/MessageList.tsx:69 | the first line whose trimmed form starts with "/generated/", and none exactly when no line does |
| ContentParts.AudioPath | src/MessageList.tsx:64-72 | "" exactly when there is no audio or no asset line; otherwise the first asset line, trimmed, which starts with "/generated/" |
| ContentParts.AudioPathFindsFirst | src/MessageList.tsx:64-72 | for output made of lines, the path is the first asset line whatever log lines surround it |
| ContentParts.AudioPathOfFirst | src/MessageList.tsx:64-72 | the path is the trimmed first asset line of the split output |
| Sidebar.FilteredChats | src/chat-sidebar.tsx:66-70 | exactly the chats whose title or preview contains the query ignoring case, in their order |
| Sidebar.EmptyQueryListsAll | src/chat-sidebar.tsx:66-70 | an empty search lists every chat |
| Sidebar.QueryCaseIgnored | src/chat-sidebar.tsx:66-70 | the case of the query does not matter |
| Sidebar.FindChat | src/chat-sidebar.tsx:73 | `find` returns the first chat with the id, and nothing exactly when no chat has it |
| Sidebar.FindChatUnique | src/chat-sidebar.tsx:73 | with distinct ids, `find` returns the chat with the id |
| Sidebar.RenameRequest | src/chat-sidebar.tsx:81-82 | a rename is made exactly when a chat is being edited and the trimmed title is not empty, and it carries the trimmed title |
| Sidebar.RenameTitleClean | src/chat-sidebar.tsx:81-82 | the title handed over is never blank and is its own trim |
| Sidebar.Panel.constructor | src/chat-sidebar.tsx:60-62 | empty search, no editor open |
| Sidebar.Panel.SetSearch | src/chat-sidebar.tsx:118 | the query is replaced |
| Sidebar.Panel.HandleRename | src/chat-sidebar.tsx:72-78 | the editor opens on the chat's title when the id exists; an unknown id changes nothing |
| Sidebar.Panel.EditTitle | src/chat-sidebar.tsx:158 | the buffer is replaced |
| Sidebar.Panel.SaveRename | src/chat-sidebar.tsx:80-86 | the rename request of the old state is handed over, and the editor always closes with an empty buffer |
| Sidebar.Panel.CancelRename | src/chat-sidebar.tsx:88-91 | the editor closes with an empty buffer and no rename |
| Sidebar.Panel.KeyDown | src/chat-sidebar.tsx:160-163 | Enter saves, Escape cancels, any other key changes nothing |
| Sidebar.Panel.Blur | src/chat-sidebar.tsx:159 | leaving the editor saves like Enter |
| Market.FilteredAgents | src/agents.tsx:124-134 | exactly the agents whose name, description or a tag contains the query ignoring case and whose category is selected or "All", in order |
| Market.EmptyFilterListsAll | src/agents.tsx:124-134 | an empty query with "All" lists every agent |
| Market.Featured | src/agents.tsx:136 | only featured agents |
| Market.Regular | src/agents.tsx:137 | only agents not featured |
| Market.FeaturedRegularPartition | src/agents.tsx:136-137 | the two lists are disjoint, each keeps the filtered order, and together they hold the filtered list exactly |
| Market.Synced | src/agents.tsx:116-118 | an agent with a model is installed exactly when the server lists its model; an agent without one is unchanged; nothing but the flag changes |
| Market.Sync | src/agents.tsx:114-120 | every agent is synced in place, and order and length are kept |
| Market.SyncIdempotent | src/agents.tsx:112-122 | syncing twice against one list is syncing once, and only installed flags change |
| Market.SyncKeepsFilter | src/agents.tsx:124-134 | syncing and filtering commute: the filter lists the synced versions of the same agents |
| Market.Flip | src/agents.tsx:142-148 | the agents with the id have their flag flipped, all others are unchanged |
| Market.FlipInvolution | src/agents.tsx:140-149 | flipping twice restores the list, and an unknown id changes nothing |
| Market.ToggleRequest | src/agents.tsx:139-164 | a server request is made exactly when the first agent with the id has a model |
| Market.ToggleRequestDirection | src/agents.tsx:152-164 | it is for that agent's model: a pull when it is not installed, a delete when it is |
| Market.TagBadges | src/agents.tsx:364-382 | the first three tags, then a "+(n - 3)" badge exactly when there are more than three |
| Market.TagBadgesAccountForAll | src/agents.tsx:365-381 | the badges account for every tag |
| Market.HeadingNamesCategory | src/agents.tsx:286-290 | the heading is "<category> Agents", "All Agents" included |
| Market.NoAgentsFound | src/agents.tsx:302-310 | "No agents found" shows exactly when no agent passes the filter, and then both lists are empty |
| Market.Marketplace.constructor | src/agents.tsx:107-109 | the catalogue, an empty query and "All" |
| Market.Marketplace.SetSearch | src/agents.tsx:107 | the query is replaced |
| Market.Marketplace.SelectCategory | src/agents.tsx:108 | the category is replaced |
| Market.Marketplace.InstalledModelsArrive | src/agents.tsx:166-173 | the agents become their sync against the model list |
| Market.Marketplace.ToggleAgent | src/agents.tsx:139-174 | an unknown agent or one without a model is flipped at once with no request; otherwise the list is left for the sync and a pull or delete is asked for |
| Composer.ArrayBufferToBase64 | src/chat-window.tsx:75-83 | the loop's binary string, passed to `btoa`, gives the RFC 4648 encoding of the bytes, of length 4 * ceil(n / 3) |
| Composer.FileActionOf | src/chat-window.tsx:88-110 | no file does nothing; a PDF is sent for conversion as base 64 that decodes back to its bytes; anything else is read as a data URL |
| Composer.Payload | src/chat-window.tsx:113 | the payload is comma-free and is the text after the first comma of the data URL, up to the next comma or the end |
| Composer.PayloadFollowsFirstComma | src/chat-window.tsx:113 | a data URL with a comma splits into two or more pieces, and the second runs from just after the first comma to the next comma or the end |
| Composer.Previews | src/chat-window.tsx:105 | each preview is "data:image/png;base64," followed by its payload |
| Composer.RemoveAt | src/chat-window.tsx:126 | the entry at the index goes and the others keep their order; an index out of range changes nothing |
| Composer.PairedPreserved | src/chat-window.tsx:103-132 | removal and adding pages keep payloads and previews paired position by position |
| Composer.RemoveAtMultiset | src/chat-window.tsx:126 | a removal takes out exactly that one entry |
| Composer.SendDisabledIffLoading | src/chat-window.tsx:325 | the send button is disabled exactly while loading, since a list is always truthy |
| Composer.ImagesLabelNumber | src/chat-window.tsx:343-346 | "1 image attached" for one, "<k> images attached" for more |
| Composer.HelperText | src/chat-window.tsx:339-347 | absent with neither input nor image; otherwise the character count, the bullet when both show, and the attachment label |
| Composer.Composer.constructor | src/chat-window.tsx:62-69 | empty input and lists |
| Composer.Composer.SetInput | src/chat-window.tsx:314 | the input is replaced |
| Composer.Composer.SelectFiles | src/chat-window.tsx:85-110 | the action started is that of the first file |
| Composer.Composer.PdfPagesArrive | src/chat-window.tsx:103-107 | k pages add k payloads and k previews but one file name, keeping the lists paired |
| Composer.Composer.DataUrlLoaded | src/chat-window.tsx:111-121 | the payload, its preview and the name are appended, keeping the lists paired |
| Composer.Composer.RemoveImage | src/chat-window.tsx:125-132 | the index leaves all three lists, keeping them paired |
| Composer.Composer.Send | src/chat-window.tsx:148-156 | always hands over the trimmed input and the payloads, then clears input and lists |
| Composer.Composer.KeyDown | src/chat-window.tsx:158-163 | Enter without Shift sends; any other key changes nothing |
| Base64.DigitValue | src/chat-window.tsx:82 | an alphabet character has a 6-bit value |
| Base64.DigitInverse | src/chat-window.tsx:82 | the alphabet has 64 distinct characters, none of them the pad |
| Base64.DigitValueInverse | src/chat-window.tsx:82 | a character with a value is the digit of that value |
| Base64.Sextets | src/chat-window.tsx:82 | three bytes give four 6-bit groups |
| Base64.OctetsSextets | src/chat-window.tsx:82 | splitting three bytes into groups and joining them back is the identity |
| Base64.SextetsOctets | src/chat-window.tsx:82 | joining four groups into bytes and splitting back is the identity |
| Base64.Quantum | src/chat-window.tsx:82 | a full group is four characters |
| Base64.Encode | src/chat-window.tsx:82 | the encoding has length 4 * ceil(n / 3) |
| Base64.DecodeEncode | src/chat-window.tsx:82 | decoding an encoding gives back the bytes |
| Base64.DecodeOne | src/chat-window.tsx:82 | a final single byte decodes back from its "==" quantum |
| Base64.DecodeTwo | src/chat-window.tsx:82 | a final pair decodes back from its "=" quantum |
| Base64.DecodeThree | src/chat-window.tsx:82 | a full group decodes back from its quantum |
| Base64.EncodeDecode | src/chat-window.tsx:82 | every text the decoder accepts is the encoding of what it decodes to |
| Base64.EncodeFullQuantum | src/chat-window.tsx:82 | an unpadded quantum the decoder accepts is re-encoded as itself |
| Base64.EncodeLastQuantum | src/chat-window.tsx:82 | a last quantum the decoder accepts is re-encoded as itself |
| Base64.Latin1 | src/chat-window.tsx:79-80 | the binary string has one character per byte, with that byte's code |
| Base64.Btoa | src/chat-window.tsx:82 | `btoa` fails exactly on a character above U+00FF |
| Base64.BtoaLatin1 | src/chat-window.tsx:79-82 | `btoa` of a binary string never fails and encodes exactly its bytes |
| Inference.RemoveForbidden | src-tauri/inference.py:30 | no forbidden character is left, and the rest keep their order |
| Inference.RemoveForbiddenKeepsClean | src-tauri/inference.py:30 | only forbidden characters are deleted |
| Inference.Head | src-tauri/inference.py:29 | the first 20 characters, or all when fewer |
| Inference.SafeNameSpec | src-tauri/inference.py:29-30 | a name is the default or a non-blank name of at most 20 characters with no forbidden character and no outer whitespace |
| Inference.StripKeepsClean | src-tauri/inference.py:30 | stripping adds no forbidden character |
| Inference.SafeNameDefaulted | src-tauri/inference.py:30 | the default is used exactly when the first 20 characters are all forbidden or whitespace |
| Inference.GenerateImage | src-tauri/inference.py:23-45 | "/generated/<name>.png" with the derived name, or "" exactly when rendering or saving failed |
| Inference.GenerateAudio | src-tauri/inference.py:49-72 | "/generated/<name>.wav", or "" exactly when synthesis failed |
| Inference.RunExitCodes | src-tauri/inference.py:74-97 | exit 0 exactly when the pipeline loaded and "image" rendered, or "audio" with speaker and language synthesised; otherwise 1, and nothing printed on too few arguments |
| Inference.RunSuccessPrintsPath | src-tauri/inference.py:84-95 | success prints the path last, under "/generated/", after "No Speaker" exactly when speaker or language is missing |
| Inference.RunFailurePrintsNoPath | src-tauri/inference.py:94-97 | a failing run prints no path, at most "No Speaker" |
| Text.LowerChar | src/chat-sidebar.tsx:68 | uppercase ASCII letters map to their lowercase, every other character is kept |
| Text.Lower | src/chat-sidebar.tsx:68 | `toLowerCase` maps each character |
| Text.LowerIdempotent | src/chat-sidebar.tsx:68 | lowercasing twice is lowercasing once |
| Text.TrimWithSpec | src/MessageList.tsx:58 | trimming removes exactly a whitespace prefix and suffix, and is "" exactly for all-whitespace text |
| Text.TrimEnds | src/MessageList.tsx:58 | a trimmed text has no JavaScript whitespace at its ends, and is "" exactly for blank text |
| Text.StripEnds | src-tauri/inference.py:30 | the same for Python's `strip` and Python's whitespace |
| Text.TrimmedIff | src/MessageList.tsx:58 | trimmed texts are exactly the fixed points of `trim` |
| Text.TrimIdempotent | src/chat-sidebar.tsx:81-82 | trimming twice is trimming once |
| Text.ContainsIff | src/chat-sidebar.tsx:68 | `includes` holds exactly when the query occurs at some position |
| Text.ContainsEmpty | src/chat-sidebar.tsx:68 | every text includes "" |
| Text.IndexOf | src/chat-window.tsx:113 | the first position of the character |
| Text.Split | src/MessageList.tsx:68 | at least one piece, no piece holds the separator, and joining them gives the text back |
| Text.SplitUnique | src/MessageList.tsx:68 | those are the only such pieces |
| Text.Decimal | src/MessageList.tsx:293 | a numeral of digits without a leading zero |
| Text.DecimalValue | src/MessageList.tsx:293 | the numeral reads back as the number |
| Util.FirstIndex | src/chat-sidebar.tsx:73 | the position of the first occurrence of a key, none exactly when it does not occur; `find` by id in the sidebar and the marketplace |
| Util.Filter | src/chat-sidebar.tsx:66-70 | `filter` keeps exactly the elements satisfying the predicate, in order |
| Util.FilterPartition | src/agents.tsx:136-137 | a filter and its negation together hold every element exactly as often as the list |
| Util.FilterAll | src/agents.tsx:124-134 | a predicate true everywhere keeps all |
| Util.FilterSame | src/chat-sidebar.tsx:66-70 | agreeing predicates filter alike |

## Left out

- `src-tauri/src/lib.rs` (the native commands, the subprocesses and their thread pool) and `vite.config.ts` are not part of this model. They are process management and build configuration.
- HTTP calls to the inference server and native `invoke` calls are not executed. Their results are arguments:
  - `HttpOutcome` and `CommandOutcome` for replies;
  - a model-name list for the marketplace sync;
  - the page images for a PDF.
- No interleaving of asynchronous events is modelled. Each reply is one event applied to the state, and it targets the chat that was active when the message was sent, as the handlers' closures do.
- Timers, the intersection observer, animation frames, `scrollIntoView` and `FileReader` callbacks are events (methods of `Window` and `Composer`). Nothing models when they fire.
- The Hugging Face path (`generateTextResponseHuggingFace`, `src/App.tsx:246-286, 405-411`) is left out. No chat of the initial list has the `huggingface` flag, so it never runs.
- The `MessageContent` component of `src/chat-window.tsx` is left out: it is unused.
- Rendering, icons, the clipboard, syntax highlighting and locale time formatting are left out.
- The agents' floating-point `rating` is left out. It is shown and never computed with.
- The ML pipeline, the text-to-speech model and the file writes are outcome flags of `Inference.Run`, and standard error is not modelled.
- Text.Lower: maps only ASCII letters. JavaScript `toLowerCase` also maps other scripts, so searches on non-ASCII text are modelled only for ASCII case.
- Lengths are counted in code points, where JavaScript counts UTF-16 units. Examples are the helper line's character count and `prompt[:20]`, which in Python also counts code points.
- Composer.Composer.DataUrlLoaded: requires a comma in the data URL, and so does Composer.Payload. An empty file reads as `"data:"`, which has none. Then `split(",")[1]` is `undefined`: the source appends `undefined` to `image` and `"data:image/png;base64,undefined"` to `contextImage`. The lists hold strings, so this case is not modelled.
- MessageWindow.Window: the window is never reset when the chat changes, because `visibleStartIndex` is only a state initialiser. The model keeps the start index across a change of chat.
- Conversations.Store.TextReplyArrives: a failed request appends no error message; the code only logs the error, and the model keeps this.
- Conversations.Store.TextReplyArrives: a 2xx JSON reply without a `response` field is not modelled. The source then posts a message whose content is `undefined` and sets the chat's `lastMessage` to `undefined`, and the sidebar's search filter then throws on `lastMessage.toLowerCase()` for any query that the chat's title does not contain. `HttpOutcome` carries the response as a string, so it cannot express the missing field.
- Composer.Composer.PdfPagesArrive: the file name is appended once per PDF while a payload is appended per page. Positions in `fileName` therefore stop matching those in `image` after a multi-page PDF, and `RemoveImage` then drops a name that belongs to another entry. The model keeps this behaviour; its invariant covers only `image` and `contextImage`.
- Composer.Composer.KeyDown: Enter sends even while a reply is loading; only the button is disabled. The model keeps this.
- Conversations.Store.SendMessage: gets the title from TitleOf. The `forEach` loop that computes TitleOf is Conversations.Store.ActiveTitle, proved equal to it.
- The regular expression of `contentParts` is modelled as a leftmost scan:
  - find an opener;
  - take the optional `\w*\n` tag;
  - find the first closer after it.

  ContentParts.UnclosedEndsScan shows why stopping at an unclosed opener agrees with JavaScript's backtracking search: when the leftmost opener has no closer, no later one has.
