/** The conversation store of the chat application: an ordered list of
    chats, a map from chat id to that chat's messages, the id of the active
    chat, and the `typing` and `loading` indicators. Sending a message
    appends it to the active chat and routes it, by the active chat's title,
    to the image command, the audio command, a text model, an
    image-capable text model, or nowhere. Replies arrive later as events
    and are appended to the chat that was active when the message was sent. */
module Conversations {
  import opened Util
  import opened Text

  datatype Sender = User | Assistant

  datatype Message = Message(
    id: string,
    content: string,
    sender: Sender,
    timestamp: string,
    image: Option<string>,
    audio: Option<string>)

  /** A chat record. `stamp` is the `timestamp` property each preview update
      writes ("now"); the records the application starts with have none. */
  datatype Chat = Chat(id: string, title: string, lastMessage: string, stamp: Option<string>)

  datatype Model = Model(name: string, systemprompt: string)

  /** What a send asks of the outside world. */
  datatype Request =
    | GenerateImage(prompt: string)
    | GenerateAudio(text: string, speaker: string, language: string)
    | Generate(model: string, prompt: string, images: Option<seq<string>>)
    | NoRequest

  /** How an HTTP call to the text-generation endpoint ended: a response with
      its status and its `response` field, or an exception (network failure,
      unparsable body). */
  datatype HttpOutcome = Responded(status: int, response: string) | Threw

  /** How a native command ended: its promise resolved with a string or was rejected. */
  datatype CommandOutcome = Resolved(result: string) | Rejected

  const NewChatTitle := "New Chat"
  const NewChatPreview := "Start a conversation..."
  const ImageDone := "Image Done"
  const Now := "now"
  const AudioSpeaker := "Damien Black"
  const AudioLanguage := "en"

  const InitialChats: seq<Chat> := [
    Chat("1", "tinyllama", "", None),
    Chat("2", "SDXL", "", None),
    Chat("3", "deepseek-coder-v2:16b", "", None),
    Chat("4", "TTS", "", None),
    Chat("5", "gemma:2b", "", None),
    Chat("9", "deepseek-coder-v2:16b", "", None),
    Chat("10", "codellama:13b", "", None),
    Chat("12", "qwen2.5vl:7b", "", None)
  ]

  const ChatModels: seq<Model> := [
    Model("tinyllama", "test"),
    Model("deepseek-coder:6.7b", "test"),
    Model("gemma:2b", "test"),
    Model("deepseek-coder-v2:16b", "test"),
    Model("codellama:13b", "test")
  ]

  const ChatImageModels: seq<Model> := [
    Model("qwen2.5vl:7b", "und pack die Antwort in ```math und ende mit ```.")
  ]

  function Ids(chats: seq<Chat>): (r: seq<string>)
    ensures |r| == |chats|
    ensures forall i :: 0 <= i < |chats| ==> r[i] == chats[i].id
  {
    seq(|chats|, i requires 0 <= i < |chats| => chats[i].id)
  }

  /** Either the active id names a chat, or there are no chats and it is "". */
  ghost predicate SelectionValid(chats: seq<Chat>, active: string)
  {
    active in Ids(chats) || (active == "" && chats == [])
  }

  /** The record `addNewChat` prepends. */
  function NewChat(id: string): Chat
  {
    Chat(id, NewChatTitle, NewChatPreview, None)
  }

  /** Every message list of `m`, with `msg` appended to the list under `key`;
      a key without a list gets a list holding only `msg`. */
  function Appended(m: map<string, seq<Message>>, key: string, msg: Message): (r: map<string, seq<Message>>)
    ensures r.Keys == m.Keys + {key}
    ensures key in m ==> r[key] == m[key] + [msg]
    ensures key !in m ==> r[key] == [msg]
    ensures forall k :: k in m && k != key ==> r[k] == m[k]
  {
    m[key := (if key in m then m[key] else []) + [msg]]
  }

  /** Appending several messages one after another, in call order. */
  function AppendAll(m: map<string, seq<Message>>, key: string, msgs: seq<Message>): map<string, seq<Message>>
    decreases |msgs|
  {
    if msgs == [] then m else AppendAll(Appended(m, key, msgs[0]), key, msgs[1..])
  }

  /** Appends keep call order: after appending `msgs` one by one, the list
      under `key` is the old list followed by `msgs`, and no other list changed. */
  lemma {:induction false} AppendAllInOrder(m: map<string, seq<Message>>, key: string, msgs: seq<Message>)
    ensures AppendAll(m, key, msgs).Keys == (if msgs == [] then m.Keys else m.Keys + {key})
    ensures key in m || msgs != [] ==>
      AppendAll(m, key, msgs)[key] == (if key in m then m[key] else []) + msgs
    ensures forall k :: k in m && k != key ==> AppendAll(m, key, msgs)[k] == m[k]
    decreases |msgs|
  {
    if msgs != [] {
      var m' := Appended(m, key, msgs[0]);
      AppendAllInOrder(m', key, msgs[1..]);
      assert [msgs[0]] + msgs[1..] == msgs;
    }
  }

  /** The chat list after a preview update: the chats whose id is `id` get
      `lastMessage := text` and the "now" stamp; the others are unchanged. */
  function WithPreview(chats: seq<Chat>, id: string, text: string): (r: seq<Chat>)
    ensures |r| == |chats|
    ensures Ids(r) == Ids(chats)
    ensures forall i :: 0 <= i < |chats| && chats[i].id != id ==> r[i] == chats[i]
    ensures forall i :: 0 <= i < |chats| && chats[i].id == id ==>
      r[i] == Chat(id, chats[i].title, text, Some(Now))
  {
    if chats == [] then []
    else
      var c := chats[0];
      [if c.id == id then c.(lastMessage := text, stamp := Some(Now)) else c] + WithPreview(chats[1..], id, text)
  }

  /** The chat list after `renameChat(id, title)`: only the chats whose id is
      `id` change, and only in their title. */
  function Renamed(chats: seq<Chat>, id: string, title: string): (r: seq<Chat>)
    ensures |r| == |chats|
    ensures Ids(r) == Ids(chats)
    ensures forall i :: 0 <= i < |chats| && chats[i].id != id ==> r[i] == chats[i]
    ensures forall i :: 0 <= i < |chats| && chats[i].id == id ==>
      r[i] == chats[i].(title := title)
  {
    if chats == [] then []
    else
      var c := chats[0];
      [if c.id == id then c.(title := title) else c] + Renamed(chats[1..], id, title)
  }

  /** The chat list without the chats whose id is `id`, the others in order. */
  function Removed(chats: seq<Chat>, id: string): (r: seq<Chat>)
    ensures id !in Ids(r)
    ensures Subsequence(r, chats)
    ensures forall i :: 0 <= i < |chats| && chats[i].id != id ==> chats[i] in r
    ensures forall c :: c in r ==> c in chats
  {
    var r := Filter(chats, (c: Chat) => c.id != id);
    assert forall i :: 0 <= i < |r| ==> r[i].id != id;
    r
  }

  /** The active id after `deleteChat(id)`: when the active chat is the one
      deleted, the first remaining chat becomes active, or "" if none remains. */
  function NextActive(chats: seq<Chat>, active: string, id: string): string
  {
    if active == id then
      var remaining := Removed(chats, id);
      if |remaining| > 0 then remaining[0].id else ""
    else active
  }

  /** Deleting a chat keeps the selection valid. */
  lemma DeleteKeepsSelection(chats: seq<Chat>, active: string, id: string)
    requires SelectionValid(chats, active)
    ensures SelectionValid(Removed(chats, id), NextActive(chats, active, id))
  {
    var r := Removed(chats, id);
    if active != id {
      if active in Ids(chats) {
        var i :| 0 <= i < |chats| && chats[i].id == active;
        var j :| 0 <= j < |r| && r[j] == chats[i];
        assert Ids(r)[j] == active;
      } else {
        assert chats == [];
        assert r == [];
      }
    } else if |r| > 0 {
      assert Ids(r)[0] == r[0].id;
    }
  }

  /** Deleting the active chat moves the selection off the deleted id; when
      no chat id is "", the selection becomes "" exactly when no chat is left. */
  lemma DeleteMovesSelection(chats: seq<Chat>, active: string, id: string)
    requires active == id && id != "" && "" !in Ids(chats)
    ensures NextActive(chats, active, id) != id
    ensures NextActive(chats, active, id) == "" <==> Removed(chats, id) == []
  {
    var r := Removed(chats, id);
    if |r| > 0 {
      assert Ids(r)[0] == r[0].id;
      var i :| 0 <= i < |chats| && chats[i] == r[0];
      assert Ids(chats)[i] == r[0].id;
    }
  }

  /** Creating a chat selects it, so the selection is valid afterwards. */
  lemma AddSelects(chats: seq<Chat>, id: string)
    ensures SelectionValid([NewChat(id)] + chats, id)
  {
    assert Ids([NewChat(id)] + chats)[0] == id;
  }

  /** Preview updates and renames keep the selection valid: ids do not change. */
  lemma UpdatesKeepSelection(chats: seq<Chat>, active: string, id: string, text: string)
    ensures SelectionValid(WithPreview(chats, id, text), active) <==> SelectionValid(chats, active)
    ensures SelectionValid(Renamed(chats, id, text), active) <==> SelectionValid(chats, active)
  {
    if chats == [] {
      assert WithPreview(chats, id, text) == [];
      assert Renamed(chats, id, text) == [];
    }
  }

  /** The title `sendMessage`'s `forEach` leaves in its variable: the title
      of the LAST chat whose id is `id`, or "" when there is none. */
  function TitleOf(chats: seq<Chat>, id: string): string
  {
    if chats == [] then ""
    else if chats[|chats| - 1].id == id then chats[|chats| - 1].title
    else TitleOf(chats[..|chats| - 1], id)
  }

  /** With distinct ids, TitleOf is the title of the one chat that has the id. */
  lemma {:induction false} TitleOfUnique(chats: seq<Chat>, k: nat, id: string)
    requires k < |chats| && chats[k].id == id
    requires forall i, j :: 0 <= i < j < |chats| ==> chats[i].id != chats[j].id
    ensures TitleOf(chats, id) == chats[k].title
  {
    if k < |chats| - 1 {
      TitleOfUnique(chats[..|chats| - 1], k, id);
    }
  }

  /** An id no chat has gives the empty title. */
  lemma {:induction false} TitleOfMissing(chats: seq<Chat>, id: string)
    requires id !in Ids(chats)
    ensures TitleOf(chats, id) == ""
  {
    if chats != [] {
      assert Ids(chats)[|chats| - 1] == chats[|chats| - 1].id;
      assert Ids(chats[..|chats| - 1]) == Ids(chats)[..|chats| - 1];
      TitleOfMissing(chats[..|chats| - 1], id);
    }
  }

  /** `m.name.toLowerCase().includes(title.toLowerCase())`. */
  predicate NameMatches(m: Model, title: string)
  {
    Contains(Lower(m.name), Lower(title))
  }

  /** Model `i` is the first of the list whose name contains the title. */
  predicate FirstMatch(models: seq<Model>, i: int, title: string)
  {
    0 <= i < |models| && NameMatches(models[i], title)
    && forall j :: 0 <= j < i ==> !NameMatches(models[j], title)
  }

  /** Position of the first model whose lowercased name contains the
      lowercased title: the search `models.find(...)` performs. */
  function FindIndex(models: seq<Model>, title: string): (r: Option<nat>)
    ensures r.None? <==> forall i :: 0 <= i < |models| ==> !NameMatches(models[i], title)
    ensures r.Some? ==>
      && r.value < |models| && NameMatches(models[r.value], title)
      && forall j :: 0 <= j < r.value ==> !NameMatches(models[j], title)
  {
    if models == [] then None
    else if NameMatches(models[0], title) then Some(0)
    else
      match FindIndex(models[1..], title)
      case None => None
      case Some(i) => Some(i + 1)
  }

  /** `models.find(m => m.name.toLowerCase().includes(title.toLowerCase()))`. */
  function FindModel(models: seq<Model>, title: string): (r: Option<Model>)
    ensures r.None? <==> forall i :: 0 <= i < |models| ==> !NameMatches(models[i], title)
    ensures r.Some? ==> r.value in models && NameMatches(r.value, title)
    ensures r.Some? ==> exists k :: FirstMatch(models, k, title) && models[k] == r.value
  {
    match FindIndex(models, title)
    case None => None
    case Some(i) => Some(models[i])
  }

  /** The routing in `sendMessage`, by the active chat's title. */
  function Route(title: string, content: string, img: Option<seq<string>>): Request
  {
    if title == "SDXL" then GenerateImage(content)
    else if title == "TTS" then GenerateAudio(content, AudioSpeaker, AudioLanguage)
    else
      match FindModel(ChatModels, title)
      case Some(m) => Generate(m.name, content + " " + m.systemprompt, None)
      case None =>
        match FindModel(ChatImageModels, title)
        case Some(m) => Generate(m.name, content + " " + m.systemprompt, img)
        case None => NoRequest
  }

  /** What routing promises: the two fixed titles go to their commands; any
      other title goes to the first text model whose name contains it, without
      images; only when no text model matches is the first matching image
      model used, with the attached images; and no request means no model
      matched at all. */
  lemma RouteSpec(title: string, content: string, img: Option<seq<string>>)
    ensures title == "SDXL" ==> Route(title, content, img) == GenerateImage(content)
    ensures title == "TTS" ==> Route(title, content, img) == GenerateAudio(content, "Damien Black", "en")
    ensures forall i :: title != "SDXL" && title != "TTS" && FirstMatch(ChatModels, i, title) ==>
      Route(title, content, img) == Generate(ChatModels[i].name, content + " " + ChatModels[i].systemprompt, None)
    ensures forall i ::
      (title != "SDXL" && title != "TTS" && FirstMatch(ChatImageModels, i, title)
        && forall j :: 0 <= j < |ChatModels| ==> !NameMatches(ChatModels[j], title)) ==>
      Route(title, content, img) == Generate(ChatImageModels[i].name, content + " " + ChatImageModels[i].systemprompt, img)
    ensures Route(title, content, img) == NoRequest <==>
      title != "SDXL" && title != "TTS"
      && (forall i :: 0 <= i < |ChatModels| ==> !NameMatches(ChatModels[i], title))
      && (forall i :: 0 <= i < |ChatImageModels| ==> !NameMatches(ChatImageModels[i], title))
  {
  }

  /** A chat whose active id names no chat has the title "", which every
      model name contains: such a send goes to the first text model. */
  lemma RouteEmptyTitle(content: string, img: Option<seq<string>>)
    ensures Route("", content, img) == Generate("tinyllama", content + " test", None)
  {
    assert Lower("") == "";
  }

  /** Every request turns the typing indicator on. */
  predicate StartsTyping(req: Request)
  {
    req != NoRequest
  }

  /** The two native commands also turn the loading indicator on; the text
      endpoint does not. */
  predicate StartsLoading(req: Request)
  {
    req.GenerateImage? || req.GenerateAudio?
  }

  /** The user's message as `sendMessage` builds it. */
  function UserMessage(id: string, content: string, stamp: string): Message
  {
    Message(id, content, User, stamp, None, None)
  }

  /** A 2xx status: `response.ok`. */
  predicate StatusOk(status: int)
  {
    200 <= status <= 299
  }

  class Store {
    var chats: seq<Chat>
    var activeChat: string
    var messages: map<string, seq<Message>>
    var typing: bool
    var loading: bool

    /** The state the application starts in. */
    constructor ()
      ensures chats == InitialChats && activeChat == "1" && messages == map[]
      ensures !typing && !loading
      ensures SelectionValid(chats, activeChat)
    {
      chats := InitialChats;
      activeChat := "1";
      messages := map[];
      typing := false;
      loading := false;
      assert Ids(InitialChats)[0] == "1";
    }

    /** `addNewChat`, with `Date.now().toString()` passed in as `id`. */
    method AddNewChat(id: string)
      modifies this
      ensures chats == [NewChat(id)] + old(chats)
      ensures activeChat == id
      ensures messages == old(messages)[id := []]
      ensures typing == old(typing) && loading == old(loading)
      ensures SelectionValid(chats, activeChat)
    {
      chats := [NewChat(id)] + chats;
      activeChat := id;
      messages := messages[id := []];
      AddSelects(old(chats), id);
    }

    /** `onChatSelect`: any id is accepted. */
    method Select(id: string)
      modifies this`activeChat
      ensures activeChat == id
      ensures SelectionValid(chats, activeChat) <==> (id in Ids(chats) || (id == "" && chats == []))
    {
      activeChat := id;
    }

    /** The `forEach` of `sendMessage` that looks up the active chat's title. */
    method ActiveTitle() returns (title: string)
      ensures title == TitleOf(chats, activeChat)
    {
      title := "";
      var i := 0;
      while i < |chats|
        invariant 0 <= i <= |chats|
        invariant title == TitleOf(chats[..i], activeChat)
      {
        assert chats[..i + 1][..i] == chats[..i];
        if chats[i].id == activeChat {
          title := chats[i].title;
        }
        i := i + 1;
      }
      assert chats[..|chats|] == chats;
    }

    /** `sendMessage(content, img)`: the user's message is appended to the
      active chat and becomes its preview whether or not a request is made;
      the request is chosen by the title the `forEach` finds in the chat
      list as it was before the preview update (the loop is ActiveTitle).
      The returned `target` is the chat the reply will be appended to. */
    method SendMessage(content: string, img: Option<seq<string>>, msgId: string, stamp: string)
      returns (req: Request, target: string)
      modifies this
      ensures target == old(activeChat) && activeChat == old(activeChat)
      ensures messages == Appended(old(messages), target, UserMessage(msgId, content, stamp))
      ensures chats == WithPreview(old(chats), target, content)
      ensures req == Route(TitleOf(old(chats), target), content, img)
      ensures typing == (old(typing) || StartsTyping(req))
      ensures loading == (old(loading) || StartsLoading(req))
      ensures old(SelectionValid(chats, activeChat)) ==> SelectionValid(chats, activeChat)
    {
      target := activeChat;
      var title := TitleOf(chats, activeChat);
      req := Route(title, content, img);
      Post(target, UserMessage(msgId, content, stamp), content);
      typing := typing || StartsTyping(req);
      loading := loading || StartsLoading(req);
    }

    /** Appends `msg` to the history of chat `target` and makes `preview`
      that chat's last message; the selection stays valid. */
    method Post(target: string, msg: Message, preview: string)
      modifies this`messages, this`chats
      ensures messages == Appended(old(messages), target, msg)
      ensures chats == WithPreview(old(chats), target, preview)
      ensures old(SelectionValid(chats, activeChat)) ==> SelectionValid(chats, activeChat)
    {
      messages := Appended(messages, target, msg);
      UpdatesKeepSelection(chats, activeChat, target, preview);
      chats := WithPreview(chats, target, preview);
    }

    /** The text-generation reply for a request sent from chat `target`. A 2xx
      response appends the assistant's text and makes it the preview; a
      non-2xx status or an exception appends nothing. `typing` always ends false. */
    method TextReplyArrives(target: string, outcome: HttpOutcome, msgId: string, stamp: string)
      modifies this
      ensures outcome.Responded? && StatusOk(outcome.status) ==>
        && messages == Appended(old(messages), target, Message(msgId, outcome.response, Assistant, stamp, None, None))
        && chats == WithPreview(old(chats), target, outcome.response)
      ensures !(outcome.Responded? && StatusOk(outcome.status)) ==>
        messages == old(messages) && chats == old(chats)
      ensures !typing && loading == old(loading) && activeChat == old(activeChat)
      ensures old(SelectionValid(chats, activeChat)) ==> SelectionValid(chats, activeChat)
    {
      if outcome.Responded? && StatusOk(outcome.status) {
        var reply := Message(msgId, outcome.response, Assistant, stamp, None, None);
        Post(target, reply, outcome.response);
      }
      typing := false;
    }

    /** The `generate_image` command's settlement for a request from chat
      `target`: a resolved result becomes an assistant message with empty
      content and the result as its image, and the preview "Image Done";
      a rejection appends nothing. Both indicators end false. */
    method ImageReplyArrives(target: string, outcome: CommandOutcome, msgId: string, stamp: string)
      modifies this
      ensures outcome.Resolved? ==>
        && messages == Appended(old(messages), target, Message(msgId, "", Assistant, stamp, Some(outcome.result), None))
        && chats == WithPreview(old(chats), target, ImageDone)
      ensures outcome.Rejected? ==> messages == old(messages) && chats == old(chats)
      ensures !typing && !loading && activeChat == old(activeChat)
      ensures old(SelectionValid(chats, activeChat)) ==> SelectionValid(chats, activeChat)
    {
      if outcome.Resolved? {
        var reply := Message(msgId, "", Assistant, stamp, Some(outcome.result), None);
        Post(target, reply, ImageDone);
      }
      loading := false;
      typing := false;
    }

    /** The `generate_audio` command's settlement: like an image reply, with
      the result as the message's audio and the same "Image Done" preview. */
    method AudioReplyArrives(target: string, outcome: CommandOutcome, msgId: string, stamp: string)
      modifies this
      ensures outcome.Resolved? ==>
        && messages == Appended(old(messages), target, Message(msgId, "", Assistant, stamp, None, Some(outcome.result)))
        && chats == WithPreview(old(chats), target, ImageDone)
      ensures outcome.Rejected? ==> messages == old(messages) && chats == old(chats)
      ensures !typing && !loading && activeChat == old(activeChat)
      ensures old(SelectionValid(chats, activeChat)) ==> SelectionValid(chats, activeChat)
    {
      if outcome.Resolved? {
        var reply := Message(msgId, "", Assistant, stamp, None, Some(outcome.result));
        Post(target, reply, ImageDone);
      }
      loading := false;
      typing := false;
    }

    /** `deleteChat(id)`: the chat and its message list go together. */
    method DeleteChat(id: string)
      modifies this
      ensures chats == Removed(old(chats), id)
      ensures activeChat == NextActive(old(chats), old(activeChat), id)
      ensures messages == old(messages) - {id}
      ensures id !in Ids(chats) && id !in messages
      ensures typing == old(typing) && loading == old(loading)
      ensures old(SelectionValid(chats, activeChat)) ==> SelectionValid(chats, activeChat)
    {
      if old(SelectionValid(chats, activeChat)) {
        DeleteKeepsSelection(chats, activeChat, id);
      }
      var remaining := Removed(chats, id);
      if activeChat == id {
        activeChat := if |remaining| > 0 then remaining[0].id else "";
      }
      chats := remaining;
      messages := messages - {id};
    }

    /** `renameChat(id, title)`. */
    method RenameChat(id: string, title: string)
      modifies this`chats
      ensures chats == Renamed(old(chats), id, title)
      ensures old(SelectionValid(chats, activeChat)) ==> SelectionValid(chats, activeChat)
    {
      UpdatesKeepSelection(chats, activeChat, id, title);
      chats := Renamed(chats, id, title);
    }
  }
}
