/** The chat sidebar: a case-insensitive search over the chat list, and the
    in-place editor that renames a chat. Selecting and deleting a chat are
    passed straight to the Store. */
module Sidebar {
  import opened Util
  import opened Text
  import opened Conversations

  /** A chat is listed when its title or its preview contains the query,
      ignoring ASCII case. */
  predicate MatchesQuery(chat: Chat, query: string)
  {
    Contains(Lower(chat.title), Lower(query)) || Contains(Lower(chat.lastMessage), Lower(query))
  }

  /** `filteredChats`: the chats matching the query, in their order. */
  function FilteredChats(chats: seq<Chat>, query: string): (r: seq<Chat>)
    ensures forall i :: 0 <= i < |r| ==> r[i] in chats && MatchesQuery(r[i], query)
    ensures forall i :: 0 <= i < |chats| && MatchesQuery(chats[i], query) ==> chats[i] in r
    ensures Subsequence(r, chats)
  {
    Filter(chats, c => MatchesQuery(c, query))
  }

  /** An empty search box lists every chat. */
  lemma EmptyQueryListsAll(chats: seq<Chat>)
    ensures FilteredChats(chats, "") == chats
  {
    forall i | 0 <= i < |chats|
      ensures MatchesQuery(chats[i], "")
    {
      assert Lower("") == "";
      ContainsEmpty(Lower(chats[i].title));
    }
    FilterAll(chats, c => MatchesQuery(c, ""));
  }

  /** The search ignores the case of the query. */
  lemma QueryCaseIgnored(chats: seq<Chat>, query: string)
    ensures FilteredChats(chats, Lower(query)) == FilteredChats(chats, query)
  {
    LowerIdempotent(query);
    FilterSame(chats, c => MatchesQuery(c, Lower(query)), c => MatchesQuery(c, query));
  }

  /** `chats.find(c => c.id === id)`: the first chat with that id. */
  function FindChat(chats: seq<Chat>, id: string): (r: Option<Chat>)
    ensures r.None? <==> id !in Ids(chats)
    ensures r.Some? ==> r.value.id == id
    ensures r.Some? ==>
      exists k :: 0 <= k < |chats| && chats[k] == r.value && forall i :: 0 <= i < k ==> chats[i].id != id
  {
    match FirstIndex(Ids(chats), id)
    case None => None
    case Some(k) =>
      assert forall i :: 0 <= i < k ==> Ids(chats)[..k][i] == chats[i].id;
      Some(chats[k])
  }

  /** With unique ids, FindChat returns the chat at that id's position. */
  lemma FindChatUnique(chats: seq<Chat>, k: nat)
    requires k < |chats|
    requires forall i, j :: 0 <= i < j < |chats| ==> chats[i].id != chats[j].id
    ensures FindChat(chats, chats[k].id) == Some(chats[k])
  {
  }

  /** JavaScript truthiness of the id being edited: a chat is being edited
      and its id is not the empty string. */
  predicate Editing(editingChat: Option<string>)
  {
    editingChat.Some? && editingChat.value != ""
  }

  /** What `saveRename` hands to the Store: the chat and the trimmed title,
      when a chat is being edited and the trimmed title is not empty. */
  function RenameRequest(editingChat: Option<string>, editTitle: string): (r: Option<(string, string)>)
    ensures r.Some? <==> Editing(editingChat) && Trim(editTitle) != ""
    ensures r.Some? ==> r.value.0 == editingChat.value && r.value.1 == Trim(editTitle)
  {
    if Editing(editingChat) && Trim(editTitle) != "" then Some((editingChat.value, Trim(editTitle))) else None
  }

  /** A title the editor hands over is never blank and has no outer whitespace. */
  lemma RenameTitleClean(editingChat: Option<string>, editTitle: string)
    requires RenameRequest(editingChat, editTitle).Some?
    ensures var t := RenameRequest(editingChat, editTitle).value.1; t != "" && Trim(t) == t
  {
    TrimIdempotent(editTitle);
  }

  /** The sidebar's own state: the search box and the rename editor. */
  class Panel {
    var searchQuery: string
    var editingChat: Option<string>
    var editTitle: string

    constructor ()
      ensures searchQuery == "" && editingChat == None && editTitle == ""
    {
      searchQuery := "";
      editingChat := None;
      editTitle := "";
    }

    /** The search box changes. */
    method SetSearch(query: string)
      modifies this`searchQuery
      ensures searchQuery == query
    {
      searchQuery := query;
    }

    /** `handleRename`: "Rename" on a chat opens the editor on its title,
      if the chat is in the list. */
    method HandleRename(chats: seq<Chat>, id: string)
      modifies this`editingChat, this`editTitle
      ensures FindChat(chats, id).Some? ==> editingChat == Some(id) && editTitle == FindChat(chats, id).value.title
      ensures FindChat(chats, id).None? ==> editingChat == old(editingChat) && editTitle == old(editTitle)
    {
      var chat := FindChat(chats, id);
      if chat.Some? {
        editingChat := Some(id);
        editTitle := chat.value.title;
      }
    }

    /** Typing in the editor. */
    method EditTitle(text: string)
      modifies this`editTitle
      ensures editTitle == text
    {
      editTitle := text;
    }

    /** `saveRename`: hands the rename to the Store when there is one, and
      always closes the editor. */
    method SaveRename() returns (rename: Option<(string, string)>)
      modifies this`editingChat, this`editTitle
      ensures rename == RenameRequest(old(editingChat), old(editTitle))
      ensures editingChat == None && editTitle == ""
    {
      rename := None;
      if editingChat.Some? && editingChat.value != "" {
        var title := Trim(editTitle);
        if title != "" {
          rename := Some((editingChat.value, title));
        }
      }
      editingChat := None;
      editTitle := "";
    }

    /** `cancelRename`: closes the editor without renaming. */
    method CancelRename()
      modifies this`editingChat, this`editTitle
      ensures editingChat == None && editTitle == ""
    {
      editingChat := None;
      editTitle := "";
    }

    /** A key in the editor: Enter saves, Escape cancels, others do nothing. */
    method KeyDown(key: string) returns (rename: Option<(string, string)>)
      modifies this`editingChat, this`editTitle
      ensures key == "Enter" ==> rename == RenameRequest(old(editingChat), old(editTitle))
      ensures key != "Enter" ==> rename == None
      ensures key == "Enter" || key == "Escape" ==> editingChat == None && editTitle == ""
      ensures key != "Enter" && key != "Escape" ==> editingChat == old(editingChat) && editTitle == old(editTitle)
    {
      rename := None;
      if key == "Enter" {
        rename := SaveRename();
      }
      if key == "Escape" {
        CancelRename();
      }
    }

    /** Leaving the editor saves, like Enter. */
    method Blur() returns (rename: Option<(string, string)>)
      modifies this`editingChat, this`editTitle
      ensures rename == RenameRequest(old(editingChat), old(editTitle))
      ensures editingChat == None && editTitle == ""
    {
      rename := SaveRename();
    }

    /** The chats the sidebar lists. */
    function Listed(chats: seq<Chat>): seq<Chat>
      reads this
    {
      FilteredChats(chats, searchQuery)
    }
  }
}
