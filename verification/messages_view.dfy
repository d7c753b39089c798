/** The messages page: the conversation list with its search, the opened
    conversation and its thread, starring, sending and deleting, and the
    folder counts. The clock is a parameter. */
module MessagesView {
  import opened Wrappers
  import opened Seqs
  import Text

  datatype Conversation = Conversation(
    id: string,
    name: string,
    avatar: Option<string>,
    lastMessage: string,
    lastMessageTime: string,
    unreadCount: int,
    online: bool)

  datatype Sender = Sender(id: string, name: string, avatar: Option<string>)

  datatype Message = Message(id: string, content: string, sender: Sender, createdAt: string)

  datatype FolderCounts = FolderCounts(inbox: nat, sent: nat, draft: nat, archive: nat, trash: nat)

  const Me := Sender("current-user", "我", None)

  const Folders: seq<(string, string)> :=
    [("inbox", "收件箱"), ("sent", "已发送"), ("draft", "草稿箱"), ("archive", "归档"), ("trash", "回收站")]

  function ConvId(c: Conversation): string { c.id }

  predicate ConversationMatches(c: Conversation, query: string) {
    Text.IncludesIgnoreCase(c.name, query) || Text.IncludesIgnoreCase(c.lastMessage, query)
  }

  function MatchesQuery(query: string): Conversation -> bool {
    (c: Conversation) => ConversationMatches(c, query)
  }

  function NotConversation(id: string): Conversation -> bool {
    (c: Conversation) => c.id != id
  }

  /** `filteredConversations`: those whose name or last message contains the
      query, ignoring case, in order. */
  function FilterConversations(conversations: seq<Conversation>, query: string): (r: seq<Conversation>)
    ensures forall c :: c in r <==> c in conversations && ConversationMatches(c, query)
  {
    Filter(conversations, MatchesQuery(query))
  }

  /** An empty query lists every conversation, in order. */
  lemma EmptyQueryListsAll(conversations: seq<Conversation>)
    ensures FilterConversations(conversations, "") == conversations
  {
    forall k | 0 <= k < |conversations| ensures MatchesQuery("")(conversations[k]) {
      Text.IncludesIgnoreCaseEmpty(conversations[k].name);
    }
    FilterKeepsAll(conversations, MatchesQuery(""));
  }

  /** The thread loaded for a conversation: four fixed messages and a fifth
      repeating the conversation's last message. */
  function ThreadFor(conv: Conversation): (r: seq<Message>)
    ensures |r| == 5
    ensures r[4].content == conv.lastMessage && r[4].createdAt == conv.lastMessageTime && r[4].sender.id == conv.id
    ensures forall k :: 0 <= k < 5 ==> r[k].sender.id == (if k % 2 == 0 then conv.id else "current-user")
  {
    var them := Sender(conv.id, conv.name, conv.avatar);
    [ Message("1", "你好，请问有什么需要帮忙的吗？", them, "2024-11-28T10:00:00"),
      Message("2", "我想了解一下项目进度", Me, "2024-11-28T10:05:00"),
      Message("3", "项目目前进展顺利，预计下周可以完成第一阶段", them, "2024-11-28T10:10:00"),
      Message("4", "好的，那我们下周开个会议讨论一下", Me, "2024-11-28T10:15:00"),
      Message("5", conv.lastMessage, them, conv.lastMessageTime) ]
  }

  /** Marking a conversation read: every entry with the id gets an unread
      count of 0, every other entry is unchanged. */
  function MarkRead(conversations: seq<Conversation>, id: string): (r: seq<Conversation>)
    ensures |r| == |conversations|
    ensures forall k :: 0 <= k < |r| && conversations[k].id == id ==> r[k] == conversations[k].(unreadCount := 0)
    ensures forall k :: 0 <= k < |r| && conversations[k].id != id ==> r[k] == conversations[k]
  {
    seq(|conversations|, k requires 0 <= k < |conversations| =>
      if conversations[k].id == id then conversations[k].(unreadCount := 0) else conversations[k])
  }

  /** Recording a sent message on a conversation: only entries with the id
      change, and only their last message and its time. */
  function RecordLast(conversations: seq<Conversation>, id: string, text: string, time: string): (r: seq<Conversation>)
    ensures |r| == |conversations|
    ensures forall k :: 0 <= k < |r| && conversations[k].id == id ==>
      r[k] == conversations[k].(lastMessage := text, lastMessageTime := time)
    ensures forall k :: 0 <= k < |r| && conversations[k].id != id ==> r[k] == conversations[k]
  {
    seq(|conversations|, k requires 0 <= k < |conversations| =>
      if conversations[k].id == id then conversations[k].(lastMessage := text, lastMessageTime := time) else conversations[k])
  }

  /** Starring toggles membership. */
  function ToggleStarred(starred: set<string>, id: string): (r: set<string>)
    ensures id in r <==> id !in starred
    ensures forall x :: x != id ==> (x in r <==> x in starred)
  {
    if id in starred then starred - {id} else starred + {id}
  }

  /** Toggling twice restores the set. */
  lemma ToggleTwiceRestores(starred: set<string>, id: string)
    ensures ToggleStarred(ToggleStarred(starred, id), id) == starred
  {
  }

  /** `folderCounts`: every conversation is in the inbox; the other folders
      are always empty. */
  function CountFolders(conversations: seq<Conversation>): (r: FolderCounts)
    ensures r.inbox == |conversations| && r.sent == 0 && r.draft == 0 && r.archive == 0 && r.trash == 0
  {
    FolderCounts(|conversations|, 0, 0, 0, 0)
  }

  /** With unique ids, deleting a listed conversation removes exactly it, so
      the inbox count drops by one. */
  lemma DeleteDropsOne(conversations: seq<Conversation>, k: nat)
    requires k < |conversations| && UniqueBy(conversations, ConvId)
    ensures Filter(conversations, NotConversation(conversations[k].id)) == conversations[..k] + conversations[k + 1..]
    ensures CountFolders(Filter(conversations, NotConversation(conversations[k].id))).inbox == CountFolders(conversations).inbox - 1
  {
    var id := conversations[k].id;
    assert forall i :: 0 <= i < |conversations| && i != k ==> ConvId(conversations[i]) != ConvId(conversations[k]);
    FilterRemovesOne(conversations, NotConversation(id), k);
  }

  class MessagesPage {
    var conversations: seq<Conversation>
    var messages: seq<Message>
    var selectedFolder: string
    /** The conversation opened, as it was when it was opened. */
    var selected: Option<Conversation>
    var searchQuery: string
    var newMessage: string
    var starred: set<string>

    constructor (conversations: seq<Conversation>)
      ensures this.conversations == conversations && messages == [] && selectedFolder == "inbox"
      ensures selected.None? && searchQuery == "" && newMessage == "" && starred == {}
    {
      this.conversations := conversations;
      messages, selectedFolder, selected := [], "inbox", None;
      searchQuery, newMessage, starred := "", "", {};
    }

    /** `handleSelectConversation`: opens the conversation, loads its thread
        and, when it had unread messages, marks it read. */
    method SelectConversation(conv: Conversation)
      modifies this
      ensures selected == Some(conv) && messages == ThreadFor(conv)
      ensures conversations == if conv.unreadCount > 0 then MarkRead(old(conversations), conv.id) else old(conversations)
      ensures selectedFolder == old(selectedFolder) && searchQuery == old(searchQuery)
      ensures newMessage == old(newMessage) && starred == old(starred)
    {
      selected := Some(conv);
      messages := ThreadFor(conv);
      if conv.unreadCount > 0 {
        conversations := MarkRead(conversations, conv.id);
      }
    }

    /** `handleDeleteConversation`: nothing without an open conversation;
        otherwise it is removed and the view is cleared. */
    method DeleteConversation()
      modifies this
      ensures old(selected).None? ==> conversations == old(conversations) && messages == old(messages) && selected.None?
      ensures old(selected).Some? ==> conversations == Filter(old(conversations), NotConversation(old(selected).value.id))
      ensures old(selected).Some? ==> selected.None? && messages == []
      ensures forall c :: c in conversations ==> c in old(conversations)
      ensures selectedFolder == old(selectedFolder) && searchQuery == old(searchQuery)
      ensures newMessage == old(newMessage) && starred == old(starred)
    {
      if selected.None? {
        return;
      }
      conversations := Filter(conversations, NotConversation(selected.value.id));
      selected := None;
      messages := [];
    }

    method ToggleStar(id: string)
      modifies this
      ensures starred == ToggleStarred(old(starred), id)
      ensures conversations == old(conversations) && messages == old(messages) && selected == old(selected)
      ensures selectedFolder == old(selectedFolder) && searchQuery == old(searchQuery) && newMessage == old(newMessage)
    {
      starred := ToggleStarred(starred, id);
    }

    /** `sendMessage`: nothing when the draft is blank or no conversation is
        open; otherwise the draft (untrimmed) is appended as the user's
        message, the open conversation's entry records it, and the draft is
        cleared. The open conversation's snapshot is not refreshed. */
    method SendMessage(nowIso: string, nowMs: nat)
      modifies this
      ensures Text.Trim(old(newMessage)) == "" || old(selected).None? ==>
        messages == old(messages) && conversations == old(conversations) && newMessage == old(newMessage)
      ensures Text.Trim(old(newMessage)) != "" && old(selected).Some? ==>
        && messages == old(messages) + [Message(Text.NatToString(nowMs), old(newMessage), Me, nowIso)]
        && conversations == RecordLast(old(conversations), old(selected).value.id, old(newMessage), nowIso)
        && newMessage == ""
      ensures selected == old(selected) && selectedFolder == old(selectedFolder)
      ensures searchQuery == old(searchQuery) && starred == old(starred)
    {
      var draft, open := newMessage, selected;
      if Text.Trim(draft) == "" || open.None? {
        return;
      }
      var sent := Message(Text.NatToString(nowMs), draft, Me, nowIso);
      var recorded := RecordLast(conversations, open.value.id, draft, nowIso);
      messages, conversations, newMessage := messages + [sent], recorded, "";
    }
  }
}
