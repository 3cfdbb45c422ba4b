/** What the plugin sees of the chat client (libpurple): accounts, contact
    list nodes, conversations, message flags, the plugin's preferences and
    the lookups the client answers. The client itself is not modelled; its
    answers are inputs. */
module Host {
  import opened Wrappers

  type Account = nat
  type ConvId = nat
  type NodeId = nat

  datatype MessageFlag = SendFlag | ReceiveFlag | SystemFlag | NoLogFlag | OtherFlag(bit: nat)
  type Flags = set<MessageFlag>

  /** PURPLE_MESSAGE_SYSTEM | PURPLE_MESSAGE_NO_LOG, the flags of every notice
      the plugin writes. */
  const NoticeFlags: Flags := {SystemFlag, NoLogFlag}

  /** A buddy's name and account, which identify its IM conversation. */
  datatype BuddyInfo = BuddyInfo(name: string, account: Account)

  /** A contact list node. A contact groups buddies and has a priority buddy
      (none when it is empty); groups and other nodes carry no language. */
  datatype Node =
    | BuddyNode(id: NodeId, buddy: BuddyInfo)
    | ContactNode(id: NodeId, priority: Option<BuddyInfo>)
    | ChatNode(id: NodeId, chatName: string, account: Account)
    | OtherNode(id: NodeId)

  datatype ConvType = ImConv | ChatConv | OtherConv

  datatype Conversation = Conversation(id: ConvId, kind: ConvType, account: Account, name: string)

  /** The plugin's two preferences: "locale" (always set, init_plugin gives
      it a default) and "service" (NULL when the preference is missing). */
  datatype Prefs = Prefs(locale: string, service: Option<string>)

  /** The lookups of the client, as it answers them at the time of a call:
      purple_find_buddy, purple_blist_find_chat and
      purple_find_conversation_with_account. */
  datatype Lookups = Lookups(
    findBuddy: (Account, string) -> Option<Node>,
    findChat: (Account, string) -> Option<Node>,
    findConversation: (ConvType, string, Account) -> Option<ConvId>)

  /** The per-node string stored under "eionrobb-translate-lang"; a node
      missing from the map has no value (NULL). */
  type Store = map<NodeId, string>

  function StoredValue(store: Store, node: Option<Node>): Option<string> {
    if node.Some? && node.value.id in store then Some(store[node.value.id]) else None
  }
}
