/** The "Translate to..." menu the plugin adds to contact list nodes and
    conversations (translate_extended_menu, trunk/purple-translate.c:318-349,
    and translate_conv_extended_menu, :382-393). */
module Menu {
  import opened Wrappers
  import opened Languages
  import opened Host

  /** The action callback a menu was built for: the contact list one or the
      conversation one. */
  datatype MenuCallback = BlistAction | ConvAction

  /** An element of a menu list: a separator (a NULL element of the GList)
      or an action with its title, callback, data (the language pair, NULL
      for "Auto") and submenu. */
  datatype MenuEntry =
    | Separator
    | Action(title: string, callback: Option<MenuCallback>, pair: Option<Language>, children: seq<MenuEntry>)

  const TranslateToLabel: string := "Translate to..."

  function AutoAction(callback: MenuCallback): MenuEntry {
    Action("Auto", Some(callback), None, [])
  }

  function LanguageAction(lang: Language, callback: MenuCallback): MenuEntry {
    Action(lang.name, Some(callback), Some(lang), [])
  }

  /** The submenu of "Translate to...": "Auto", a separator, then one action
      per catalog language in catalog order. */
  ghost predicate IsLanguageSubmenu(children: seq<MenuEntry>, callback: MenuCallback) {
    && |children| == 2 + |Catalog|
    && children[0] == AutoAction(callback)
    && children[1] == Separator
    && forall k :: 0 <= k < |Catalog| ==> children[k + 2] == LanguageAction(Catalog[k], callback)
  }

  /** translate_extended_menu: nothing for a NULL node; otherwise exactly one
      "Translate to..." entry appended to the menu, holding the language
      submenu. */
  method ExtendedMenu(node: Option<Node>, menu: seq<MenuEntry>, callback: MenuCallback)
    returns (result: seq<MenuEntry>)
    ensures node.None? ==> result == menu
    ensures node.Some? ==> |result| == |menu| + 1 && result[..|menu|] == menu
    ensures node.Some? ==>
      && result[|menu|].Action?
      && result[|menu|].title == TranslateToLabel
      && result[|menu|].callback.None? && result[|menu|].pair.None?
      && IsLanguageSubmenu(result[|menu|].children, callback)
  {
    if node.None? {
      return menu;
    }
    var children := [AutoAction(callback), Separator];
    var i := 0;
    while i < |Catalog|
      invariant 0 <= i <= |Catalog|
      invariant |children| == 2 + i
      invariant children[0] == AutoAction(callback) && children[1] == Separator
      invariant forall k :: 0 <= k < i ==> children[k + 2] == LanguageAction(Catalog[k], callback)
    {
      children := children + [LanguageAction(Catalog[i], callback)];
      i := i + 1;
    }
    result := menu + [Action(TranslateToLabel, None, None, children)];
  }

  /** The contact list node of a conversation: the buddy of an IM, the chat
      of a chat, nothing for other kinds. */
  function ConversationNode(conv: Conversation, lookups: Lookups): Option<Node> {
    match conv.kind
    case ImConv => lookups.findBuddy(conv.account, conv.name)
    case ChatConv => lookups.findChat(conv.account, conv.name)
    case OtherConv => None
  }

  /** translate_conv_extended_menu: the conversation's node gets the menu
      with the conversation callback; a conversation without a node gets
      nothing. */
  method ConvExtendedMenu(conv: Conversation, menu: seq<MenuEntry>, lookups: Lookups)
    returns (result: seq<MenuEntry>)
    ensures ConversationNode(conv, lookups).None? ==> result == menu
    ensures ConversationNode(conv, lookups).Some? ==>
      && |result| == |menu| + 1 && result[..|menu|] == menu
      && result[|menu|].Action?
      && result[|menu|] == Action(TranslateToLabel, None, None, result[|menu|].children)
      && IsLanguageSubmenu(result[|menu|].children, ConvAction)
  {
    var node := ConversationNode(conv, lookups);
    if node.Some? {
      result := ExtendedMenu(node, menu, ConvAction);
    } else {
      result := menu;
    }
  }
}
