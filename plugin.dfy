/** The plugin's state and its entry points: the two message hooks that
    hold messages back for translation, the completion of a request, and
    the menu actions that assign a language (trunk/purple-translate.c).
    Callbacks run one at a time on the client's event loop, so a completion
    is simply a later call on the same object. */
module Translate {
  import opened Wrappers
  import opened Host
  import opened Languages
  import opened Response
  import opened Request
  import opened Policy
  import opened Menu

  /** What a held-back message needs to be resumed (struct
      TranslateConvMessage). For an outgoing message `sender` is the
      receiver's name. */
  datatype ConvMessage = ConvMessage(account: Account, sender: string, conv: Option<ConvId>, flags: Flags)

  /** The completion callback a request was made with. */
  datatype Callback = ReceivingCallback | SendingCallback

  /** A request in flight: struct _TranslateStore (its copy of the phrase is
      request.phrase) together with the context handed to the callback. */
  datatype Pending = Pending(request: Request, callback: Callback, context: ConvMessage)

  /** One call of purple_conversation_write with the arguments the plugin
      passes. The conversation or the message may be NULL (None); what the
      client then shows is up to the client. */
  datatype Write = Write(conv: Option<ConvId>, who: Option<string>, message: Option<string>, flags: Flags)

  /** One call of serv_send_im. */
  datatype Send = Send(account: Account, receiver: string, message: Option<string>, flags: Flags)

  /** One emission of the "sent-im-msg" signal. */
  datatype Signal = SentImMsg(account: Account, receiver: string, message: Option<string>)

  function AssignedNotice(name: string): string {
    "Now translating to " + name + "\n"
  }

  function DetectedNotice(name: string): string {
    "Now translating to " + name + " (auto-detected)\n"
  }

  /** The store after a reply: a detected language overwrites the buddy's
      stored value, whatever it was; without a detected language, or when
      the buddy can no longer be found, nothing changes. */
  function StoreAfterDetection(store: Store, buddy: Option<Node>, detected: Option<string>): (r: Store)
    ensures buddy.Some? && detected.Some? ==> StoredValue(r, buddy) == detected
    ensures buddy.None? || detected.None? ==> r == store
    ensures forall id :: (buddy.None? || id != buddy.value.id) ==>
      (id in r <==> id in store) && (id in r ==> r[id] == store[id])
  {
    if detected.Some? && buddy.Some? then store[buddy.value.id := detected.value] else store
  }

  /** The store after choosing a menu entry for a node: the code of the
      chosen language, or no value for "Auto". */
  function StoreAfterAssignment(store: Store, node: Node, pair: Option<Language>): (r: Store)
    ensures pair.Some? ==> StoredValue(r, Some(node)) == Some(pair.value.code)
    ensures pair.None? ==> StoredValue(r, Some(node)).None?
    ensures forall id :: id != node.id ==> (id in r <==> id in store) && (id in r ==> r[id] == store[id])
  {
    if pair.Some? then store[node.id := pair.value.code] else store - {node.id}
  }

  /** The conversation translate_action_blist_cb looks up for a node: the
      chat's, or the IM of the buddy (of the contact's priority buddy for a
      contact). An empty contact and other nodes have none. */
  function NodeConversation(node: Node, lookups: Lookups): Option<ConvId> {
    match node
    case ChatNode(_, chatName, account) => lookups.findConversation(ChatConv, chatName, account)
    case ContactNode(_, priority) =>
      if priority.Some? then lookups.findConversation(ImConv, priority.value.name, priority.value.account)
      else None
    case BuddyNode(_, buddy) => lookups.findConversation(ImConv, buddy.name, buddy.account)
    case OtherNode(_) => None
  }

  class Plugin {
    /** The "eionrobb-translate-lang" value of every contact list node. */
    var store: Store
    /** Every purple_conversation_write the plugin made, in order. */
    var log: seq<Write>
    /** Every serv_send_im the plugin made, in order. */
    var sends: seq<Send>
    /** Every "sent-im-msg" the plugin emitted, in order. */
    var signals: seq<Signal>
    /** Requests whose reply has not arrived, by request number. */
    var pending: map<nat, Pending>
    /** The number the next request gets. */
    var nextId: nat

    /** purple_url_encode */
    const encode: string -> string
    /** purple_markup_strip_html */
    const stripHtml: string -> string
    /** purple_strdup_withhtml */
    const withHtml: string -> string

    ghost predicate Valid()
      reads this
    {
      forall id :: id in pending ==> id < nextId
    }

    constructor (encode: string -> string, stripHtml: string -> string,
                 withHtml: string -> string, store: Store)
      ensures Valid()
      ensures this.encode == encode && this.stripHtml == stripHtml && this.withHtml == withHtml
      ensures this.store == store && log == [] && sends == [] && signals == []
      ensures pending == map[] && nextId == 0
    {
      this.encode, this.stripHtml, this.withHtml := encode, stripHtml, withHtml;
      this.store := store;
      log, sends, signals := [], [], [];
      pending, nextId := map[], 0;
    }

    /** purple_strdup_withhtml of a phrase that may be NULL; for NULL it
        returns NULL. */
    function Render(phrase: Option<string>): Option<string> {
      if phrase.Some? then Some(withHtml(phrase.value)) else None
    }

    /** The writes translate_receiving_message_cb makes: the rendered
        translation under the sender's name, then, when a language was
        detected and the catalog knows it, the auto-detection notice. */
    function ReceivedWrites(context: ConvMessage, translated: Option<string>,
                            detected: Option<string>): seq<Write>
    {
      var translation := Write(context.conv, Some(context.sender), Render(translated), context.flags);
      var name := if detected.Some? then LookupName(Catalog, detected.value) else None;
      if name.Some? then [translation, Write(context.conv, None, Some(DetectedNotice(name.value)), NoticeFlags)]
      else [translation]
    }

    /** google_translate: a fresh pending record with a copy of the phrase
        and the request for the language pair. */
    method GoogleTranslate(phrase: string, from: Option<string>, to: string,
                           callback: Callback, context: ConvMessage)
      returns (id: nat)
      requires Valid()
      modifies this`pending, this`nextId
      ensures Valid()
      ensures id == old(nextId) && id !in old(pending) && nextId == id + 1
      ensures pending == old(pending)[id := Pending(MakeRequest(phrase, from, to, encode), callback, context)]
    {
      id := nextId;
      pending := pending[id := Pending(MakeRequest(phrase, from, to, encode), callback, context)];
      nextId := nextId + 1;
    }

    /** translate_receiving_im_msg: returns whether the message is cancelled,
        and the new values of *sender and *message. */
    method ReceivingImMsg(account: Account, sender: string, message: string,
                          conv: Option<ConvId>, flags: Flags, prefs: Prefs, lookups: Lookups)
      returns (cancel: bool, senderOut: Option<string>, messageOut: Option<string>)
      requires Valid()
      modifies this`pending, this`nextId
      ensures Valid()
      ensures cancel == !InboundPassesThrough(store, lookups.findBuddy(account, sender), prefs)
      ensures !cancel ==> senderOut == Some(sender) && messageOut == Some(message)
      ensures cancel ==> senderOut.None? && messageOut.None?
      ensures cancel && IssuesRequest(prefs) ==>
        && nextId == old(nextId) + 1
        && pending == old(pending)[old(nextId) := Pending(
             MakeRequest(stripHtml(message), Some(InboundLanguage(store, lookups.findBuddy(account, sender))),
                         prefs.locale, encode),
             ReceivingCallback, ConvMessage(account, sender, conv, flags))]
      ensures !(cancel && IssuesRequest(prefs)) ==> pending == old(pending) && nextId == old(nextId)
    {
      var buddy := lookups.findBuddy(account, sender);
      var lang := InboundLanguage(store, buddy);
      if InboundPassesThrough(store, buddy, prefs) {
        return false, Some(sender), Some(message);
      }
      var stripped := stripHtml(message);
      var context := ConvMessage(account, sender, conv, flags);
      if prefs.service == Some("google") {
        var _ := GoogleTranslate(stripped, Some(lang), prefs.locale, ReceivingCallback, context);
      }
      return true, None, None;
    }

    /** translate_sending_im_msg: returns the new value of *message. */
    method SendingImMsg(account: Account, receiver: string, message: string,
                        prefs: Prefs, lookups: Lookups)
      returns (messageOut: Option<string>)
      requires Valid()
      modifies this`pending, this`nextId
      ensures Valid()
      ensures var buddy := lookups.findBuddy(account, receiver);
        messageOut == if OutboundPassesThrough(store, buddy, prefs) then Some(message) else None
      ensures messageOut.None? && IssuesRequest(prefs) ==>
        && nextId == old(nextId) + 1
        && pending == old(pending)[old(nextId) := Pending(
             MakeRequest(stripHtml(message), Some(prefs.locale),
                         StoredValue(store, lookups.findBuddy(account, receiver)).value, encode),
             SendingCallback,
             ConvMessage(account, receiver, lookups.findConversation(ImConv, receiver, account), {SendFlag}))]
      ensures !(messageOut.None? && IssuesRequest(prefs)) ==> pending == old(pending) && nextId == old(nextId)
    {
      var buddy := lookups.findBuddy(account, receiver);
      if OutboundPassesThrough(store, buddy, prefs) {
        return Some(message);
      }
      var toLang := StoredValue(store, buddy).value;
      var stripped := stripHtml(message);
      var context := ConvMessage(account, receiver, lookups.findConversation(ImConv, receiver, account), {SendFlag});
      if prefs.service == Some("google") {
        var _ := GoogleTranslate(stripped, Some(prefs.locale), toLang, SendingCallback, context);
      }
      return None;
    }

    /** translate_receiving_message_cb */
    method ReceivingMessageDone(translated: Option<string>, detected: Option<string>,
                                context: ConvMessage, lookups: Lookups)
      modifies this`store, this`log
      ensures store == StoreAfterDetection(old(store), lookups.findBuddy(context.account, context.sender), detected)
      ensures log == old(log) + ReceivedWrites(context, translated, detected)
    {
      if detected.Some? {
        var buddy := lookups.findBuddy(context.account, context.sender);
        if buddy.Some? {
          store := store[buddy.value.id := detected.value];
        }
      }
      log := log + [Write(context.conv, Some(context.sender), Render(translated), context.flags)];
      if detected.Some? {
        var name := FindLanguageName(Catalog, detected.value);
        if name.Some? {
          log := log + [Write(context.conv, None, Some(DetectedNotice(name.value)), NoticeFlags)];
        }
      }
    }

    /** translate_sending_message_cb: send the translation, show the
        original only when the send reports success, and tell the client
        the original was sent in any case. */
    method SendingMessageDone(original: string, translated: Option<string>,
                              context: ConvMessage, sendResult: int)
      modifies this`log, this`sends, this`signals
      ensures sends == old(sends) + [Send(context.account, context.sender, Render(translated), context.flags)]
      ensures log == old(log) + if sendResult > 0
                                then [Write(context.conv, Some(context.sender), Some(withHtml(original)), context.flags)]
                                else []
      ensures signals == old(signals) + [SentImMsg(context.account, context.sender, Some(withHtml(original)))]
    {
      sends := sends + [Send(context.account, context.sender, Render(translated), context.flags)];
      var html := Some(withHtml(original));
      if sendResult > 0 {
        log := log + [Write(context.conv, Some(context.sender), html, context.flags)];
      }
      signals := signals + [SentImMsg(context.account, context.sender, html)];
    }

    /** google_translate_cb: the reply to request `id` arrives. `text` is the
        fetched text (None when the fetch failed), `lookups` the client's
        answers at this moment and `sendResult` what serv_send_im returns.
        A field without a closing quote is undefined behaviour in C and is
        excluded. The pending record is released whichever callback runs. */
    method Complete(id: nat, text: Option<CString>, len: nat, lookups: Lookups, sendResult: int)
      requires Valid() && id in pending
      requires ParseReply(text, len).Ok?
      modifies this`pending, this`store, this`log, this`sends, this`signals
      ensures Valid()
      ensures pending == old(pending) - {id}
      ensures var p, reply := old(pending)[id], ParseReply(text, len).value;
        if p.callback == ReceivingCallback then
          && store == StoreAfterDetection(old(store), lookups.findBuddy(p.context.account, p.context.sender), reply.detected)
          && log == old(log) + ReceivedWrites(p.context, reply.translated, reply.detected)
          && sends == old(sends) && signals == old(signals)
        else
          && store == old(store)
          && sends == old(sends) + [Send(p.context.account, p.context.sender, Render(reply.translated), p.context.flags)]
          && log == old(log) + (if sendResult > 0
                                then [Write(p.context.conv, Some(p.context.sender), Some(withHtml(p.request.phrase)), p.context.flags)]
                                else [])
          && signals == old(signals) + [SentImMsg(p.context.account, p.context.sender, Some(withHtml(p.request.phrase)))]
    {
      var p := pending[id];
      var reply := ParseReply(text, len).value;
      if p.callback == ReceivingCallback {
        ReceivingMessageDone(reply.translated, reply.detected, p.context, lookups);
      } else {
        SendingMessageDone(p.request.phrase, reply.translated, p.context, sendResult);
      }
      pending := pending - {id};
    }

    /** translate_action_blist_cb: store the chosen language on the node
        (nothing for "Auto") and, when the node has an open conversation and
        a language was chosen, tell the conversation. */
    method ActionBlist(node: Node, pair: Option<Language>, lookups: Lookups)
      modifies this`store, this`log
      ensures store == StoreAfterAssignment(old(store), node, pair)
      ensures log == old(log) + if NodeConversation(node, lookups).Some? && pair.Some?
                                then [Write(NodeConversation(node, lookups), None, Some(AssignedNotice(pair.value.name)), NoticeFlags)]
                                else []
    {
      if pair.None? {
        store := store - {node.id};
      } else {
        store := store[node.id := pair.value.code];
      }
      var conv := NodeConversation(node, lookups);
      if conv.Some? && pair.Some? {
        log := log + [Write(conv, None, Some(AssignedNotice(pair.value.name)), NoticeFlags)];
      }
    }

    /** translate_action_conv_cb: the same for the conversation's node,
        followed by one more notice in the conversation itself. */
    method ActionConv(conv: Conversation, pair: Option<Language>, lookups: Lookups)
      modifies this`store, this`log
      ensures var node := ConversationNode(conv, lookups);
        if node.None? then store == old(store) && log == old(log)
        else
          && store == StoreAfterAssignment(old(store), node.value, pair)
          && log == old(log)
                    + (if NodeConversation(node.value, lookups).Some? && pair.Some?
                       then [Write(NodeConversation(node.value, lookups), None, Some(AssignedNotice(pair.value.name)), NoticeFlags)]
                       else [])
                    + (if pair.Some?
                       then [Write(Some(conv.id), None, Some(AssignedNotice(pair.value.name)), NoticeFlags)]
                       else [])
    {
      var node := ConversationNode(conv, lookups);
      if node.Some? {
        ActionBlist(node.value, pair, lookups);
        if pair.Some? {
          log := log + [Write(Some(conv.id), None, Some(AssignedNotice(pair.value.name)), NoticeFlags)];
        }
      }
    }
  }

  // ---- Properties of the stored language and of the notices ----

  /** Choosing a menu entry twice for a node is the same as choosing it
      once, and of two choices the later one wins. */
  lemma {:induction false} LastAssignmentWins(store: Store, node: Node, first: Option<Language>, second: Option<Language>)
    ensures StoreAfterAssignment(StoreAfterAssignment(store, node, first), node, second)
            == StoreAfterAssignment(store, node, second)
  {
    var once := StoreAfterAssignment(store, node, second);
    var twice := StoreAfterAssignment(StoreAfterAssignment(store, node, first), node, second);
    assert forall id :: id in twice <==> id in once;
    forall id | id in twice ensures twice[id] == once[id] {
    }
  }

  /** After a language is chosen for a buddy, it is the source language of
      incoming messages from that buddy, and each hook holds messages back
      exactly under its own condition applied to that code. A request is
      made only with the "google" service (Policy.IssuesRequest). */
  lemma ChosenLanguageGoverns(store: Store, buddy: Node, pair: Language, prefs: Prefs)
    ensures var s := StoreAfterAssignment(store, buddy, Some(pair));
      && InboundLanguage(s, Some(buddy)) == pair.code
      && (InboundPassesThrough(s, Some(buddy), prefs)
          <==> prefs.service.None? || pair.code == "none" || pair.code == prefs.locale)
      && (OutboundPassesThrough(s, Some(buddy), prefs)
          <==> prefs.service.None? || pair.code == prefs.locale || pair.code == "auto")
  {
  }

  /** Choosing "Auto" for a buddy returns it to detection: "auto" is the
      source language of incoming messages, and outgoing ones pass
      through. */
  lemma AutoRestoresDetection(store: Store, buddy: Node, prefs: Prefs)
    ensures var s := StoreAfterAssignment(store, buddy, None);
      && InboundLanguage(s, Some(buddy)) == "auto"
      && OutboundPassesThrough(s, Some(buddy), prefs)
  {
  }

  /** A detected language becomes the buddy's language: the next outgoing
      message to that buddy is held back exactly when a service is set and
      the language is neither the user's own nor "auto". A request into it
      is made only with the "google" service (Policy.IssuesRequest). */
  lemma DetectionSetsOutbound(store: Store, buddy: Node, detected: string, prefs: Prefs)
    ensures var s := StoreAfterDetection(store, Some(buddy), Some(detected));
      !OutboundPassesThrough(s, Some(buddy), prefs)
      <==> prefs.service.Some? && detected != prefs.locale && detected != "auto"
  {
  }

  /** The writes of a reply to an incoming message: the translation first,
      then a notice exactly when a language was detected that the catalog
      knows, naming that language by its catalog name. */
  lemma ReceivedWritesNotice(p: Plugin, context: ConvMessage, translated: Option<string>, detected: Option<string>)
    ensures var w := p.ReceivedWrites(context, translated, detected);
      && 1 <= |w| <= 2
      && w[0] == Write(context.conv, Some(context.sender), p.Render(translated), context.flags)
      && (|w| == 2 <==> detected.Some? && exists name :: Language(detected.value, name) in Catalog)
      && forall name :: detected.Some? && Language(detected.value, name) in Catalog ==>
           w[|w| - 1] == Write(context.conv, None, Some(DetectedNotice(name)), NoticeFlags)
  {
    if detected.Some? {
      var code := detected.value;
      var found := LookupName(Catalog, code);
      if found.Some? {
        CatalogLookup(code, found.value);
      }
      forall name | Language(code, name) in Catalog ensures found == Some(name) {
        CatalogLookup(code, name);
      }
    }
  }

  /** Catalog codes never contain the URL's delimiters, so a request between
      two catalog languages carries exactly that pair and the encoded
      phrase. */
  lemma CatalogRequestCarriesPair(phrase: string, from: Language, to: Language, encode: string -> string)
    requires from in Catalog && to in Catalog
    ensures ParseUrl(MakeRequest(phrase, Some(from.code), to.code, encode).url)
            == Some((SourceParameter(Some(from.code)), to.code, encode(phrase)))
  {
    CatalogCodesPlain();
    RequestUrlCarriesPair(phrase, Some(from.code), to.code, encode);
  }
}
