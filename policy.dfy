/** The decisions of the two message hooks: whether a message passes
    through untouched or is held back for translation, and the language
    pair of the request (translate_receiving_im_msg,
    trunk/purple-translate.c:159-204, and translate_sending_im_msg, :232-270). */
module Policy {
  import opened Wrappers
  import opened Host

  /** The stored language of the sender of an incoming message, "auto"
      when the buddy is unknown or has none stored. */
  function InboundLanguage(store: Store, buddy: Option<Node>): string {
    match StoredValue(store, buddy)
    case None => "auto"
    case Some(v) => v
  }

  /** An incoming message is left alone when the sender is not a buddy, no
      service is configured, translation is off for the buddy ("none") or
      the buddy already writes in the user's language. */
  predicate InboundPassesThrough(store: Store, buddy: Option<Node>, prefs: Prefs) {
    var lang := InboundLanguage(store, buddy);
    buddy.None? || prefs.service.None? || lang == "none" || lang == prefs.locale
  }

  /** An outgoing message is left alone when the receiver is not a buddy, no
      service is configured, the buddy has no stored language, it is the
      user's own language, or it is "auto". "none" does not stop it. */
  predicate OutboundPassesThrough(store: Store, buddy: Option<Node>, prefs: Prefs) {
    var stored := StoredValue(store, buddy);
    buddy.None? || prefs.service.None? || stored.None?
    || stored.value == prefs.locale || stored.value == "auto"
  }

  /** Only the "google" service sends a request; any other non-NULL name
      still holds the message back. */
  predicate IssuesRequest(prefs: Prefs) {
    prefs.service == Some("google")
  }

  // ---- Properties of the decisions ----

  /** A buddy who writes in the user's own language is never translated, in
      either direction. */
  lemma OwnLanguageIsLeftAlone(store: Store, buddy: Node, prefs: Prefs)
    requires buddy.id in store && store[buddy.id] == prefs.locale
    ensures InboundPassesThrough(store, Some(buddy), prefs)
    ensures OutboundPassesThrough(store, Some(buddy), prefs)
  {
  }

  /** "none" stops translation of incoming messages. */
  lemma NoneStopsInbound(store: Store, buddy: Node, prefs: Prefs)
    requires buddy.id in store && store[buddy.id] == "none"
    ensures InboundPassesThrough(store, Some(buddy), prefs)
  {
  }

  /** "none" does not stop translation of outgoing messages: they are held
      back, and with the "google" service a request to translate into "none"
      is made. */
  lemma NoneDoesNotStopOutbound(store: Store, buddy: Node, prefs: Prefs)
    requires buddy.id in store && store[buddy.id] == "none"
    requires prefs.service.Some? && prefs.locale != "none"
    ensures !OutboundPassesThrough(store, Some(buddy), prefs)
  {
  }

  /** Incoming messages from a buddy without a stored language are held
      back (for a request from "auto", which asks the service to detect the
      language, when the service is "google") unless no service is set or
      the user's own locale is "auto"; outgoing ones always pass through. */
  lemma UnsetBuddy(store: Store, buddy: Node, prefs: Prefs)
    requires buddy.id !in store
    ensures InboundPassesThrough(store, Some(buddy), prefs)
            <==> prefs.service.None? || prefs.locale == "auto"
    ensures OutboundPassesThrough(store, Some(buddy), prefs)
  {
  }

  /** Where both hooks hold messages back, both act on the buddy's stored
      language: the receiving hook takes it as the source language, and it
      is none of the values that let a message through. */
  lemma BothHooksActOnStoredLanguage(store: Store, buddy: Node, prefs: Prefs)
    requires !InboundPassesThrough(store, Some(buddy), prefs)
    requires !OutboundPassesThrough(store, Some(buddy), prefs)
    ensures InboundLanguage(store, Some(buddy)) == store[buddy.id]
    ensures store[buddy.id] != prefs.locale && store[buddy.id] != "auto" && store[buddy.id] != "none"
  {
  }
}
