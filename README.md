# purple-translate, modelled in Dafny

purple-translate is a libpurple plugin that translates instant messages
through an online translation service. Incoming messages are held back,
translated from the buddy's language into the user's own, and written into
the conversation. Outgoing messages are held back, translated from the
user's language into the buddy's, and then sent. Each buddy's language is
stored on its contact list node. The user sets it from a "Translate to..."
menu, and the service's language detection can also set it.

The model covers the plugin's core in `trunk/purple-translate.c`:

- `Request` (`request.dfy`) is the request `google_translate` builds. It
  covers the source language parameter, the URL with its language pair and
  encoded phrase, and the saved copy of the phrase.
- `Text` and `Response` (`text.dfy`, `response.dfy`) are how
  `google_translate_cb` pulls the two fields out of the reply.
  - `g_strstr_len` searches only the first `len` characters of the C
    string.
  - `strchr` searches for the closing quote past that window.
  - When the closing quote is missing, C has undefined behaviour there. The
    model makes it an explicit `Unterminated` result.
- `Languages` (`languages.dfy`) holds:
  - the 59-entry catalog that `init_plugin` builds;
  - proofs that its codes are distinct and plain;
  - the lookup loop of `translate_receiving_message_cb`;
  - the default-locale loop of `init_plugin`.
- `Policy` (`policy.dfy`) holds the decisions of the receiving and sending
  hooks: which messages pass through untouched, and the language pair of
  the request.
- `Menu` (`menu.dfy`) is the "Translate to..." menu for contact list nodes
  and conversations.
- `Translate` (`plugin.dfy`) is the plugin as a class, `Plugin`. Its state is:
  - the per-node language store;
  - the requests in flight;
  - logs of every conversation write, send and "sent-im-msg" signal.

  Its methods model:
  - the two message hooks;
  - `google_translate`;
  - the completion of a request, which dispatches to the receiving or the
    sending callback;
  - the two menu actions.

The client (libpurple) appears only through its answers, which are inputs:
- `Host.Lookups` holds the buddy, chat and conversation lookups.
- `Host.Prefs` holds the two preferences.
- `Plugin` has three function fields for `purple_url_encode`,
  `purple_markup_strip_html` and `purple_strdup_withhtml`.
- The result of `serv_send_im` is a parameter of `Plugin.Complete`.

Behaviour the model keeps exactly as the code has it:
- A completed incoming message shows only the translation. If the reply has
  no translation, `purple_strdup_withhtml(NULL)` is written and there is no
  fallback to the original. `Write.message` is `None` in that case.
- A detected language overwrites the buddy's stored language
  unconditionally, even one the user chose.
- The stored value "none" lets incoming messages through, but outgoing ones
  are still held back (`Policy.NoneDoesNotStopOutbound`).
- A configured service other than "google" still holds the message back,
  but sends no request. The message is then lost.

## Model

| member | source | states |
|---|---|---|
| Languages.CatalogCodesPlain | trunk/purple-translate.c:456-514 | the catalog has 59 entries and every code is 2 to 5 characters with no '%', '&' or '"' |
| Languages.CatalogDistinct | trunk/purple-translate.c:456-514 | no two catalog entries share a code |
| Languages.LookupName | trunk/purple-translate.c:136-144 | None exactly when no entry has the code; otherwise the name of the first entry with that code |
| Languages.LookupExact | trunk/purple-translate.c:136-145 | in a list with distinct codes, looking up a code gives a name exactly when that (code, name) pair is in the list |
| Languages.CatalogLookup | trunk/purple-translate.c:136-145 | a catalog code finds a name exactly when that pair is in the catalog |
| Languages.FindLanguageName | trunk/purple-translate.c:136-144 | the search loop returns what LookupName specifies |
| Languages.DefaultLocale | trunk/purple-translate.c:440-444 | the locale is two characters long: the first two-character system language name, or "en" when there is none |
| Text.FindKey | trunk/purple-translate.c:54 | g_strstr_len: the first occurrence at or after a position that ends within the limit, or None when there is none |
| Text.FindChar | trunk/purple-translate.c:58 | strchr: the first index of the character at or after a position, or None when there is none |
| Response.Window | trunk/purple-translate.c:54 | the searched prefix is min(len, length of the string) |
| Response.ExtractField | trunk/purple-translate.c:54-66 | Missing exactly when the key does not occur within the window; Found is a quote-free value that follows the first occurrence and ends at a quote; Unterminated means the key occurs but no quote follows |
| Response.ParseReply | trunk/purple-translate.c:43-68 | a failed fetch gives two NULL fields; an error exactly when a key has no closing quote; otherwise each field is the value ExtractField extracts for its key, present exactly when its key occurs within the window, and free of quotes |
| Response.ExtractAt | trunk/purple-translate.c:54-66 | converse of ExtractField: a quote-free value and a quote after the first occurrence are exactly what is extracted |
| Response.SampleTranslated | trunk/purple-translate.c:54-59 | the translation field of a two-field reply is found |
| Response.SampleDetected | trunk/purple-translate.c:61-66 | the detected-language field of a two-field reply is found, although the translation may itself contain text that looks like the key |
| Response.SampleReplyFields | trunk/purple-translate.c:43-68 | any reply {"translatedText":"v","detectedSourceLanguage":"d"} with quote-free v and d parses to (v, d) |
| Request.SourceParameter | trunk/purple-translate.c:85-86 | the source language is sent as "" exactly when it is NULL, "auto" or empty; otherwise it is sent unchanged |
| Request.ParseUrl | trunk/purple-translate.c:88-89 | whatever it reads back out of a URL rebuilds that URL, with no '%' in the source and no '&' in the target |
| Request.TranslateUrl | trunk/purple-translate.c:88-89 | definition: the URL the format string builds from the source, the target and the encoded phrase |
| Request.UrlRoundTrip | trunk/purple-translate.c:88-89 | when the source has no '%' and the target no '&', the language pair and the encoded phrase can be read back from the URL |
| Request.MakeRequest | trunk/purple-translate.c:83-94 | the record keeps the plain phrase, the target language and the source as it is sent |
| Request.RequestUrlCarriesPair | trunk/purple-translate.c:83-89 | when the source has no '%' and the target no '&', the URL of a request carries exactly its source parameter, its target and the encoded phrase |
| Policy.InboundLanguage | trunk/purple-translate.c:164-176 | definition: the buddy's stored language, or "auto"; its consequences are stated by UnsetBuddy, ChosenLanguageGoverns and AutoRestoresDetection |
| Policy.InboundPassesThrough | trunk/purple-translate.c:177 | definition: the condition under which an incoming message goes through untouched |
| Policy.OutboundPassesThrough | trunk/purple-translate.c:247 | definition: the condition under which an outgoing message goes through untouched |
| Policy.IssuesRequest | trunk/purple-translate.c:191 | definition: only the "google" service sends a request (the same test stands at :261) |
| Policy.OwnLanguageIsLeftAlone | trunk/purple-translate.c:177-247 | messages to and from a buddy stored with the user's own language pass through in both directions (the tests at :177 and :247) |
| Policy.NoneStopsInbound | trunk/purple-translate.c:177 | incoming messages from a buddy stored as "none" pass through |
| Policy.NoneDoesNotStopOutbound | trunk/purple-translate.c:247 | outgoing messages to a buddy stored as "none" are held back whenever a service is set and the locale is not "none" |
| Policy.UnsetBuddy | trunk/purple-translate.c:173-247 | incoming messages from a buddy with no stored language are held back exactly when a service is set and the locale is not "auto" (:173-177); outgoing ones always pass through (:247); a request is made only with "google" (Policy.IssuesRequest) |
| Policy.BothHooksActOnStoredLanguage | trunk/purple-translate.c:241-251 | where both hooks hold messages back, the inbound source is the stored language, and it is not the locale, "auto" or "none" |
| Host.StoredValue | trunk/purple-translate.c:174 | definition: purple_blist_node_get_string of the node's "eionrobb-translate-lang", NULL for a NULL node or a node without the value (also at :245) |
| Menu.ExtendedMenu | trunk/purple-translate.c:318-349 | a NULL node changes nothing; otherwise exactly one "Translate to..." action is appended, and its submenu is "Auto", a separator, then every catalog language in order |
| Menu.ConversationNode | trunk/purple-translate.c:386-389 | definition: the buddy of an IM, the chat of a chat, none otherwise; its use is stated by ConvExtendedMenu and ActionConv |
| Menu.ConvExtendedMenu | trunk/purple-translate.c:382-393 | a conversation with a node gets the same menu with the conversation callback; one without gets nothing |
| Translate.AssignedNotice | trunk/purple-translate.c:311 | definition: "Now translating to <name>" and a newline, the notice of a menu choice (the same format at :374) |
| Translate.DetectedNotice | trunk/purple-translate.c:147 | definition: "Now translating to <name> (auto-detected)" and a newline |
| Translate.NodeConversation | trunk/purple-translate.c:286-307 | definition: the open conversation of a chat, a buddy, or a contact's priority buddy, and none for other nodes |
| Translate.StoreAfterDetection | trunk/purple-translate.c:123-128 | a detected language becomes the buddy's stored value; without one, or without the buddy, the store is unchanged; other nodes never change |
| Translate.StoreAfterAssignment | trunk/purple-translate.c:281-284 | the chosen code is stored on the node, "Auto" removes the value, and other nodes never change |
| Translate.LastAssignmentWins | trunk/purple-translate.c:281-284 | of two menu choices for a node, the later one decides the store |
| Translate.ChosenLanguageGoverns | trunk/purple-translate.c:281-284 | after choosing a language, it is the inbound source; incoming messages are held back exactly when a service is set and it is neither "none" nor the locale, outgoing ones exactly when a service is set and it is neither the locale nor "auto"; a request is made only with "google" (Policy.IssuesRequest) |
| Translate.AutoRestoresDetection | trunk/purple-translate.c:281-282 | after "Auto", the inbound source is "auto" (detection by the service) and outgoing messages pass through |
| Translate.DetectionSetsOutbound | trunk/purple-translate.c:127 | after a detection, outgoing messages are held back exactly when a service is set and the detected language is neither the locale nor "auto"; a request into it is made only with "google" (Policy.IssuesRequest) |
| Translate.CatalogRequestCarriesPair | trunk/purple-translate.c:83-89 | a request between two catalog languages always carries exactly that pair and the encoded phrase |
| Translate.Plugin.Render | trunk/purple-translate.c:130 | definition: purple_strdup_withhtml of a phrase that may be NULL (also at :213 and :217) |
| Translate.Plugin.ReceivedWrites | trunk/purple-translate.c:130-150 | definition: the writes of the receiving callback; ReceivedWritesNotice states what they are |
| Translate.ReceivedWritesNotice | trunk/purple-translate.c:130-150 | the translation is written first, and the notice follows exactly when the detected code is in the catalog, naming that catalog language |
| Translate.Plugin.GoogleTranslate | trunk/purple-translate.c:77-102 | one new pending record with a fresh number, holding the request and the callback context |
| Translate.Plugin.ReceivingImMsg | trunk/purple-translate.c:159-204 | cancelled exactly when the inbound decision holds the message back; a request from the stored language into the locale only for "google"; sender and message cleared when cancelled |
| Translate.Plugin.SendingImMsg | trunk/purple-translate.c:232-270 | the message is cleared exactly when the outbound decision holds it back; a request from the locale into the stored language, towards the buddy's IM, only for "google" |
| Translate.Plugin.ReceivingMessageDone | trunk/purple-translate.c:112-156 | the store after detection, and the writes of ReceivedWrites appended to the log |
| Translate.Plugin.SendingMessageDone | trunk/purple-translate.c:207-229 | the translation is sent; the original is shown only when the send succeeded; the original is always signalled as sent |
| Translate.Plugin.Complete | trunk/purple-translate.c:43-74 | the parsed reply goes to the callback of its request with that request's phrase and context, and the pending record is released |
| Translate.Plugin.ActionBlist | trunk/purple-translate.c:273-315 | the store after assignment, and a notice in the node's open conversation only when a language was chosen |
| Translate.Plugin.ActionConv | trunk/purple-translate.c:358-379 | nothing without a node; otherwise the node's assignment and notice, then a notice in this conversation when a language was chosen |

## Left out

- HTTP: `purple_util_fetch_url_request`, the network, time-outs and the
  order in which replies arrive. A reply is a call of `Plugin.Complete` with
  the fetched text, or None for a failed fetch.
- `purple_url_encode`, `purple_markup_strip_html` and
  `purple_strdup_withhtml` are host functions. The model takes them as
  parameters and does not define them.
- What the client shows for a NULL conversation or a NULL message body is
  the client's behaviour. The log records the arguments as passed.
- The NULL buddy at completion (:125-127) is a no-op. libpurple's node
  setter ignores NULL nodes, so the store does not change.
- Translate.Plugin.Complete: requires that both fields of the reply are
  terminated. A key with no closing quote is undefined behaviour in C
  (strchr returns NULL). `Response.ParseReply` reports it as an error
  instead.
- Translate.Plugin: the conversation, account and buddy pointers kept across
  the asynchronous gap are modelled as identifiers. Use after free of a
  closed conversation is not modelled.
- Memory management: the copies, frees, and the leak of the context when
  the service is not "google".
- `plugin_config_frame` (:395-429) is a preferences UI built from the
  catalog. It makes no decisions.
- `plugin_load` and `plugin_unload` (:517-551) connect and disconnect
  signals. The hooks are modelled as the methods they call. The
  conversation menu hook is connected on the conversations handle, and the
  model does not decide whether that handle ever emits it.
- `translate_blist_extended_menu` (:351-355) is `Menu.ExtendedMenu` called
  with the contact list callback.
- The preference defaults of `init_plugin` (:446-448): "google" and the
  locale `Languages.DefaultLocale` chooses. `Host.Prefs` carries whatever
  values are set.
- Text is modelled as characters, while C counts bytes (`len` at :54,
  `strlen(language) == 2` at :441). The results differ only where `len`
  cuts a multi-byte reply short, or where a locale name is not ASCII.
- Request.RequestUrlCarriesPair: holds only when the source has no '%' and
  the target no '&'. Catalog codes meet this (`Translate.CatalogRequestCarriesPair`),
  but a detected code is any quote-free text of the reply (:65). It is
  stored (:127) and later used as an outbound target (:245, :263), where it
  may break the URL.
- Debug logging and `time(NULL)` have no effect on the state.
- The reads of the stored language at :126 and :329 are never used after
  being read.
- A NULL locale preference would crash `g_str_equal`. `Host.Prefs.locale`
  is always a string.
- `len` is a `gsize` given to a `gssize` parameter. A value past the signed
  range means "search the whole string". That is what `Response.Window`
  gives for any length at least the string's own.
- Menu.ExtendedMenu: the callback argument is one of the plugin's two
  action callbacks (`Menu.MenuCallback`), not an arbitrary function
  pointer.
