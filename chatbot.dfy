/** The conversation engine: the chatbot object whose fields hold the
    history, the typing flag and the session id, and whose methods are the
    steps a conversation goes through. */
module Chatbot {
  import opened Wrappers
  import opened Text
  import opened Intents
  import opened History

  /** History bound used when the configuration gives none. */
  const DefaultMaxHistoryLength: int := 50

  /** The session-scoped store holds an id: the store's value when it is
      a non-empty string. */
  predicate HasSession(stored: Option<string>) {
    stored.Some? && stored.value != ""
  }

  /** `getOrCreateSession`: the id to use and what the session store holds
      afterwards. A stored id is reused; otherwise `"session_" + stamp` is
      created and stored (`stamp` stands for the time and random parts). */
  function GetOrCreateSession(stored: Option<string>, stamp: string): (r: (string, Option<string>))
    ensures HasSession(stored) ==> r == (stored.value, stored)
    ensures !HasSession(stored) ==> r.1 == Some(r.0) && |r.0| >= 8 && r.0[..8] == "session_"
  {
    if HasSession(stored) then (stored.value, stored)
    else
      var id := "session_" + stamp;
      (id, Some(id))
  }

  /** Once a session exists, asking again yields the same id and leaves the
      store as it is: the id is stable for the whole browsing session. */
  lemma SessionIdStable(stored: Option<string>, stamp: string, later: string)
    ensures var (id, store) := GetOrCreateSession(stored, stamp);
      GetOrCreateSession(store, later) == (id, store)
  {
  }

  /** What `exportConversation` returns. */
  datatype Export = Export(sessionId: string, messages: seq<Message>, timestamp: string)

  class Sx06Chatbot {
    /** The loaded intents; not changed after loading. */
    const intents: Catalog
    /** `config.maxHistoryLength`. */
    const maxHistoryLength: int
    /** Whether the messages container was found in the page. */
    const hasMessagesArea: bool
    /** Whether the quick-replies container was found in the page. */
    const hasRepliesArea: bool

    var conversationHistory: seq<Message>
    var sessionId: string
    /** The session store's value under the session key. */
    var sessionStore: Option<string>
    var isTyping: bool
    /** The chat input's text; `None` when the page has no input element. */
    var input: Option<string>
    /** Messages whose processing is waiting out the typing delay, in the
        order their timers fire. */
    var pending: seq<string>
    /** Labels of the quick-reply buttons on screen. */
    var offeredReplies: seq<string>

    /** The history stays within its bound, and the typing flag is only
        left set with nothing pending when a reply failed for lack of a
        fallback intent. */
    ghost predicate Valid()
      reads this
    {
      |conversationHistory| <= Capacity(maxHistoryLength) &&
      (isTyping && pending == [] ==> Lookup(intents, FallbackName).None?)
    }

    /** The constructor after the intents are loaded and the page elements
        looked up. The catalog's names are distinct, as an object's keys
        are; `intents` never changes, so they stay distinct. `configuredMax` is `config.maxHistoryLength` when given:
        the `...config` spread puts any given value back over the `|| 50`
        default. */
    constructor (catalog: Catalog, configuredMax: Option<int>, storedSession: Option<string>,
                 stamp: string, messagesArea: bool, repliesArea: bool, inputText: Option<string>)
      requires DistinctNames(catalog)
      ensures Valid()
      ensures intents == catalog && maxHistoryLength == configuredMax.GetOr(DefaultMaxHistoryLength)
      ensures (sessionId, sessionStore) == GetOrCreateSession(storedSession, stamp)
      ensures conversationHistory == [] && !isTyping && pending == [] && offeredReplies == []
      ensures hasMessagesArea == messagesArea && hasRepliesArea == repliesArea && input == inputText
    {
      intents := catalog;
      maxHistoryLength := configuredMax.GetOr(DefaultMaxHistoryLength);
      hasMessagesArea := messagesArea;
      hasRepliesArea := repliesArea;
      conversationHistory := [];
      var session := GetOrCreateSession(storedSession, stamp);
      sessionId := session.0;
      sessionStore := session.1;
      isTyping := false;
      input := inputText;
      pending := [];
      offeredReplies := [];
    }

    /** `addMessage`: shows the message and, unless `skipHistory`, records
        it; nothing is recorded when the page has no messages container. */
    method AddMessage(text: Option<string>, isUser: bool, skipHistory: bool, timestamp: string)
      requires Valid()
      modifies this`conversationHistory
      ensures Valid()
      ensures conversationHistory ==
        if !hasMessagesArea || skipHistory then old(conversationHistory)
        else Appended(old(conversationHistory), Message(text, isUser, timestamp), maxHistoryLength)
    {
      if !hasMessagesArea {
        return;
      }
      if !skipHistory {
        AppendKeepsBound(conversationHistory, Message(text, isUser, timestamp), maxHistoryLength);
        conversationHistory := conversationHistory + [Message(text, isUser, timestamp)];
        if |conversationHistory| > maxHistoryLength {
          conversationHistory := conversationHistory[1..];
        }
      }
    }

    /** The user edits the chat input (nothing happens without an input
        element). */
    method TypeInput(text: string)
      modifies this`input
      ensures input == if old(input).Some? then Some(text) else None
    {
      if input.Some? {
        input := Some(text);
      }
    }

    /** `sendMessage`: the trimmed input is recorded, the input cleared and
        processing started, unless there is no input element, the input is
        blank, or a reply is being typed. */
    method SendMessage(timestamp: string) returns (accepted: bool)
      requires Valid()
      modifies this`conversationHistory, this`input, this`isTyping, this`pending
      ensures Valid()
      ensures accepted <==> old(input).Some? && !IsBlank(old(input).value) && !old(isTyping)
      ensures !accepted ==>
        conversationHistory == old(conversationHistory) && input == old(input) &&
        isTyping == old(isTyping) && pending == old(pending)
      ensures accepted ==>
        var message := Trim(old(input).value);
        conversationHistory ==
          (if hasMessagesArea then Appended(old(conversationHistory), Message(Some(message), true, timestamp), maxHistoryLength)
           else old(conversationHistory)) &&
        input == Some("") && isTyping && pending == old(pending) + [message]
    {
      if input.None? {
        return false;
      }
      var message := Trim(input.value);
      TrimEmptyIffBlank(input.value);
      if message == "" || isTyping {
        return false;
      }
      AddMessage(Some(message), true, false, timestamp);
      input := Some("");
      BeginProcessing(message);
      accepted := true;
    }

    /** The part of `processMessage` before its delay: the typing flag is
        raised and the message waits for its timer. */
    method BeginProcessing(message: string)
      requires Valid()
      modifies this`isTyping, this`pending
      ensures Valid()
      ensures isTyping && pending == old(pending) + [message]
    {
      isTyping := true;
      pending := pending + [message];
    }

    /** A click on a quick-reply button: the label is recorded and processed
        at once, without the blank-input and typing checks of `SendMessage`. */
    method ClickQuickReply(reply: string, timestamp: string)
      requires Valid()
      requires reply in offeredReplies
      modifies this`conversationHistory, this`isTyping, this`pending
      ensures Valid()
      ensures conversationHistory ==
        if hasMessagesArea then Appended(old(conversationHistory), Message(Some(reply), true, timestamp), maxHistoryLength)
        else old(conversationHistory)
      ensures isTyping && pending == old(pending) + [reply]
    {
      AddMessage(Some(reply), true, false, timestamp);
      BeginProcessing(reply);
    }

    /** `matchIntent`, as the nested loop with early return it is. */
    method MatchIntent(message: string) returns (name: string)
      ensures name == Match(intents, message)
    {
      var lower := ToLower(message);
      var i := 0;
      while i < |intents|
        invariant 0 <= i <= |intents|
        invariant forall j :: 0 <= j < i ==> !Triggers(intents[j].1, lower)
      {
        var intent := intents[i].1;
        if intent.patterns.Some? {
          var patterns := intent.patterns.value;
          var k := 0;
          while k < |patterns|
            invariant 0 <= k <= |patterns|
            invariant forall q :: 0 <= q < k ==> !Includes(lower, ToLower(patterns[q]))
          {
            if Includes(lower, ToLower(patterns[k])) {
              MatchFirstTriggered(intents, message, i);
              return intents[i].0;
            }
            k := k + 1;
          }
        }
        i := i + 1;
      }
      MatchNoneTriggered(intents, message);
      return FallbackName;
    }

    /** The part of `processMessage` after its delay, for the oldest pending
        message and the random draw `r`: the intent is matched, the reply
        recorded, the quick replies replaced and the typing flag lowered.
        When the catalog cannot answer (`ok` false) the call stops with an
        error before any of that, leaving the typing flag as it was. */
    method FinishProcessing(r: real, timestamp: string) returns (intent: string, ok: bool)
      requires Valid()
      requires pending != []
      requires 0.0 <= r < 1.0
      modifies this`conversationHistory, this`isTyping, this`pending, this`offeredReplies
      ensures Valid()
      ensures intent == Match(intents, old(pending)[0]) && pending == old(pending)[1..]
      ensures var response := GenerateResponse(intents, intent, r);
        ok == response.Some? &&
        (!ok ==> conversationHistory == old(conversationHistory) && isTyping == old(isTyping) &&
                 offeredReplies == old(offeredReplies)) &&
        (ok ==> !isTyping &&
                conversationHistory ==
                  (if hasMessagesArea then Appended(old(conversationHistory), Message(response.value.text, false, timestamp), maxHistoryLength)
                   else old(conversationHistory)) &&
                offeredReplies == (if hasRepliesArea then response.value.quickReplies else old(offeredReplies)))
    {
      var message := pending[0];
      intent := MatchIntent(message);
      var response := GenerateResponse(intents, intent, r);
      if response.None? {
        pending := pending[1..];
        return intent, false;
      }
      AddMessage(response.value.text, false, false, timestamp);
      if hasRepliesArea {
        offeredReplies := response.value.quickReplies;
      }
      isTyping := false;
      pending := pending[1..];
      ok := true;
    }

    /** `clearHistory`. */
    method ClearHistory()
      requires Valid()
      modifies this`conversationHistory
      ensures Valid() && conversationHistory == []
    {
      conversationHistory := [];
    }

    /** `exportConversation`: the session id and the history as they are. */
    method ExportConversation(timestamp: string) returns (e: Export)
      ensures e.sessionId == sessionId && e.messages == conversationHistory
      ensures e.timestamp == timestamp
    {
      e := Export(sessionId, conversationHistory, timestamp);
    }
  }
}
