/** A conversation run step by step, showing what the typing flag does and
    does not keep out. */
module Scenarios {
  import opened Wrappers
  import opened Text
  import opened Intents
  import opened Chatbot

  /** A one-intent catalog: every message gets the fallback answer, which
      offers one quick reply. */
  const Tiny: Catalog := [(FallbackName, Intent(Some([]), Many(["ok"]), Some(["more"]), None))]

  lemma TinyAnswers(message: string, r: real)
    requires 0.0 <= r < 1.0
    ensures Match(Tiny, message) == FallbackName
    ensures GenerateResponse(Tiny, FallbackName, r) == Some(Response(Some("ok"), ["more"], None))
  {
    NoPatternsNeverTriggers(Tiny[0].1, ToLower(message));
    MatchNoneTriggered(Tiny, message);
    assert PickIndex(r, 1) == 0;
  }

  /** Text the user types that is already trimmed and not blank. */
  predicate Typed(s: string) {
    s != "" && Trim(s) == s
  }

  /** Any text that starts and ends with a non-whitespace character is such
      a typed text, so the scenario below applies to every word a user
      might type ("hi", "shipping", "a b"). */
  lemma EdgesMakeTyped(s: string)
    requires s != [] && !IsWhitespace(s[0]) && !IsWhitespace(s[|s| - 1])
    ensures Typed(s)
  {
    TrimKeepsInner(s);
  }

  /** Whatever is typed: a blank message is dropped, and so is a message
      sent while a reply is being typed; a quick-reply click during that
      wait is not, and once the first reply lowers the flag a typed message
      is accepted while the clicked one is still pending. Returns what each
      `SendMessage` answered and how many replies are pending at the end. */
  method TypingGuardScenario(blank: string, x: string, y: string, z: string, w: string)
    returns (accepted: seq<bool>, inFlight: nat)
    requires IsBlank(blank) && Typed(x) && Typed(y) && Typed(z) && Typed(w)
    ensures accepted == [false, true, false, true, true]
    ensures inFlight == 2
  {
    var bot := new Sx06Chatbot(Tiny, None, None, "1", true, true, Some(blank));
    var a0 := bot.SendMessage("t0");
    var a1, a2 := TypedWhileTyping(bot, x, y);
    var a3, a4 := ClickedWhileTyping(bot, z, w);
    accepted := [a0, a1, a2, a3, a4];
    inFlight := |bot.pending|;
  }

  /** `x` is sent and accepted; `y`, sent before the reply, is dropped; the
      reply then arrives and offers its quick reply. */
  method TypedWhileTyping(bot: Sx06Chatbot, x: string, y: string) returns (first: bool, second: bool)
    requires Typed(x) && Typed(y)
    requires bot.Valid() && bot.intents == Tiny && bot.hasRepliesArea
    requires bot.input.Some? && !bot.isTyping && bot.pending == []
    modifies bot
    ensures bot.Valid() && bot.intents == Tiny && bot.hasRepliesArea
    ensures bot.input.Some? && !bot.isTyping && bot.pending == [] && bot.offeredReplies == ["more"]
    ensures first && !second
  {
    first := SendTyped(bot, x);
    bot.TypeInput(y);
    second := bot.SendMessage("t2");
    TinyAnswers(x, 0.0);
    var intent, ok := bot.FinishProcessing(0.0, "t3");
  }

  /** `z` is sent and accepted; its quick reply is clicked before the reply
      arrives and is let through; when the first reply arrives the flag
      drops although the click is still pending, so `w` is accepted too. */
  method ClickedWhileTyping(bot: Sx06Chatbot, z: string, w: string) returns (first: bool, second: bool)
    requires Typed(z) && Typed(w)
    requires bot.Valid() && bot.intents == Tiny && bot.hasRepliesArea
    requires bot.input.Some? && !bot.isTyping && bot.pending == [] && bot.offeredReplies == ["more"]
    modifies bot
    ensures first && second && |bot.pending| == 2
  {
    first := SendTyped(bot, z);
    bot.ClickQuickReply("more", "t5");
    second := ReplyThenSend(bot, z, w);
  }

  /** The reply to `z` arrives while the click is pending; `w` is then
      accepted. */
  method ReplyThenSend(bot: Sx06Chatbot, z: string, w: string) returns (sent: bool)
    requires Typed(w)
    requires bot.Valid() && bot.intents == Tiny && bot.input.Some?
    requires bot.pending == [z, "more"]
    modifies bot
    ensures sent && |bot.pending| == 2
  {
    TinyAnswers(z, 0.0);
    var intent, ok := bot.FinishProcessing(0.0, "t6");
    assert !bot.isTyping && bot.pending == ["more"];
    sent := SendTyped(bot, w);
  }

  /** Types `s` and sends it while no reply is being typed. */
  method SendTyped(bot: Sx06Chatbot, s: string) returns (sent: bool)
    requires Typed(s)
    requires bot.Valid() && bot.input.Some? && !bot.isTyping
    modifies bot
    ensures bot.Valid() && bot.input.Some? && bot.isTyping
    ensures bot.offeredReplies == old(bot.offeredReplies)
    ensures sent && bot.pending == old(bot.pending) + [s]
  {
    bot.TypeInput(s);
    TrimEmptyIffBlank(s);
    sent := bot.SendMessage("t");
  }
}
