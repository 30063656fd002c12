# Sx06 Luxe chatbot engine and page helpers, modelled in Dafny

This project models the conversation engine of the Sx06 Luxe site's chatbot
(`js/chatbot.js`, class `Sx06Chatbot`) and two small decisions of the page
script (`js/main.js`: `validateEmail` and `Navigation.handleScroll`).

- **Intent matching** (`Intents.Match`, `Sx06Chatbot.MatchIntent`): the message
  is lower-cased; intents are visited in catalog order and their patterns in
  declared order. The first intent with a pattern that occurs as a substring
  wins. When none matches, the answer is `"fallback"`. The catalog is a
  sequence of (name, intent) pairs, because a JavaScript object's string keys
  iterate in insertion order.
- **Response selection** (`Intents.GenerateResponse`): an unknown name falls
  back to the `fallback` intent. An array of responses is indexed by
  `floor(r * length)` for an injected random `r` in [0, 1). A non-array value
  is used verbatim. Quick replies default to `[]`. The action passes through.
  When neither the name nor `fallback` is in the catalog, the source throws a
  TypeError; the model returns `None`.
- **The built-in catalog** (`BuiltInIntents.BuiltIn`): the thirteen intents of
  `getFallbackIntents`, in declaration order, with lemmas about what that
  order decides ("shipping" is a greeting; "email" goes to `contact`, never to
  `email_capture`).
- **Bounded history** (`History`, `Sx06Chatbot.AddMessage`): push, then one
  `shift` when the length exceeds `maxHistoryLength`.
- **Input gate and typing flag** (`Sx06Chatbot.SendMessage`,
  `BeginProcessing`, `FinishProcessing`, `ClickQuickReply`). The awaited delay
  of `processMessage` splits it into two steps. The first raises `isTyping`
  and queues the message. The second runs when the timer fires: it matches,
  appends the reply, replaces the quick replies and lowers `isTyping`.
  Quick-reply clicks skip both checks of `sendMessage`. `Scenarios` shows the
  consequence: a typed message can be accepted while an earlier reply is
  still pending.
- **Session and export** (`Chatbot.GetOrCreateSession`,
  `Sx06Chatbot.ExportConversation`, `ClearHistory`).
- **Page helpers** (`Site`): the e-mail regular expression
  `^[^\s@]+@[^\s@]+\.[^\s@]+$` as an explicit predicate over the string, and
  the navigation bar's `scrolled` flag and `lastScrollTop`.

Time stamps, the random draw, the session-id suffix, the presence of page
elements and the text in the input box are parameters. Storage is the
`sessionStore` field (the session id) and is otherwise left out.

Behaviour of the code that the model keeps:

- Quick-reply buttons do not go through the re-entrancy guard.
- A loaded catalog need not contain `fallback`, and then a reply fails.
- The history is trimmed by at most one entry per append, so a history that is
  already longer than the bound stays longer.
- A configured maximum of 0 or less keeps no history at all. The `...config`
  spread puts any given value back over the `|| 50` default.

## Model

| member | source | states |
|---|---|---|
| `Text.TrimEmptyIffBlank` | js/chatbot.js:314-316 | the trimmed input is empty exactly when every character is ECMAScript whitespace, which is when `sendMessage` drops it |
| `Intents.FirstTriggered` | js/chatbot.js:403-411 | the loop stops at the first entry (in catalog order) that has a `patterns` list with a pattern occurring in the lower-cased message; no earlier entry has one; it runs to the end only when no entry has one |
| `Intents.Match` | js/chatbot.js:399-414 | `matchIntent` returns the name of the first triggering entry; the default return `"fallback"` is taken exactly when no entry triggers |
| `Intents.MatchFirstTriggered` | js/chatbot.js:403-408 | whenever entry k triggers and no earlier one does, the answer is entry k's name (first match wins) |
| `Intents.MatchNoneTriggered` | js/chatbot.js:413 | when no pattern of any intent occurs, the answer is `"fallback"` |
| `Intents.NoPatternsNeverTriggers` | js/chatbot.js:404-405 | an intent without `patterns`, or with an empty list like the fallback intent, is never the loop's answer |
| `Intents.FirstTriggeredAtMost` | js/chatbot.js:403-408 | the loop stops at or before any entry that triggers |
| `Intents.MatchWithinPrefix` | js/chatbot.js:403-408 | once entry j triggers, the answer is the name of entry j or of an earlier entry |
| `Intents.Lookup` | js/chatbot.js:420 | `intents[name]` is found exactly when some entry has that name, and it is that entry's intent |
| `Intents.PickIndex` | js/chatbot.js:424 | `Math.floor(r * n)` lies in range for every `r` in [0, 1) when n > 0, and is 0 when n = 0 |
| `Intents.SelectText` | js/chatbot.js:423-425 | a non-empty response array yields one of its entries; a non-array value is returned verbatim; an empty array or a missing value yields `undefined` |
| `Intents.PickIndexInterval` | js/chatbot.js:424 | `Math.floor(r * n)` is i exactly when `r * n` lies in [i, i + 1) |
| `Intents.PickShare` | js/chatbot.js:424 | index i is drawn exactly for `r` in [i/n, (i+1)/n), an interval of length 1/n for every i: the choice is uniform |
| `Intents.EveryVariantReachable` | js/chatbot.js:424 | every entry of a response array is selected by some random value in [0, 1), and by every value of its own share [i/n, (i+1)/n) |
| `Intents.GenerateResponse` | js/chatbot.js:419-432 | it fails exactly when neither the name nor `fallback` is in the catalog; otherwise text, quick replies and action all come from one entry named either `name` or `fallback`: the text is what that entry's `responses` give for the draw, and quick replies default to `[]` |
| `Intents.UnknownNameUsesFallback` | js/chatbot.js:420 | an unknown intent name gets exactly the response of `fallback` |
| `Intents.ResponseFromNamedIntent` | js/chatbot.js:420-431 | a known intent answers from its own entry: the text its own `responses` give (an array entry, a single value verbatim, or `undefined`), its own quick replies (or `[]`) and its own action |
| `Intents.LookupEntry` | js/chatbot.js:420 | with distinct names, as an object's keys are, looking up an entry's name yields that entry |
| `Intents.MatchedIntentAnswers` | js/chatbot.js:371-372 | the intent `matchIntent` picks is answered from that intent's own responses, quick replies and action |
| `BuiltInIntents.BuiltIn` | js/chatbot.js:143-253 | the thirteen intents of `getFallbackIntents`, in declaration order, with their patterns, responses, quick replies and action |
| `BuiltInIntents.BuiltInNames` | js/chatbot.js:143-253 | the built-in catalog has exactly the thirteen names greeting, shop, story, shipping, contact, sizing, returns, sustainability, price, payment, gallery, fallback and email_capture, in that order, all distinct |
| `BuiltInIntents.BuiltInAlwaysResponds` | js/chatbot.js:234-242 | the built-in catalog has a fallback entry, so a response is produced for every name |
| `BuiltInIntents.HiIsGreeting` | js/chatbot.js:145-146 | any message containing "hi" in any letter case resolves to `greeting`, declared first |
| `BuiltInIntents.ShippingIsGreeting` | js/chatbot.js:145-171 | "shipping" resolves to `greeting`, not `shipping`, because it contains "hi" |
| `BuiltInIntents.EmailIsContact` | js/chatbot.js:178-251 | "email" resolves to `contact`, declared before `email_capture` |
| `BuiltInIntents.EmailNeverCaptures` | js/chatbot.js:178-251 | a message containing "email" is answered by one of the first five intents, never by `email_capture` |
| `BuiltInIntents.UnmatchedIsFallback` | js/chatbot.js:399-413 | "xyz123" contains no pattern and resolves to `"fallback"` |
| `BuiltInIntents.FallbackOnlyByDefault` | js/chatbot.js:234-235 | with the built-in catalog the answer is `"fallback"` exactly when no intent triggers: the fallback entry is reached only through the default return |
| `History.Appended` | js/chatbot.js:344-354 | one append keeps every entry but at most the oldest, adds the new message last, and grows the history exactly when the new length is within the maximum |
| `History.AppendKeepsBound` | js/chatbot.js:352-354 | a history within its bound stays within it after an append |
| `History.AppendToFullEvictsOldest` | js/chatbot.js:352-354 | appending to a full history drops exactly the oldest entry and keeps the rest in order |
| `History.ReplayKeepsLatest` | js/chatbot.js:344-354 | after any sequence of appends to an empty history, it holds exactly the latest messages that fit, oldest first (all of them when they fit) |
| `Chatbot.GetOrCreateSession` | js/chatbot.js:513-521 | a stored non-empty id is reused and the store is left alone; otherwise a new `session_…` id is created and stored |
| `Chatbot.SessionIdStable` | js/chatbot.js:513-521 | asking again in the same session returns the same id and leaves the store unchanged |
| `Chatbot.Sx06Chatbot.constructor` | js/chatbot.js:8-26 | for a catalog with distinct names: empty history, typing flag down, the configured or default (50) history bound, the session id from `getOrCreateSession` |
| `Chatbot.Sx06Chatbot.AddMessage` | js/chatbot.js:333-356 | with a messages container and without `skipHistory`, the history becomes the bounded append of `{text, isUser, timestamp}`; otherwise it is unchanged |
| `Chatbot.Sx06Chatbot.SendMessage` | js/chatbot.js:313-328 | accepted exactly when an input exists, its text is not blank and no reply is being typed; if rejected, nothing changes; if accepted, the trimmed text is recorded when the messages container exists, the input cleared, the typing flag raised and the text queued |
| `Chatbot.Sx06Chatbot.BeginProcessing` | js/chatbot.js:361-362 | the typing flag is raised before the delay and the message waits for its timer |
| `Chatbot.Sx06Chatbot.ClickQuickReply` | js/chatbot.js:446-449 | a quick reply is recorded (when the messages container exists) and queued, with no blank or typing check |
| `Chatbot.Sx06Chatbot.MatchIntent` | js/chatbot.js:399-414 | the nested loop with early return computes exactly `Intents.Match` |
| `Chatbot.Sx06Chatbot.FinishProcessing` | js/chatbot.js:368-385 | the oldest queued message is matched and leaves the queue; then either the reply is recorded (when the messages container exists), the quick replies are replaced (when their container exists) and the typing flag is lowered, or, when no response can be built, nothing is recorded and the typing flag is left as it was |
| `Chatbot.Sx06Chatbot.ClearHistory` | js/chatbot.js:527-528 | the history is empty afterwards |
| `Chatbot.Sx06Chatbot.ExportConversation` | js/chatbot.js:539-545 | the export carries the current session id and the history exactly as it is |
| `Scenarios.TypingGuardScenario` | js/chatbot.js:313-449 | for any typed texts: blank input and input sent while typing are dropped, a quick-reply click while typing is not, and a later typed message can then be accepted while a reply is still pending |
| `Site.ValidateEmail` | js/main.js:87-90 | the pattern accepts exactly the strings that split as a `[^\s@]+` run, '@', a `[^\s@]+` run, '.', and a `[^\s@]+` run; an accepted address has at least five characters and starts and ends with a `[^\s@]` character |
| `Site.WhitespaceRejected` | js/main.js:87-90 | a whitespace character anywhere makes `validateEmail` false |
| `Site.ValidHasOneAt` | js/main.js:88 | a valid address contains exactly one '@' |
| `Site.EmptyLocalPartRejected` | js/main.js:88 | an address with nothing before its '@' is invalid |
| `Site.ValidIffInnerDot` | js/main.js:88 | with one '@', something before it and no whitespace, the address is valid exactly when the domain has a '.' with a character on each side |
| `Site.EmailExamples` | js/main.js:88 | "a@b.c.d", "a@.b.c" and "a@b.c." are valid; "a@b.", "@b.c" and "a b@c.d" are not |
| `Site.Navigation.constructor` | js/main.js:113-117 | `lastScrollTop` starts at 0 and the bar keeps its initial class |
| `Site.Navigation.HandleScroll` | js/main.js:131-141 | the bar has `scrolled` exactly when the position is above 100 (exactly 100 is not), and `lastScrollTop` is the position; the position is `pageYOffset` unless that is 0 |

## Left out

- Loading the intents document (`loadIntents`, `fetch`): the catalog is a constructor argument; the built-in one is modelled as data.
- `init`'s ordering and its catch path, and calls made before `init` finishes (when `intents` is still `null`): the model starts from an initialised chatbot.
- DOM work: `setupDOM`, event listeners, `toggleChat`/`openChat`/`closeChat`, the typing indicator, and HTML building in `addMessage` and `updateQuickReplies`. Only whether the messages and quick-reply containers exist, and the labels of the buttons on screen, are kept.
- Persistence: `saveHistory`, `loadHistory` and `localStorage`, because they are browser storage wrapped in try/catch. The session store is an optional value.
- Time and randomness: `Date`/`toISOString` become timestamp parameters, `Math.random` becomes the parameter `r`, and the `Date.now()` and base-36 parts of the session id become one `stamp` string.
- The awaited `delay` and `setTimeout`: modelled as two steps, with timers firing in the order they were set (equal delays).
- Analytics (`window.logger`, `gtag`) and console logging: foreign calls with no effect on the engine's state.
- `js/gallery.js`, `debounce`, `throttle`, `getTimestamp`, `formatDate`, `smoothScrollTo`, `Newsletter`, `ScrollReveal`, `LazyLoader`, `Performance` and `setupMobileMenu`: browser glue, timers and observers.
- `Text.ToLower`: maps only ASCII letters; JavaScript's full Unicode case mapping is not modelled.
- Strings are sequences of Unicode characters, not UTF-16 code units.
- Catalogs whose JSON has unexpected shapes are not modelled: a `patterns` string instead of an array, a `null` intent, names that are array indices (iterated first), or names inherited from `Object.prototype`.
- `Chatbot.Sx06Chatbot.ExportConversation`: returns a copy of the history, while the source returns the live array, which later appends would change.
- `Site.Navigation.HandleScroll`: NaN scroll offsets are not modelled.
- JavaScript numbers are IEEE doubles, but the random draw and the scroll offsets are modelled as exact reals. At a share boundary the rounded product `r * n` can pick the neighbouring entry; the range and reachability results hold either way.
