/** The intent catalog of the chatbot and the two pure decisions taken on it:
    which intent a message triggers, and which response an intent yields. */
module Intents {
  import opened Wrappers
  import opened Text

  /** The `responses` property of an intent: an array (one entry is picked
      at random), any other present value (used verbatim), or absent. */
  datatype Responses = Many(texts: seq<string>) | One(text: string) | Absent

  /** One intent of the catalog; `None` marks a property the intent lacks. */
  datatype Intent = Intent(
    patterns: Option<seq<string>>,
    responses: Responses,
    quickReplies: Option<seq<string>>,
    action: Option<string>)

  /** The intents object as its entries in iteration order: string keys
      are visited in the order they were inserted. */
  type Catalog = seq<(string, Intent)>

  /** What the response selector hands back; `text == None` is `undefined`. */
  datatype Response = Response(text: Option<string>, quickReplies: seq<string>, action: Option<string>)

  /** The name returned when nothing matches, and the key looked up when an
      intent name is unknown. */
  const FallbackName: string := "fallback"

  /** Some pattern, lower-cased, occurs in the lower-cased message. */
  predicate PatternHits(patterns: seq<string>, lower: string) {
    exists k | 0 <= k < |patterns| :: Includes(lower, ToLower(patterns[k]))
  }

  /** The intent is picked up by the matcher: it has a `patterns` list and
      one of its patterns occurs in the message. */
  predicate Triggers(intent: Intent, lower: string) {
    intent.patterns.Some? && PatternHits(intent.patterns.value, lower)
  }

  /** Entry `k` triggers and no earlier entry does. */
  predicate FirstTriggeredAt(c: Catalog, lower: string, k: int) {
    0 <= k < |c| && Triggers(c[k].1, lower) &&
    forall j :: 0 <= j < k ==> !Triggers(c[j].1, lower)
  }

  predicate NoneTriggers(c: Catalog, lower: string) {
    forall j :: 0 <= j < |c| ==> !Triggers(c[j].1, lower)
  }

  /** Index of the first entry that triggers, or `|c|` when none does. */
  function FirstTriggered(c: Catalog, lower: string): (k: nat)
    ensures k <= |c|
    ensures k < |c| ==> FirstTriggeredAt(c, lower, k)
    ensures k == |c| ==> NoneTriggers(c, lower)
    decreases |c|
  {
    if c == [] then 0
    else if Triggers(c[0].1, lower) then 0
    else
      var k := FirstTriggered(c[1..], lower);
      assert forall j :: 1 <= j < |c| ==> c[j] == c[1..][j - 1];
      1 + k
  }

  /** `matchIntent`: the name of the first intent, in catalog order, one of
      whose patterns occurs in the message ignoring case; `"fallback"` when
      none does. */
  function Match(c: Catalog, message: string): (name: string)
    ensures (exists k :: FirstTriggeredAt(c, ToLower(message), k) && name == c[k].0)
         || (NoneTriggers(c, ToLower(message)) && name == FallbackName)
  {
    var k := FirstTriggered(c, ToLower(message));
    if k < |c| then c[k].0 else FallbackName
  }

  /** The matcher's result is determined by the first triggering entry. */
  lemma MatchFirstTriggered(c: Catalog, message: string, k: int)
    requires FirstTriggeredAt(c, ToLower(message), k)
    ensures Match(c, message) == c[k].0
  {
  }

  /** The matcher stops at or before any entry that triggers. */
  lemma FirstTriggeredAtMost(c: Catalog, lower: string, j: nat)
    requires j < |c| && Triggers(c[j].1, lower)
    ensures FirstTriggered(c, lower) <= j
  {
  }

  /** Once entry `j` triggers, the matcher answers with the name of entry
      `j` or of an earlier one. */
  lemma MatchWithinPrefix(c: Catalog, message: string, j: nat)
    requires j < |c| && Triggers(c[j].1, ToLower(message))
    ensures exists k :: 0 <= k <= j && Match(c, message) == c[k].0
  {
    FirstTriggeredAtMost(c, ToLower(message), j);
    var k := FirstTriggered(c, ToLower(message));
    assert Match(c, message) == c[k].0;
  }

  /** When no entry triggers, the matcher answers `"fallback"`. */
  lemma MatchNoneTriggered(c: Catalog, message: string)
    requires NoneTriggers(c, ToLower(message))
    ensures Match(c, message) == FallbackName
  {
  }

  /** An intent without a pattern list, or with an empty one (such as the
      fallback intent), is never the one the matcher's loop stops at. */
  lemma NoPatternsNeverTriggers(intent: Intent, lower: string)
    requires intent.patterns == None || intent.patterns == Some([])
    ensures !Triggers(intent, lower)
  {
  }

  /** `this.intents[name]`: the entry stored under `name`. */
  function Lookup(c: Catalog, name: string): (r: Option<Intent>)
    ensures r.None? <==> forall i :: 0 <= i < |c| ==> c[i].0 != name
    ensures r.Some? ==> exists i :: 0 <= i < |c| && c[i] == (name, r.value)
    decreases |c|
  {
    if c == [] then None
    else if c[0].0 == name then Some(c[0].1)
    else
      var r := Lookup(c[1..], name);
      assert forall i :: 1 <= i < |c| ==> c[i] == c[1..][i - 1];
      r
  }

  /** `Math.floor(r * n)` for a random `r` in [0, 1). */
  function PickIndex(r: real, n: nat): (i: nat)
    requires 0.0 <= r < 1.0
    ensures n > 0 ==> i < n
    ensures n == 0 ==> i == 0
  {
    var x := r * n as real;
    ScaleBelow(r, n as real);
    x.Floor
  }

  /** Scaling a value of [0, 1) by a non-negative `m` stays in [0, m), or is 0. */
  lemma ScaleBelow(r: real, m: real)
    requires 0.0 <= r < 1.0 && 0.0 <= m
    ensures 0.0 <= r * m && (m > 0.0 ==> r * m < m)
  {
    if m > 0.0 {
      assert (1.0 - r) * m > 0.0;
    }
  }

  /** The response text for one random draw `r`: an array entry chosen by
      `r`, a non-array value verbatim, `None` (`undefined`) when absent or
      when the array is empty. */
  function SelectText(responses: Responses, r: real): (text: Option<string>)
    requires 0.0 <= r < 1.0
    ensures responses.Many? && responses.texts != [] ==>
              text.Some? && text.value in responses.texts
    ensures responses.One? ==> text == Some(responses.text)
    ensures responses.Absent? || responses == Many([]) ==> text == None
  {
    match responses
    case Many(texts) =>
      var i := PickIndex(r, |texts|);
      if i < |texts| then Some(texts[i]) else None
    case One(t) => Some(t)
    case Absent => None
  }

  /** Every entry of a response array is drawn for some random value, and
      in particular for every value of its own share [i/n, (i+1)/n) of
      [0, 1): the selector can produce each variant, with equal chance. */
  lemma EveryVariantReachable(texts: seq<string>, i: nat)
    requires i < |texts|
    ensures exists r: real :: 0.0 <= r < 1.0 && SelectText(Many(texts), r) == Some(texts[i])
    ensures forall r: real :: 0.0 <= r < 1.0 && i as real / |texts| as real <= r < (i + 1) as real / |texts| as real ==>
      SelectText(Many(texts), r) == Some(texts[i])
  {
    var n := |texts| as real;
    var r := i as real / n;
    assert r * n == i as real;
    assert r < 1.0;
    assert PickIndex(r, |texts|) == i;
    assert SelectText(Many(texts), r) == Some(texts[i]);
    forall r: real | 0.0 <= r < 1.0 && i as real / n <= r < (i + 1) as real / n
      ensures SelectText(Many(texts), r) == Some(texts[i])
    {
      PickShare(r, |texts|, i);
    }
  }

  /** `Math.floor(r * n)` is `i` exactly when `r * n` lies in [i, i + 1). */
  lemma PickIndexInterval(r: real, n: nat, i: nat)
    requires 0.0 <= r < 1.0 && i < n
    ensures PickIndex(r, n) == i <==> i as real <= r * n as real < (i + 1) as real
  {
  }

  /** The draw is uniform: entry `i` of an `n`-entry response array is the
      one picked exactly when `r` falls in [i/n, (i+1)/n), an interval of
      length 1/n, the same for every entry. */
  lemma PickShare(r: real, n: nat, i: nat)
    requires 0.0 <= r < 1.0 && i < n
    ensures PickIndex(r, n) == i <==>
      i as real / n as real <= r < (i + 1) as real / n as real
    ensures (i + 1) as real / n as real - i as real / n as real == 1.0 / n as real
  {
    var m := n as real;
    PickIndexInterval(r, n, i);
    assert i as real / m <= r <==> i as real <= r * m by {
      assert (i as real / m) * m == i as real;
    }
    assert r < (i + 1) as real / m <==> r * m < (i + 1) as real by {
      assert ((i + 1) as real / m) * m == (i + 1) as real;
    }
  }

  /** The intent `generateResponse` answers from: the named one, or the
      fallback entry when the name is unknown. */
  function Resolve(c: Catalog, name: string): (intent: Option<Intent>)
  {
    match Lookup(c, name)
    case Some(it) => Some(it)
    case None => Lookup(c, FallbackName)
  }

  /** `generateResponse`. `None` stands for the TypeError raised when neither
      the name nor `"fallback"` is in the catalog. */
  function GenerateResponse(c: Catalog, name: string, r: real): (resp: Option<Response>)
    requires 0.0 <= r < 1.0
    ensures resp.None? <==> Lookup(c, name).None? && Lookup(c, FallbackName).None?
    ensures resp.Some? ==>
              exists i :: 0 <= i < |c| && (c[i].0 == name || c[i].0 == FallbackName) &&
                resp.value.text == SelectText(c[i].1.responses, r) &&
                resp.value.quickReplies == c[i].1.quickReplies.GetOr([]) &&
                resp.value.action == c[i].1.action
  {
    match Resolve(c, name)
    case None => None
    case Some(intent) =>
      Some(Response(SelectText(intent.responses, r), intent.quickReplies.GetOr([]), intent.action))
  }

  /** An unknown intent name is answered exactly as `"fallback"` is. */
  lemma UnknownNameUsesFallback(c: Catalog, name: string, r: real)
    requires 0.0 <= r < 1.0
    requires forall i :: 0 <= i < |c| ==> c[i].0 != name
    ensures GenerateResponse(c, name, r) == GenerateResponse(c, FallbackName, r)
  {
  }

  /** A known intent answers from its own entry: the text its own
      `responses` give for the draw (an entry of its array, its single value
      verbatim, or `undefined`), its own quick replies (an empty list when it
      declares none) and its own action. */
  lemma ResponseFromNamedIntent(c: Catalog, name: string, r: real, intent: Intent)
    requires 0.0 <= r < 1.0
    requires Lookup(c, name) == Some(intent)
    ensures var resp := GenerateResponse(c, name, r);
      resp.Some? && resp.value.text == SelectText(intent.responses, r) &&
      resp.value.quickReplies == intent.quickReplies.GetOr([]) &&
      resp.value.action == intent.action
  {
  }

  /** The keys of a JavaScript object are distinct: no two entries of a
      catalog share a name. */
  predicate DistinctNames(c: Catalog) {
    forall i, j :: 0 <= i < j < |c| ==> c[i].0 != c[j].0
  }

  /** With distinct names, `this.intents[name]` of an entry's name is that
      very entry. */
  lemma {:induction false} LookupEntry(c: Catalog, k: nat)
    requires DistinctNames(c)
    requires k < |c|
    ensures Lookup(c, c[k].0) == Some(c[k].1)
    decreases |c|
  {
    if k > 0 {
      assert c[0].0 != c[k].0;
      var rest := c[1..];
      assert DistinctNames(rest) by {
        forall i, j | 0 <= i < j < |rest| ensures rest[i].0 != rest[j].0 {
          assert rest[i] == c[i + 1] && rest[j] == c[j + 1];
        }
      }
      assert rest[k - 1] == c[k];
      LookupEntry(rest, k - 1);
    }
  }

  /** The two halves of a reply fit together: the intent the matcher picks
      for a message is answered from that intent's own entry, not from
      another entry of the same name or from the fallback. */
  lemma MatchedIntentAnswers(c: Catalog, message: string, r: real, k: nat)
    requires 0.0 <= r < 1.0
    requires DistinctNames(c)
    requires FirstTriggeredAt(c, ToLower(message), k)
    ensures var resp := GenerateResponse(c, Match(c, message), r);
      resp == Some(Response(SelectText(c[k].1.responses, r), c[k].1.quickReplies.GetOr([]), c[k].1.action))
  {
    MatchFirstTriggered(c, message, k);
    LookupEntry(c, k);
  }
}
