/** The chatbot's conversation history: a log bounded by a maximum length
    that drops its oldest entry when a new one would overflow it. */
module History {
  import opened Wrappers

  /** One entry of the history; `text == None` is an `undefined` text. */
  datatype Message = Message(text: Option<string>, isUser: bool, timestamp: string)

  /** How many entries a history with this maximum can settle at: a
      maximum below zero behaves as zero. */
  function Capacity(maxLength: int): nat {
    if maxLength < 0 then 0 else maxLength
  }

  /** The history after `push(m)` followed by one `shift()` when the
      length then exceeds `maxLength`. */
  function Appended(h: seq<Message>, m: Message, maxLength: int): (r: seq<Message>)
    ensures |h| <= |r| <= |h| + 1
    ensures r == (h + [m])[|h| + 1 - |r|..]
    ensures |r| == |h| + 1 <==> |h| + 1 <= maxLength
  {
    var pushed := h + [m];
    if |pushed| > maxLength then pushed[1..] else pushed
  }

  /** Appending never takes a history within its capacity beyond it. */
  lemma AppendKeepsBound(h: seq<Message>, m: Message, maxLength: int)
    requires |h| <= Capacity(maxLength)
    ensures |Appended(h, m, maxLength)| <= Capacity(maxLength)
  {
  }

  /** A full history loses exactly its oldest entry, and the new message
      comes last. */
  lemma AppendToFullEvictsOldest(h: seq<Message>, m: Message, maxLength: int)
    requires 1 <= maxLength && |h| == maxLength
    ensures Appended(h, m, maxLength) == h[1..] + [m]
  {
  }

  /** The history reached from an empty one by appending `ms` in order. */
  function Replay(ms: seq<Message>, maxLength: int): seq<Message>
  {
    if ms == [] then [] else Appended(Replay(ms[..|ms| - 1], maxLength), ms[|ms| - 1], maxLength)
  }

  /** After any sequence of appends to an empty history, the history holds
      exactly the latest `Capacity(maxLength)` messages, oldest first. */
  lemma {:induction false} ReplayKeepsLatest(ms: seq<Message>, maxLength: int)
    ensures var n := if |ms| < Capacity(maxLength) then |ms| else Capacity(maxLength);
      Replay(ms, maxLength) == ms[|ms| - n..]
  {
    if ms != [] {
      var init := ms[..|ms| - 1];
      ReplayKeepsLatest(init, maxLength);
      var n := if |init| < Capacity(maxLength) then |init| else Capacity(maxLength);
      assert ms[|init| - n..] == init[|init| - n..] + [ms[|ms| - 1]];
    }
  }
}
