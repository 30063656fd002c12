/** The page script's two decisions with content: the newsletter form's
    e-mail check and the navigation bar's scroll state. */
module Site {
  import opened Text

  /** Every character belongs to the class `[^\s@]`. */
  predicate PlainChars(s: string) {
    forall i :: 0 <= i < |s| ==> !IsWhitespace(s[i]) && s[i] != '@'
  }

  /** `email` splits as (run) '@' (run) '.' (run) with '@' at index `at`
      and '.' at index `dot`, each run a non-empty run of `[^\s@]`. */
  predicate SplitsAt(email: string, at: int, dot: int) {
    0 < at && at + 1 < dot && dot + 1 < |email| &&
    email[at] == '@' && email[dot] == '.' &&
    PlainChars(email[..at]) && PlainChars(email[at + 1..dot]) && PlainChars(email[dot + 1..])
  }

  /** `validateEmail`: the regular expression `^[^\s@]+@[^\s@]+\.[^\s@]+$`
      accepts `email` exactly when it splits so for some '@' and some later
      '.'; backtracking tries every such pair. An accepted address has at
      least five characters and begins and ends with a `[^\s@]` character
      (the last may be a '.', as in "a@b.c."). */
  predicate ValidateEmail(email: string): (valid: bool)
    ensures valid ==> |email| >= 5
    ensures valid ==> email[0] != '@' && !IsWhitespace(email[0])
    ensures valid ==> email[|email| - 1] != '@' && !IsWhitespace(email[|email| - 1])
  {
    exists at, dot | 0 <= at < dot < |email| :: SplitsAt(email, at, dot)
  }

  /** Number of occurrences of `c` in `s`. */
  function Count(s: string, c: char): (n: nat)
    ensures n <= |s|
    ensures n == 0 <==> forall i :: 0 <= i < |s| ==> s[i] != c
  {
    if s == [] then 0 else (if s[0] == c then 1 else 0) + Count(s[1..], c)
  }

  lemma {:induction false} CountAppend(s: string, t: string, c: char)
    ensures Count(s + t, c) == Count(s, c) + Count(t, c)
  {
    if s != [] {
      assert (s + t)[0] == s[0];
      assert (s + t)[1..] == s[1..] + t;
      CountAppend(s[1..], t, c);
    } else {
      assert s + t == t;
    }
  }

  /** A character counted once occurs nowhere else. */
  lemma CountOne(s: string, c: char, at: nat)
    requires at < |s| && s[at] == c && Count(s, c) == 1
    ensures forall i :: 0 <= i < |s| && i != at ==> s[i] != c
  {
    assert s == s[..at] + s[at..];
    CountAppend(s[..at], s[at..], c);
    assert s[at..][1..] == s[at + 1..];
    forall i | 0 <= i < |s| && i != at ensures s[i] != c {
      if i < at {
        assert s[..at][i] == s[i];
      } else {
        assert s[at + 1..][i - at - 1] == s[i];
      }
    }
  }

  /** A character that occurs at one index and nowhere else is counted once. */
  lemma CountOnlyAt(s: string, c: char, at: nat)
    requires at < |s| && s[at] == c
    requires forall i :: 0 <= i < |s| && i != at ==> s[i] != c
    ensures Count(s, c) == 1
  {
    assert s == s[..at] + s[at..];
    CountAppend(s[..at], s[at..], c);
    assert forall i :: 0 <= i < at ==> s[..at][i] == s[i];
    var rest := s[at + 1..];
    assert s[at..][1..] == rest;
    assert forall i :: 0 <= i < |rest| ==> rest[i] == s[at + 1 + i];
  }

  /** In a split, every character other than the '@' and the '.' at the
      split points is in `[^\s@]`, and conversely. */
  lemma SplitChars(email: string, at: int, dot: int)
    requires 0 < at && at + 1 < dot && dot + 1 < |email| && email[at] == '@' && email[dot] == '.'
    ensures SplitsAt(email, at, dot) <==>
      forall i :: 0 <= i < |email| && i != at && i != dot ==> !IsWhitespace(email[i]) && email[i] != '@'
  {
    if SplitsAt(email, at, dot) {
      forall i | 0 <= i < |email| && i != at && i != dot
        ensures !IsWhitespace(email[i]) && email[i] != '@'
      {
        if i < at {
          assert email[..at][i] == email[i];
        } else if i < dot {
          assert email[at + 1..dot][i - at - 1] == email[i];
        } else {
          assert email[dot + 1..][i - dot - 1] == email[i];
        }
      }
    }
  }

  /** `domain` has a '.' with at least one character on each side. */
  predicate HasInnerDot(domain: string) {
    exists k | 0 < k < |domain| - 1 :: domain[k] == '.'
  }

  /** A whitespace character anywhere makes the address invalid. */
  lemma WhitespaceRejected(email: string, i: nat)
    requires i < |email| && IsWhitespace(email[i])
    ensures !ValidateEmail(email)
  {
    forall at, dot | 0 <= at < dot < |email| ensures !SplitsAt(email, at, dot) {
      if 0 < at && at + 1 < dot && dot + 1 < |email| && email[at] == '@' && email[dot] == '.' {
        SplitChars(email, at, dot);
      }
    }
  }

  /** A valid address holds exactly one '@': no character class of the
      pattern admits a second one. */
  lemma ValidHasOneAt(email: string)
    requires ValidateEmail(email)
    ensures Count(email, '@') == 1
  {
    var at, dot :| 0 <= at < dot < |email| && SplitsAt(email, at, dot);
    SplitChars(email, at, dot);
    CountOnlyAt(email, '@', at);
  }

  /** An address whose part before the '@' is empty is invalid. */
  lemma EmptyLocalPartRejected(email: string)
    requires email == [] || email[0] == '@'
    ensures !ValidateEmail(email)
  {
    forall at, dot | 0 <= at < dot < |email| ensures !SplitsAt(email, at, dot) {
      if 0 < at && at + 1 < dot && dot + 1 < |email| && email[at] == '@' && email[dot] == '.' {
        SplitChars(email, at, dot);
      }
    }
  }

  /** With a single '@' that has something before it and no whitespace, the
      address is valid exactly when the domain after the '@' has a '.' with
      a character on each side; further dots anywhere are accepted. */
  lemma ValidIffInnerDot(email: string, at: nat)
    requires 0 < at < |email| && email[at] == '@' && Count(email, '@') == 1
    requires forall i :: 0 <= i < |email| ==> !IsWhitespace(email[i])
    ensures ValidateEmail(email) <==> HasInnerDot(email[at + 1..])
  {
    var domain := email[at + 1..];
    CountOne(email, '@', at);
    if HasInnerDot(domain) {
      var k :| 0 < k < |domain| - 1 && domain[k] == '.';
      var dot := at + 1 + k;
      assert email[dot] == domain[k];
      SplitChars(email, at, dot);
      assert SplitsAt(email, at, dot);
    }
    if ValidateEmail(email) {
      var a, dot :| 0 <= a < dot < |email| && SplitsAt(email, a, dot);
      assert a == at;
      assert domain[dot - at - 1] == email[dot];
    }
  }

  /** Addresses the pattern accepts and rejects, as examples of the lemmas. */
  lemma EmailExamples()
    ensures ValidateEmail("a@b.c.d")
    ensures ValidateEmail("a@.b.c")
    ensures ValidateEmail("a@b.c.")
    ensures !ValidateEmail("a@b.")
    ensures !ValidateEmail("@b.c")
    ensures !ValidateEmail("a b@c.d")
  {
    SplitChars("a@b.c.d", 1, 3);
    assert SplitsAt("a@b.c.d", 1, 3);
    SplitChars("a@.b.c", 1, 4);
    assert SplitsAt("a@.b.c", 1, 4);
    SplitChars("a@b.c.", 1, 3);
    assert SplitsAt("a@b.c.", 1, 3);
    assert Count("a@b.", '@') == 1;
    ValidIffInnerDot("a@b.", 1);
    EmptyLocalPartRejected("@b.c");
    WhitespaceRejected("a b@c.d", 1);
  }

  /** Scroll offset beyond which the navigation bar is drawn as scrolled. */
  const ScrollThreshold: real := 100.0

  /** `window.pageYOffset || document.documentElement.scrollTop`: a zero
      page offset falls back to the document's scroll position. */
  function ScrollPosition(pageYOffset: real, documentScrollTop: real): real {
    if pageYOffset != 0.0 then pageYOffset else documentScrollTop
  }

  /** The navigation bar; `scrolled` is whether it carries the class of
      that name. */
  class Navigation {
    var scrolled: bool
    var lastScrollTop: real

    /** The bar's state matches the last position seen. */
    predicate InSync()
      reads this
    {
      scrolled <==> lastScrollTop > ScrollThreshold
    }

    constructor (initiallyScrolled: bool)
      ensures scrolled == initiallyScrolled && lastScrollTop == 0.0
    {
      scrolled := initiallyScrolled;
      lastScrollTop := 0.0;
    }

    /** `handleScroll`: the class is present exactly when the position is
        beyond the threshold (exactly 100 is not), and the position is kept. */
    method HandleScroll(pageYOffset: real, documentScrollTop: real)
      modifies this
      ensures lastScrollTop == ScrollPosition(pageYOffset, documentScrollTop)
      ensures scrolled <==> ScrollPosition(pageYOffset, documentScrollTop) > ScrollThreshold
      ensures InSync()
    {
      var scrollTop := ScrollPosition(pageYOffset, documentScrollTop);
      if scrollTop > ScrollThreshold {
        scrolled := true;
      } else {
        scrolled := false;
      }
      lastScrollTop := scrollTop;
    }
  }
}
