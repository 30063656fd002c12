/** The catalog built into the chatbot, used when the intents document
    cannot be loaded, and what declaration order makes of it. */
module BuiltInIntents {
  import opened Wrappers
  import opened Text
  import opened Intents

  /** `getFallbackIntents()`, entries in declaration order. */
  const BuiltIn: Catalog := [
    ("greeting", Intent(
      patterns := Some([
        "hi",
        "hello",
        "hey",
        "good morning",
        "good afternoon",
        "greetings"
      ]),
      responses := Many([
        "Hello! Welcome to Sx06 Luxe 👋 How can I assist you today?",
        "Hi there! Thanks for visiting Sx06 Luxe. What can I help you with?",
        "Welcome! I'm here to help you explore our luxury collection."
      ]),
      quickReplies := Some([
        "Shop Collection",
        "Brand Story",
        "Shipping Info",
        "Contact Us"
      ]),
      action := None)),
    ("shop", Intent(
      patterns := Some([
        "shop",
        "buy",
        "purchase",
        "collection",
        "products",
        "catalog"
      ]),
      responses := Many([
        "Explore our exclusive collection! Visit our <a href='gallery.html'>Gallery</a> to see customer looks and our latest pieces.",
        "Check out our <a href='gallery.html'>Gallery</a> for stunning customer photos and videos showcasing our luxury pieces!"
      ]),
      quickReplies := Some([
        "Shipping Info",
        "Sizing Guide",
        "Contact Us"
      ]),
      action := None)),
    ("story", Intent(
      patterns := Some([
        "story",
        "about",
        "founded",
        "founder",
        "who",
        "history",
        "brand"
      ]),
      responses := Many([
        "Sx06 Luxe was founded by Abdulmuqeet in October 2025. The '06' represents the founder's day - a symbol of legacy and personal significance. We combine timeless sophistication with sustainable craft. Learn more on our <a href='about.html'>About page</a>.",
        "Our brand represents the intersection of luxury, sustainability, and innovation. Founded by Abdulmuqeet, the '06' honors the founder's special day. Discover our full story <a href='about.html'>here</a>."
      ]),
      quickReplies := Some([
        "Shop Collection",
        "Sustainability",
        "Contact Us"
      ]),
      action := None)),
    ("shipping", Intent(
      patterns := Some([
        "ship",
        "shipping",
        "deliver",
        "delivery",
        "send",
        "international"
      ]),
      responses := Many([
        "We ship worldwide! 🌍 Standard shipping takes 5-7 business days. Express options available. Free shipping on orders over $200.",
        "Shipping to your location: Standard (5-7 days), Express (2-3 days). Free shipping on orders $200+. Track your order anytime!"
      ]),
      quickReplies := Some([
        "Returns Policy",
        "Shop Collection",
        "Track Order"
      ]),
      action := None)),
    ("contact", Intent(
      patterns := Some([
        "contact",
        "email",
        "phone",
        "reach",
        "talk",
        "support",
        "help"
      ]),
      responses := Many([
        "We'd love to hear from you! 💌<br>Email: hello@sx06luxe.com<br>Visit our <a href='contact.html'>Contact page</a><br>Response time: Within 24 hours",
        "Get in touch:<br>📧 hello@sx06luxe.com<br>📞 Available on our <a href='contact.html'>Contact page</a><br>We typically respond within 24 hours!"
      ]),
      quickReplies := Some([
        "Shop Collection",
        "Shipping Info",
        "Returns"
      ]),
      action := None)),
    ("sizing", Intent(
      patterns := Some([
        "size",
        "sizing",
        "fit",
        "measurements",
        "dimensions"
      ]),
      responses := Many([
        "We offer sizes XS-XXL with detailed measurements on each product page. Need personalized fitting advice? Contact us at hello@sx06luxe.com or check our size guide.",
        "Our size range: XS, S, M, L, XL, XXL. Each product has detailed measurements. Not sure? We offer free size consultations - just contact us!"
      ]),
      quickReplies := Some([
        "Shop Collection",
        "Contact Us",
        "Returns Policy"
      ]),
      action := None)),
    ("returns", Intent(
      patterns := Some([
        "return",
        "refund",
        "exchange",
        "policy",
        "unhappy"
      ]),
      responses := Many([
        "30-day return policy on unworn items with tags. Free returns on all orders. Items must be in original condition. <a href='contact.html'>Contact us</a> to initiate a return.",
        "Returns made easy: 30 days, free return shipping, full refund or exchange. Items must be unworn with tags. Start your return by contacting us!"
      ]),
      quickReplies := Some([
        "Shop Collection",
        "Contact Us",
        "Shipping Info"
      ]),
      action := None)),
    ("sustainability", Intent(
      patterns := Some([
        "sustainable",
        "sustainability",
        "eco",
        "environment",
        "ethical",
        "green"
      ]),
      responses := Many([
        "Sustainability is core to Sx06 Luxe. We use 100% sustainable materials, ethical manufacturing, and carbon-neutral shipping. Learn more about our commitment on our <a href='about.html'>About page</a>.",
        "We're committed to luxury without compromise: sustainable materials, ethical labor practices, minimal waste, and carbon-neutral operations. It's luxury you can feel good about. 🌿"
      ]),
      quickReplies := Some([
        "Brand Story",
        "Shop Collection",
        "Materials Info"
      ]),
      action := None)),
    ("price", Intent(
      patterns := Some([
        "price",
        "cost",
        "expensive",
        "cheap",
        "affordable",
        "how much"
      ]),
      responses := Many([
        "Our pieces range from $150-$800, reflecting premium materials and ethical craftsmanship. Each item is an investment in timeless luxury. View pricing in our <a href='gallery.html'>Gallery</a>.",
        "Prices vary by piece ($150-$800). We believe in transparent pricing that reflects true value: sustainable materials, fair wages, and exceptional quality."
      ]),
      quickReplies := Some([
        "Shop Collection",
        "Sustainability",
        "Payment Options"
      ]),
      action := None)),
    ("payment", Intent(
      patterns := Some([
        "payment",
        "pay",
        "checkout",
        "credit card",
        "paypal",
        "installment"
      ]),
      responses := Many([
        "We accept: Visa, Mastercard, Amex, PayPal, Apple Pay, Google Pay. Installment plans available through Shop Pay (4 interest-free payments).",
        "Payment options: All major credit cards, PayPal, Apple/Google Pay. Plus flexible installment plans through Shop Pay!"
      ]),
      quickReplies := Some([
        "Shop Collection",
        "Security Info",
        "Contact Us"
      ]),
      action := None)),
    ("gallery", Intent(
      patterns := Some([
        "gallery",
        "photos",
        "pictures",
        "images",
        "customers",
        "reviews"
      ]),
      responses := Many([
        "Check out our <a href='gallery.html'>Customer Gallery</a>! See real customers wearing Sx06 Luxe with photos and videos. You can even submit your own!",
        "Our <a href='gallery.html'>Gallery</a> showcases authentic customer moments. Real people, real luxury. Add your photos too!"
      ]),
      quickReplies := Some([
        "View Gallery",
        "Submit Photo",
        "Shop Collection"
      ]),
      action := None)),
    ("fallback", Intent(
      patterns := Some([]),
      responses := Many([
        "I'm here to help! I can assist with shopping, shipping, returns, sizing, our brand story, or any questions you have. What would you like to know?",
        "I didn't quite catch that. I can help with: shopping our collection, shipping info, returns, sizing, or brand information. What interests you?",
        "Let me help you! Try asking about our collection, shipping details, our sustainability practices, or how to contact us."
      ]),
      quickReplies := Some([
        "Shop Collection",
        "Brand Story",
        "Shipping Info",
        "Contact Us"
      ]),
      action := None)),
    ("email_capture", Intent(
      patterns := Some([
        "email",
        "subscribe",
        "newsletter",
        "updates"
      ]),
      responses := Many([
        "Stay connected! 💌 Please enter your email below and we'll send you exclusive updates, new arrivals, and special offers.",
        "Join our community! Share your email and be first to know about new collections and exclusive offers."
      ]),
      quickReplies := Some([
        "Shop Collection",
        "No Thanks"
      ]),
      action := Some("capture_email")))
  ]

  /** No pattern of `patterns` can begin anywhere in `lower`. */
  lemma NoPatternHits(patterns: seq<string>, lower: string)
    requires forall k :: 0 <= k < |patterns| ==>
      patterns[k] != [] &&
      forall i :: 0 <= i <= |lower| - |patterns[k]| ==> lower[i] != LowerChar(patterns[k][0])
    ensures !PatternHits(patterns, lower)
  {
    forall k | 0 <= k < |patterns| ensures !Includes(lower, ToLower(patterns[k])) {
      NotIncludes(lower, ToLower(patterns[k]));
    }
  }

  /** The built-in catalog holds a fallback entry, so `generateResponse`
      never fails on it, whatever the name. */
  lemma BuiltInAlwaysResponds(name: string, r: real)
    requires 0.0 <= r < 1.0
    ensures GenerateResponse(BuiltIn, name, r).Some?
  {
    assert BuiltIn[11].0 == FallbackName;
  }

  /** Any message containing "hi", in any case, is a greeting: `greeting`
      is declared first and `"hi"` is its first pattern. */
  lemma HiIsGreeting(message: string)
    requires Includes(ToLower(message), "hi")
    ensures Match(BuiltIn, message) == "greeting"
  {
    var patterns := BuiltIn[0].1.patterns.value;
    LowerFixed(patterns[0]);
    assert Triggers(BuiltIn[0].1, ToLower(message));
    MatchFirstTriggered(BuiltIn, message, 0);
  }

  /** "shipping" is answered as a greeting: it contains "hi". */
  lemma ShippingIsGreeting()
    ensures Match(BuiltIn, "shipping") == "greeting"
  {
    LowerFixed("shipping");
    assert OccursAt("shipping", "hi", 1);
    HiIsGreeting("shipping");
  }

  /** "email" is answered by `contact`, declared before `email_capture`,
      and not by `email_capture`, whose pattern list also holds "email". */
  lemma EmailIsContact()
    ensures Match(BuiltIn, "email") == "contact"
  {
    assert FirstTriggeredAt(BuiltIn, ToLower("email"), 4) by {
      LowerFixed("email");
      EmailSkipsFirstFour();
      EmailTriggersContact();
    }
    MatchFirstTriggered(BuiltIn, "email", 4);
    FirstFiveNames();
  }

  lemma EmailSkipsFirstFour()
    ensures forall j :: 0 <= j < 4 ==> !Triggers(BuiltIn[j].1, "email")
  {
    assert !Triggers(BuiltIn[0].1, "email") by { NoPatternHits(BuiltIn[0].1.patterns.value, "email"); }
    assert !Triggers(BuiltIn[1].1, "email") by { NoPatternHits(BuiltIn[1].1.patterns.value, "email"); }
    assert !Triggers(BuiltIn[2].1, "email") by { NoPatternHits(BuiltIn[2].1.patterns.value, "email"); }
    assert !Triggers(BuiltIn[3].1, "email") by { NoPatternHits(BuiltIn[3].1.patterns.value, "email"); }
  }

  lemma EmailTriggersContact()
    ensures Triggers(BuiltIn[4].1, "email")
  {
    assert OccursAt("email", "email", 0);
    ContactTriggersOnEmail("email");
  }

  /** A message that holds no pattern at all, such as "xyz123", gets the
      fallback answer. */
  lemma UnmatchedIsFallback()
    ensures Match(BuiltIn, "xyz123") == FallbackName
  {
    LowerFixed("xyz123");
    assert NoneTriggers(BuiltIn, "xyz123") by {
      XyzTriggersNothing();
    }
    MatchNoneTriggered(BuiltIn, "xyz123");
  }

  lemma XyzTriggersNothing()
    ensures forall j :: 0 <= j < |BuiltIn| ==> !Triggers(BuiltIn[j].1, "xyz123")
  {
    XyzSkipsRange0();
    XyzSkipsRange1();
    XyzSkipsRange2();
  }

  lemma XyzSkipsRange0()
    ensures forall j :: 0 <= j < 4 ==> !Triggers(BuiltIn[j].1, "xyz123")
  {
    assert !Triggers(BuiltIn[0].1, "xyz123") by { NoPatternHits(BuiltIn[0].1.patterns.value, "xyz123"); }
    assert !Triggers(BuiltIn[1].1, "xyz123") by { NoPatternHits(BuiltIn[1].1.patterns.value, "xyz123"); }
    assert !Triggers(BuiltIn[2].1, "xyz123") by { NoPatternHits(BuiltIn[2].1.patterns.value, "xyz123"); }
    assert !Triggers(BuiltIn[3].1, "xyz123") by { NoPatternHits(BuiltIn[3].1.patterns.value, "xyz123"); }
  }

  lemma XyzSkipsRange1()
    ensures forall j :: 4 <= j < 8 ==> !Triggers(BuiltIn[j].1, "xyz123")
  {
    assert !Triggers(BuiltIn[4].1, "xyz123") by { NoPatternHits(BuiltIn[4].1.patterns.value, "xyz123"); }
    assert !Triggers(BuiltIn[5].1, "xyz123") by { NoPatternHits(BuiltIn[5].1.patterns.value, "xyz123"); }
    assert !Triggers(BuiltIn[6].1, "xyz123") by { NoPatternHits(BuiltIn[6].1.patterns.value, "xyz123"); }
    assert !Triggers(BuiltIn[7].1, "xyz123") by { NoPatternHits(BuiltIn[7].1.patterns.value, "xyz123"); }
  }

  lemma XyzSkipsRange2()
    ensures forall j :: 8 <= j < 13 ==> !Triggers(BuiltIn[j].1, "xyz123")
  {
    assert !Triggers(BuiltIn[8].1, "xyz123") by { NoPatternHits(BuiltIn[8].1.patterns.value, "xyz123"); }
    assert !Triggers(BuiltIn[9].1, "xyz123") by { NoPatternHits(BuiltIn[9].1.patterns.value, "xyz123"); }
    assert !Triggers(BuiltIn[10].1, "xyz123") by { NoPatternHits(BuiltIn[10].1.patterns.value, "xyz123"); }
    assert !Triggers(BuiltIn[11].1, "xyz123") by { NoPatternHits(BuiltIn[11].1.patterns.value, "xyz123"); }
    assert !Triggers(BuiltIn[12].1, "xyz123") by { NoPatternHits(BuiltIn[12].1.patterns.value, "xyz123"); }
  }

  /** Whenever "email" occurs in a message, one of the first five intents
      answers it: `email_capture` is never reached through "email". */
  lemma EmailNeverCaptures(message: string)
    requires Includes(ToLower(message), "email")
    ensures Match(BuiltIn, message) in ["greeting", "shop", "story", "shipping", "contact"]
  {
    ContactTriggersOnEmail(ToLower(message));
    MatchWithinPrefix(BuiltIn, message, 4);
    var k :| 0 <= k <= 4 && Match(BuiltIn, message) == BuiltIn[k].0;
    FirstFiveNames();
    assert k == 0 || k == 1 || k == 2 || k == 3 || k == 4;
  }

  lemma ContactTriggersOnEmail(lower: string)
    requires Includes(lower, "email")
    ensures Triggers(BuiltIn[4].1, lower)
  {
    var contact := BuiltIn[4].1.patterns.value;
    assert contact[1] == "email";
    LowerFixed(contact[1]);
  }

  /** `getFallbackIntents` declares these thirteen intents, in this order;
      their names are distinct. */
  lemma BuiltInNames()
    ensures |BuiltIn| == 13
    ensures forall k :: 0 <= k < 13 ==> BuiltIn[k].0 == DeclaredNames[k]
    ensures DistinctNames(BuiltIn)
  {
    assert forall k :: 0 <= k < 13 ==> BuiltIn[k].0 == DeclaredNames[k];
  }

  const DeclaredNames: seq<string> := ["greeting", "shop", "story", "shipping", "contact",
    "sizing", "returns", "sustainability", "price", "payment", "gallery", "fallback", "email_capture"]

  lemma FirstFiveNames()
    ensures BuiltIn[0].0 == "greeting" && BuiltIn[1].0 == "shop" && BuiltIn[2].0 == "story"
    ensures BuiltIn[3].0 == "shipping" && BuiltIn[4].0 == "contact"
  {
  }

  /** In the built-in catalog the fallback entry is reached only through the
      matcher's default return: "fallback" comes back exactly when no intent
      triggers. */
  lemma FallbackOnlyByDefault(message: string)
    ensures Match(BuiltIn, message) == FallbackName <==> NoneTriggers(BuiltIn, ToLower(message))
  {
    var lower := ToLower(message);
    var k := FirstTriggered(BuiltIn, lower);
    if k < |BuiltIn| {
      NoPatternsNeverTriggers(BuiltIn[11].1, lower);
      assert k != 11;
      OnlyOneFallbackEntry();
      MatchFirstTriggered(BuiltIn, message, k);
    } else {
      MatchNoneTriggered(BuiltIn, message);
    }
  }

  /** Entry 11 is the only one named "fallback". */
  lemma OnlyOneFallbackEntry()
    ensures forall j :: 0 <= j < |BuiltIn| && BuiltIn[j].0 == FallbackName ==> j == 11
  {
  }
}
