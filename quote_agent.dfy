/** The quote agent's own logic: its quote table, the category lookup, and the
    reading of a `wait_for_response` reply into a quote category. */
module QuoteAgent {

  import opened Wrappers
  import opened Text
  import PendingResponses

  /** The keys of the quote table, in the table's order. */
  const Categories: seq<string> := ["motivation", "wisdom", "creativity", "perseverance"]

  /** The category asked for when none is named, and the fallback of classification. */
  const Random: string := "random"

  const QuotesByCategory: map<string, seq<string>> := map[
    "motivation" := [
      "Success is not final, failure is not fatal: it is the courage to continue that counts. - Winston Churchill",
      "The way to get started is to quit talking and begin doing. - Walt Disney",
      "Don't be afraid to give up the good to go for the great. - John D. Rockefeller",
      "Innovation distinguishes between a leader and a follower. - Steve Jobs",
      "The future belongs to those who believe in the beauty of their dreams. - Eleanor Roosevelt"
    ],
    "wisdom" := [
      "The only true wisdom is in knowing you know nothing. - Socrates",
      "Life is what happens to you while you're busy making other plans. - John Lennon",
      "In the middle of difficulty lies opportunity. - Albert Einstein",
      "It does not matter how slowly you go as long as you do not stop. - Confucius",
      "The journey of a thousand miles begins with one step. - Lao Tzu"
    ],
    "creativity" := [
      "Creativity is intelligence having fun. - Albert Einstein",
      "The secret to creativity is knowing how to hide your sources. - Pablo Picasso",
      "You can't use up creativity. The more you use, the more you have. - Maya Angelou",
      "Creativity takes courage. - Henri Matisse",
      "Logic will get you from A to B. Imagination will take you everywhere. - Albert Einstein"
    ],
    "perseverance" := [
      "It is during our darkest moments that we must focus to see the light. - Aristotle",
      "Fall seven times, stand up eight. - Japanese Proverb",
      "You learn more from failure than from success. Don't let it stop you. - Unknown",
      "Success is walking from failure to failure with no loss of enthusiasm. - Winston Churchill",
      "The only impossible journey is the one you never begin. - Tony Robbins"
    ]
  ]

  /** The table has the four categories as its keys and five quotes under each,
      so a random pick from any of them always has something to choose. */
  lemma QuoteTableShape()
    ensures QuotesByCategory.Keys == set c | c in Categories
    ensures forall c :: c in QuotesByCategory ==> |QuotesByCategory[c]| == 5
    ensures Random !in QuotesByCategory
  {
  }

  /** `get_quote_by_category`: a named category gives a quote from that
      category; `"random"` or an unknown name picks some category, then a quote
      of it. Each `random.choice` is an arbitrary member of the list it is given. */
  method GetQuoteByCategory(category: string) returns (quote: string, actual: string)
    ensures actual in QuotesByCategory && quote in QuotesByCategory[actual]
    ensures category in QuotesByCategory ==> actual == category
  {
    QuoteTableShape();
    if category == Random || category !in QuotesByCategory {
      assert Categories[0] in Categories;
      actual :| actual in Categories;
    } else {
      actual := category;
    }
    assert QuotesByCategory[actual][0] in QuotesByCategory[actual];
    quote :| quote in QuotesByCategory[actual];
  }

  /** The separator sits at position `i`: `s[i..i+2] == ": "`. */
  predicate IsSepAt(s: string, i: int)
  {
    0 <= i && i + 1 < |s| && s[i] == ':' && s[i + 1] == ' '
  }

  /** The position of the first `": "` in `s`, as `str.split(": ", 1)` finds it. */
  function SepIndex(s: string): (r: Option<nat>)
    ensures r.Some? ==> IsSepAt(s, r.value)
    ensures r.Some? ==> forall j :: 0 <= j < r.value ==> !IsSepAt(s, j)
    ensures r.None? ==> forall j :: 0 <= j < |s| ==> !IsSepAt(s, j)
  {
    if |s| < 2 then None
    else if s[0] == ':' && s[1] == ' ' then Some(0)
    else
      assert forall j :: 1 <= j < |s| ==> (IsSepAt(s, j) <==> IsSepAt(s[1..], j - 1));
      match SepIndex(s[1..])
      case None => None
      case Some(i) => Some(i + 1)
  }

  /** `": " in s` holds exactly when `str.split` finds a first separator. */
  lemma ContainsSep(s: string)
    ensures Contains(s, ": ") <==> SepIndex(s).Some?
  {
    forall i | 0 <= i <= |s| && OccursAt(s, ": ", i)
      ensures IsSepAt(s, i)
    {
      SepOccurrence(s, i);
    }
    if SepIndex(s).Some? {
      var i := SepIndex(s).value;
      assert OccursAt(s, ": ", i);
    }
  }

  /** An occurrence of `": "` is a separator position. */
  lemma SepOccurrence(s: string, i: int)
    requires OccursAt(s, ": ", i)
    ensures IsSepAt(s, i)
  {
    assert s[i] == s[i..i + 2][0] && s[i + 1] == s[i..i + 2][1];
  }

  /** The reply text with everything up to and including its first `": "`
      removed, lowercased; the whole text lowercased when it has no `": "`. */
  function ExtractMessage(result: string): (m: string)
    ensures forall i :: 0 <= i < |m| ==> !IsUpper(m[i])
  {
    ContainsSep(result);
    if Contains(result, ": ") then Lower(result[SepIndex(result).value + 2..])
    else Lower(result)
  }

  /** The keyword checks in their priority order. */
  function CategoryFor(message: string): (c: string)
    ensures c == Random || c in QuotesByCategory
    ensures c == "motivation" <==> Contains(message, "motivat")
    ensures c == "wisdom" <==>
      !Contains(message, "motivat") && (Contains(message, "wisdom") || Contains(message, "wise"))
    ensures c == "creativity" <==>
      !Contains(message, "motivat") && !Contains(message, "wisdom") && !Contains(message, "wise")
      && Contains(message, "creativ")
    ensures c == "perseverance" <==>
      !Contains(message, "motivat") && !Contains(message, "wisdom") && !Contains(message, "wise")
      && !Contains(message, "creativ") && Contains(message, "persever")
  {
    if Contains(message, "motivat") then "motivation"
    else if Contains(message, "wisdom") || Contains(message, "wise") then "wisdom"
    else if Contains(message, "creativ") then "creativity"
    else if Contains(message, "persever") then "perseverance"
    else Random
  }

  /** Answering with one of the offered menu words selects that category. */
  lemma MenuWordsSelectThemselves(word: string)
    requires word in Categories || word == Random
    ensures CategoryFor(word) == word
  {
    if word == "motivation" {
      MotivationSelected();
    } else if word == "wisdom" {
      WisdomSelected();
    } else if word == "creativity" {
      CreativitySelected();
    } else if word == "perseverance" {
      PerseveranceSelected();
    } else {
      RandomSelected();
    }
  }

  lemma MotivationSelected()
    ensures CategoryFor("motivation") == "motivation"
  {
    ContainsPrefix("motivation", "motivat");
  }

  lemma WisdomSelected()
    ensures CategoryFor("wisdom") == "wisdom"
  {
    var word := "wisdom";
    NotContainsMissingChar(word, "motivat", 'a');
    ContainsPrefix(word, "wisdom");
  }

  lemma CreativitySelected()
    ensures CategoryFor("creativity") == "creativity"
  {
    var word := "creativity";
    NotContainsMissingChar(word, "motivat", 'm');
    NotContainsMissingChar(word, "wisdom", 'w');
    NotContainsMissingChar(word, "wise", 'w');
    ContainsPrefix(word, "creativ");
  }

  lemma PerseveranceSelected()
    ensures CategoryFor("perseverance") == "perseverance"
  {
    var word := "perseverance";
    NotContainsMissingChar(word, "motivat", 'm');
    NotContainsMissingChar(word, "wisdom", 'w');
    NotContainsMissingChar(word, "wise", 'w');
    NotContainsMissingChar(word, "creativ", 'i');
    ContainsPrefix(word, "persever");
  }

  lemma RandomSelected()
    ensures CategoryFor(Random) == Random
  {
    var word := Random;
    NotContainsMissingChar(word, "motivat", 'i');
    NotContainsMissingChar(word, "wisdom", 'w');
    NotContainsMissingChar(word, "wise", 'w');
    NotContainsMissingChar(word, "creativ", 'c');
    NotContainsMissingChar(word, "persever", 'p');
  }

  /** The category `run_oneshot_session` chooses from the agent's reply (lines 207-228). */
  function ChooseCategory(result: string): (c: string)
    ensures c == Random || c in QuotesByCategory
  {
    CategoryFor(ExtractMessage(result))
  }

  /** Lowering does not move the first `": "`: colons and spaces are not letters. */
  lemma {:induction false} SepIndexLower(s: string)
    ensures SepIndex(Lower(s)) == SepIndex(s)
  {
    if |s| >= 2 {
      assert Lower(s)[1..] == Lower(s[1..]);
      SepIndexLower(s[1..]);
    }
  }

  /** Classification is case-insensitive: two replies that agree once
      lowercased yield the same message, hence the same category. */
  lemma CaseInsensitive(a: string, b: string)
    requires Lower(a) == Lower(b)
    ensures ExtractMessage(a) == ExtractMessage(b)
    ensures ChooseCategory(a) == ChooseCategory(b)
  {
    SepIndexLower(a);
    SepIndexLower(b);
    ContainsSep(a);
    ContainsSep(b);
    if SepIndex(a).Some? {
      var i := SepIndex(a).value;
      LowerSuffix(a, i + 2);
      LowerSuffix(b, i + 2);
    }
  }

  /** No `": "` starts inside `Received response from <sender>` of a reply. */
  lemma NoSepInPrefix(sender: string, message: string, j: int)
    requires !Contains(sender, ": ")
    requires 0 <= j < |"Received response from " + sender|
    ensures !IsSepAt(PendingResponses.ReplyText(sender, message), j)
  {
    var lead := "Received response from ";
    var text := PendingResponses.ReplyText(sender, message);
    assert text == lead + sender + ": " + message;
    var n := |lead + sender|;
    if j < |lead| - 1 {
      assert text[j] == lead[j];
    } else if j == |lead| - 1 {
      assert text[j] == ' ';
    } else if j < n - 1 {
      ContainsSep(sender);
      assert text[j] == sender[j - |lead|] && text[j + 1] == sender[j + 1 - |lead|];
      assert !IsSepAt(sender, j - |lead|);
    } else {
      assert text[j + 1] == ':';
    }
  }

  /** For the reply `wait_for_response` gives when a message arrives, the
      extracted text is the sender's message, lowercased, as long as the
      sender id has no `": "` in it (a Matrix user id has no spaces). */
  lemma ReplyRoundTrip(sender: string, message: string)
    requires !Contains(sender, ": ")
    ensures ExtractMessage(PendingResponses.ReplyText(sender, message)) == Lower(message)
  {
    var prefix := "Received response from " + sender;
    var text := PendingResponses.ReplyText(sender, message);
    assert text == prefix + ": " + message;
    ContainsSep(sender);
    ContainsSep(text);
    var n := |prefix|;
    forall j | 0 <= j < n ensures !IsSepAt(text, j) {
      NoSepInPrefix(sender, message, j);
    }
    assert IsSepAt(text, n);
    assert SepIndex(text) == Some(n);
    assert text[n + 2..] == message;
  }

  /** A user who answers the question with a menu word, in any letter case,
      gets that category. */
  lemma MenuReplySelects(sender: string, answer: string)
    requires !Contains(sender, ": ")
    requires Lower(answer) in Categories || Lower(answer) == Random
    ensures ChooseCategory(PendingResponses.ReplyText(sender, answer)) == Lower(answer)
  {
    ReplyRoundTrip(sender, answer);
    MenuWordsSelectThemselves(Lower(answer));
  }

  /** The round trip through what `wait_for_response` returns: when a message
      resolves the wait, the agent reads back that message, lowercased. */
  lemma ResolvedReplyRoundTrip(d: PendingResponses.Response)
    requires !Contains(d.sender, ": ")
    ensures PendingResponses.OutcomeOf(PendingResponses.Resolved(d)).Reply?
    ensures ExtractMessage(PendingResponses.OutcomeOf(PendingResponses.Resolved(d)).text) == Lower(d.message)
  {
    ReplyRoundTrip(d.sender, d.message);
  }
}
