/**
 * The confirmation verdict of `unsubscribe_http`: once the unsubscribe page
 * has been fetched, the visit counts as confirmed when one of six phrases
 * occurs in the lowercased visible text or in the lowercased raw body; a
 * failed fetch is never confirmed.
 */
module Confirmation {
  import opened Text

  /** The phrases taken as a confirmation, in the order they are tried. */
  const Keywords: seq<string> := [
    "unsubscribed",
    "removed",
    "successfully unsubscribed",
    "you have been unsubscribed",
    "has been removed",
    "opted out"
  ]

  /**
   * What visiting the unsubscribe URL gave: a failure of any kind (network,
   * timeout, HTTP client or parser error), or the raw body together with its
   * visible text as the HTML parser extracts it.
   */
  datatype FetchOutcome = Failed | Fetched(raw: string, visible: string)

  /** `any(kw in visible_text or kw in raw_text for kw in keywords)`, one keyword after another. */
  function AnyKeyword(keywords: seq<string>, visibleText: string, rawText: string): bool {
    if keywords == [] then false
    else Contains(visibleText, keywords[0]) || Contains(rawText, keywords[0]) ||
         AnyKeyword(keywords[1..], visibleText, rawText)
  }

  /** The verdict of `unsubscribe_http` on the outcome of its fetch. */
  function Confirmed(outcome: FetchOutcome): bool {
    match outcome
    case Failed => false
    case Fetched(raw, visible) => AnyKeyword(Keywords, Lower(visible), Lower(raw))
  }

  /** The keyword scan holds exactly when some keyword occurs in one of the two texts. */
  lemma {:induction false} AnyKeywordMeaning(keywords: seq<string>, visibleText: string, rawText: string)
    ensures AnyKeyword(keywords, visibleText, rawText) <==>
      exists i :: 0 <= i < |keywords| && (Contains(visibleText, keywords[i]) || Contains(rawText, keywords[i]))
  {
    if keywords != [] {
      AnyKeywordMeaning(keywords[1..], visibleText, rawText);
      if exists i :: 0 <= i < |keywords| && (Contains(visibleText, keywords[i]) || Contains(rawText, keywords[i])) {
        var i :| 0 <= i < |keywords| && (Contains(visibleText, keywords[i]) || Contains(rawText, keywords[i]));
        if i > 0 {
          assert keywords[1..][i - 1] == keywords[i];
        }
      }
    }
  }

  /**
   * A failed fetch is not confirmed; a fetched page is confirmed exactly when
   * some keyword occurs in its lowercased visible text or lowercased body.
   */
  lemma ConfirmedMeaning(outcome: FetchOutcome)
    ensures Confirmed(outcome) <==>
      (outcome.Fetched? &&
       exists kw :: kw in Keywords && (Contains(Lower(outcome.visible), kw) || Contains(Lower(outcome.raw), kw)))
  {
    if outcome.Fetched? {
      AnyKeywordMeaning(Keywords, Lower(outcome.visible), Lower(outcome.raw));
      if exists kw :: kw in Keywords && (Contains(Lower(outcome.visible), kw) || Contains(Lower(outcome.raw), kw)) {
        var kw :| kw in Keywords && (Contains(Lower(outcome.visible), kw) || Contains(Lower(outcome.raw), kw));
        var i :| 0 <= i < |Keywords| && Keywords[i] == kw;
      }
    }
  }

  /**
   * Three of the six phrases hold a shorter one, so a page is confirmed
   * exactly when it says "unsubscribed", "removed" or "opted out".
   */
  lemma ConfirmedByThree(raw: string, visible: string)
    ensures Confirmed(Fetched(raw, visible)) <==>
      Mentions(Lower(visible), Lower(raw), "unsubscribed") ||
      Mentions(Lower(visible), Lower(raw), "removed") ||
      Mentions(Lower(visible), Lower(raw), "opted out")
  {
    var v, r := Lower(visible), Lower(raw);
    ConfirmedMeaning(Fetched(raw, visible));
    if Confirmed(Fetched(raw, visible)) {
      var kw :| kw in Keywords && Mentions(v, r, kw);
      LongerPhrases(v, r, kw);
    } else {
      assert Keywords[0] == "unsubscribed" && Keywords[1] == "removed" && Keywords[5] == "opted out";
    }
  }

  /** Each of the six phrases holds "unsubscribed", "removed" or "opted out". */
  lemma LongerPhrases(visibleText: string, rawText: string, kw: string)
    requires kw in Keywords && Mentions(visibleText, rawText, kw)
    ensures Mentions(visibleText, rawText, "unsubscribed") || Mentions(visibleText, rawText, "removed") ||
      Mentions(visibleText, rawText, "opted out")
  {
    if kw == "successfully unsubscribed" {
      PhraseEndsWith("successfully ", "unsubscribed", kw);
      ShorterPhrase(visibleText, rawText, kw, "unsubscribed");
    } else if kw == "you have been unsubscribed" {
      PhraseEndsWith("you have been ", "unsubscribed", kw);
      ShorterPhrase(visibleText, rawText, kw, "unsubscribed");
    } else if kw == "has been removed" {
      PhraseEndsWith("has been ", "removed", kw);
      ShorterPhrase(visibleText, rawText, kw, "removed");
    }
  }

  /** A phrase contains its own last words. */
  lemma PhraseEndsWith(start: string, end: string, phrase: string)
    requires phrase == start + end
    ensures Contains(phrase, end)
  {
    assert OccursAt(start + end, end, |start|);
  }

  /** `needle` occurs in one of the two texts. */
  predicate Mentions(visibleText: string, rawText: string, needle: string) {
    Contains(visibleText, needle) || Contains(rawText, needle)
  }

  lemma ShorterPhrase(visibleText: string, rawText: string, phrase: string, shorter: string)
    requires Mentions(visibleText, rawText, phrase) && Contains(phrase, shorter)
    ensures Mentions(visibleText, rawText, shorter)
  {
    if Contains(visibleText, phrase) {
      ContainsTransitive(visibleText, phrase, shorter);
    } else {
      ContainsTransitive(rawText, phrase, shorter);
    }
  }

  /** The verdict ignores the case of the page: only the lowercased texts are searched. */
  lemma ConfirmedIgnoresCase(raw: string, visible: string)
    ensures Confirmed(Fetched(raw, visible)) == Confirmed(Fetched(Lower(raw), Lower(visible)))
  {
    LowerTwice(raw);
    LowerTwice(visible);
  }
}
