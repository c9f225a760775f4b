/**
 The three words of a review as they come in: trimmed, lower-cased, and looked up in the
 lists of what is allowed.
 */
module VoteTexts {
  import opened Wrappers
  import opened Text
  import opened Governance

  datatype Vote = Vote(category: string, severity: string, recommendation: string)

  function Lowered(lower: char -> char, s: string): string {
    if s == [] then [] else [lower(s[0])] + Lowered(lower, s[1..])
  }

  /** `canonicalReportField`. */
  function Canonical(lower: char -> char, s: string): string { Lowered(lower, Trim(s)) }

  const CATEGORIES: set<string> := {"spam", "phishing", "malware", "harassment", "illegal_content", "threat", "other"}

  function SeverityNamed(word: string): Option<Severity> {
    if word == "critical" then Some(Critical)
    else if word == "high" then Some(High)
    else if word == "medium" then Some(Medium)
    else if word == "low" then Some(Lower)
    else None
  }

  /** A rejection is allowed, and votes for none of the four actions. */
  function ActionNamed(word: string): Option<Action> {
    if word == "warn" then Some(Warn)
    else if word == "timeout" then Some(Timeout)
    else if word == "quarantine" then Some(Quarantine)
    else if word == "suspend" then Some(Suspend)
    else if word == "reject" then Some(Unlisted("reject"))
    else None
  }

  /** The review a vote makes, or none if a word is not on its list. */
  function ReviewOf(lower: char -> char, reviewer: string, vote: Vote): Option<Review> {
    var severity := SeverityNamed(Canonical(lower, vote.severity));
    var recommendation := ActionNamed(Canonical(lower, vote.recommendation));
    if Canonical(lower, vote.category) !in CATEGORIES || severity.None? || recommendation.None? then None
    else Some(Review(reviewer, severity.value, recommendation.value))
  }

  // ----- What is stored reads the same

  predicate IsPlainWord(s: string) { s != [] && forall i :: 0 <= i < |s| ==> 'a' <= s[i] <= 'z' || s[i] == '_' }

  lemma {:induction false} LoweredPlain(lower: char -> char, s: string)
    requires LowersAscii(lower) && (forall i :: 0 <= i < |s| ==> 'a' <= s[i] <= 'z' || s[i] == '_')
    ensures Lowered(lower, s) == s
  {
    if s != [] {
      LoweredPlain(lower, s[1..]);
    }
  }

  lemma CanonicalPlain(lower: char -> char, s: string)
    requires LowersAscii(lower) && IsPlainWord(s)
    ensures Canonical(lower, s) == s
  {
    TrimOfTrimmed(s);
    LoweredPlain(lower, s);
  }

  lemma SeveritiesArePlain(word: string)
    requires SeverityNamed(word).Some?
    ensures IsPlainWord(word)
  {
  }

  lemma ActionsArePlain(word: string)
    requires ActionNamed(word).Some?
    ensures IsPlainWord(word)
  {
  }

  lemma FirstCategoriesArePlain(word: string)
    requires word in {"spam", "phishing", "malware", "harassment"}
    ensures IsPlainWord(word)
  {
  }

  lemma LastCategoriesArePlain(word: string)
    requires word in {"illegal_content", "threat", "other"}
    ensures IsPlainWord(word)
  {
  }

  lemma CategoriesArePlain(word: string)
    requires word in CATEGORIES
    ensures IsPlainWord(word)
  {
    if word in {"illegal_content", "threat", "other"} {
      LastCategoriesArePlain(word);
    } else {
      FirstCategoriesArePlain(word);
    }
  }

  /** The words as the table keeps them. */
  function Stored(lower: char -> char, vote: Vote): Vote {
    Vote(Canonical(lower, vote.category), Canonical(lower, vote.severity), Canonical(lower, vote.recommendation))
  }

  /** The tally, which puts the stored words in canonical form once more, sees the vote that was cast. */
  lemma StoredReadsTheSame(lower: char -> char, reviewer: string, vote: Vote)
    requires LowersAscii(lower) && ReviewOf(lower, reviewer, vote).Some?
    ensures ReviewOf(lower, reviewer, Stored(lower, vote)) == ReviewOf(lower, reviewer, vote)
    ensures Stored(lower, Stored(lower, vote)) == Stored(lower, vote)
  {
    var stored := Stored(lower, vote);
    CategoriesArePlain(stored.category);
    SeveritiesArePlain(stored.severity);
    ActionsArePlain(stored.recommendation);
    CanonicalPlain(lower, stored.category);
    CanonicalPlain(lower, stored.severity);
    CanonicalPlain(lower, stored.recommendation);
  }

  /** What the words of a recorded vote count for: the severity in points, the recommendation as a vote for an action,
      a rejection for none. */
  lemma WordsCount(lower: char -> char, reviewer: string, vote: Vote)
    requires ReviewOf(lower, reviewer, vote).Some?
    ensures var review := ReviewOf(lower, reviewer, vote).value;
            var severity, word := Canonical(lower, vote.severity), Canonical(lower, vote.recommendation);
            && review.reviewer == reviewer
            && (word == "reject" <==> Points([review]) == 0 && Voters([review]) == {})
            && (word != "reject" ==>
                  && Voters([review]) == {reviewer}
                  && Points([review]) == (if severity == "critical" then 4 else if severity == "high" then 3
                                          else if severity == "medium" then 2 else 1))
            && (word == "suspend" <==> CountFor([review], Suspend) == 1)
            && (word == "timeout" <==> CountFor([review], Timeout) == 1)
            && (word == "quarantine" <==> CountFor([review], Quarantine) == 1)
            && (word == "warn" <==> CountFor([review], Warn) == 1)
  {
    var review := ReviewOf(lower, reviewer, vote).value;
    TallyOneMore([], review);
    assert [] + [review] == [review];
  }
}
