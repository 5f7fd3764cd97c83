/**
 * The multi-string keyword matcher (core/utils.py). For every categorisation
 * string that is not `None` it builds a query that ORs together the primary
 * keys of the keywords whose `value` occurs in the string (case-sensitively),
 * and adds the keywords that query selects to the result. A string that no
 * keyword occurs in leaves the query as the empty `Q()`, which constrains
 * nothing, so that string contributes every keyword.
 */
module KeywordQuery {
  import opened Wrappers
  import opened Text
  import opened LegacyMatch

  function AllKeywords(keywords: seq<LegacyKeyword>): set<LegacyKeyword> {
    set i | 0 <= i < |keywords| :: keywords[i]
  }

  /** The primary keys OR-ed into `query` for one string, as the keywords they select. */
  function QueryTerms(s: string, keywords: seq<LegacyKeyword>): set<LegacyKeyword> {
    set i | 0 <= i < |keywords| && Contains(s, keywords[i].value) :: keywords[i]
  }

  /** `Keyword.objects.filter(query)`: an empty `Q()` selects the whole table. */
  function Selected(s: string, keywords: seq<LegacyKeyword>): set<LegacyKeyword> {
    if QueryTerms(s, keywords) == {} then AllKeywords(keywords) else QueryTerms(s, keywords)
  }

  /** The union accumulated over the strings, `None` entries skipped. */
  function Matching(strings: seq<Option<string>>, keywords: seq<LegacyKeyword>): set<LegacyKeyword> {
    if strings == [] then {}
    else
      Matching(strings[..|strings| - 1], keywords)
      + (match strings[|strings| - 1]
         case None => {}
         case Some(s) => Selected(s, keywords))
  }

  /** `get_matching_keyword_objs`; `distinct()` makes the result a set. */
  method GetMatchingKeywordObjs(categorizationStrings: seq<Option<string>>, keywords: seq<LegacyKeyword>)
    returns (matching: set<LegacyKeyword>)
    ensures matching == Matching(categorizationStrings, keywords)
  {
    matching := {};
    for i := 0 to |categorizationStrings|
      invariant matching == Matching(categorizationStrings[..i], keywords)
    {
      assert categorizationStrings[..i + 1][..i] == categorizationStrings[..i];
      var entry := categorizationStrings[i];
      if entry.Some? {
        var s := entry.value;
        var query: set<LegacyKeyword> := {};
        for j := 0 to |keywords|
          invariant query == QueryTerms(s, keywords[..j])
        {
          assert keywords[..j + 1][..j] == keywords[..j];
          assert keywords[..j + 1][j] == keywords[j];
          if Contains(s, keywords[j].value) {
            query := query + {keywords[j]};
          }
        }
        assert keywords[..|keywords|] == keywords;
        var selected := if query == {} then AllKeywords(keywords) else query;
        matching := matching + selected;
      }
    }
    assert categorizationStrings[..|categorizationStrings|] == categorizationStrings;
  }

  /**
   * A keyword is in the result iff some string that is not `None` selects it;
   * in particular an empty list of strings gives an empty result.
   */
  lemma {:induction false} MatchingMembership(strings: seq<Option<string>>, keywords: seq<LegacyKeyword>, k: LegacyKeyword)
    ensures k in Matching(strings, keywords) <==>
              exists i :: 0 <= i < |strings| && strings[i].Some? && k in Selected(strings[i].value, keywords)
  {
    if strings != [] {
      var init := strings[..|strings| - 1];
      MatchingMembership(init, keywords, k);
      if exists i :: 0 <= i < |init| && init[i].Some? && k in Selected(init[i].value, keywords) {
        var i :| 0 <= i < |init| && init[i].Some? && k in Selected(init[i].value, keywords);
        assert strings[i] == init[i];
      }
      if exists i :: 0 <= i < |strings| && strings[i].Some? && k in Selected(strings[i].value, keywords) {
        var i :| 0 <= i < |strings| && strings[i].Some? && k in Selected(strings[i].value, keywords);
        if i < |init| {
          assert init[i] == strings[i];
        }
      }
    }
  }

  /** Any keyword whose value is a (case-sensitive) substring of some string is in the result. */
  lemma SubstringIsMatched(strings: seq<Option<string>>, keywords: seq<LegacyKeyword>, i: nat, j: nat)
    requires i < |strings| && strings[i].Some?
    requires j < |keywords| && Contains(strings[i].value, keywords[j].value)
    ensures keywords[j] in Matching(strings, keywords)
  {
    assert keywords[j] in QueryTerms(strings[i].value, keywords);
    MatchingMembership(strings, keywords, keywords[j]);
  }

  /** A string that no keyword occurs in makes the result the whole keyword table. */
  lemma UnmatchedStringSelectsAll(strings: seq<Option<string>>, keywords: seq<LegacyKeyword>, i: nat)
    requires i < |strings| && strings[i].Some?
    requires forall j :: 0 <= j < |keywords| ==> !Contains(strings[i].value, keywords[j].value)
    ensures Matching(strings, keywords) == AllKeywords(keywords)
  {
    assert QueryTerms(strings[i].value, keywords) == {};
    forall k | k in AllKeywords(keywords) ensures k in Matching(strings, keywords) {
      MatchingMembership(strings, keywords, k);
    }
    forall k | k in Matching(strings, keywords) ensures k in AllKeywords(keywords) {
      MatchingMembership(strings, keywords, k);
    }
  }

  /** The strings that are not `None`, as a set. */
  function PresentStrings(strings: seq<Option<string>>): set<string> {
    set i | 0 <= i < |strings| && strings[i].Some? :: strings[i].value
  }

  /** The result depends only on the set of strings that are not `None`: not on order, repetition or `None`s. */
  lemma OrderAndRepetitionIrrelevant(s1: seq<Option<string>>, s2: seq<Option<string>>, keywords: seq<LegacyKeyword>)
    requires PresentStrings(s1) == PresentStrings(s2)
    ensures Matching(s1, keywords) == Matching(s2, keywords)
  {
    forall k | k in Matching(s1, keywords) ensures k in Matching(s2, keywords) {
      MatchingMembership(s1, keywords, k);
      MatchingMembership(s2, keywords, k);
      var i :| 0 <= i < |s1| && s1[i].Some? && k in Selected(s1[i].value, keywords);
      assert s1[i].value in PresentStrings(s2);
    }
    forall k | k in Matching(s2, keywords) ensures k in Matching(s1, keywords) {
      MatchingMembership(s1, keywords, k);
      MatchingMembership(s2, keywords, k);
      var i :| 0 <= i < |s2| && s2[i].Some? && k in Selected(s2[i].value, keywords);
      assert s2[i].value in PresentStrings(s1);
    }
  }
}
