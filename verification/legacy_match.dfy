/**
 * The older single-string keyword matcher (core/base/utils/utils.py): a
 * keyword of the older schema carries one `value` term, and it matches when
 * that term, lower-cased and without spaces, occurs in the categorisation
 * string, lower-cased and without spaces.
 */
module LegacyMatch {
  import opened Wrappers
  import opened Text

  /** A keyword row of the older schema: its primary key and its single term. */
  datatype LegacyKeyword = LegacyKeyword(id: nat, value: string)

  predicate ValueMatches(k: LegacyKeyword, s: string) {
    Contains(Normalize(s), Normalize(k.value))
  }

  /** The queryset `get_matching_keyword_objs` builds for a string that is not `None`. */
  function MatchingKeywords(s: string, keywords: seq<LegacyKeyword>): set<LegacyKeyword> {
    set i | 0 <= i < |keywords| && ValueMatches(keywords[i], s) :: keywords[i]
  }

  /**
   * `get_matching_keyword_objs`. The `return` sits inside the `if`, so a
   * `None` categorisation string yields `None` rather than an empty queryset.
   */
  method GetMatchingKeywordObjs(categorizationString: Option<string>, keywords: seq<LegacyKeyword>)
    returns (r: Option<set<LegacyKeyword>>)
    ensures categorizationString.None? <==> r.None?
    ensures categorizationString.Some? ==> r == Some(MatchingKeywords(categorizationString.value, keywords))
  {
    var matching: set<LegacyKeyword> := {};
    if categorizationString.Some? {
      var s := categorizationString.value;
      for i := 0 to |keywords|
        invariant matching == MatchingKeywords(s, keywords[..i])
      {
        assert keywords[..i + 1][..i] == keywords[..i];
        assert keywords[..i + 1][i] == keywords[i];
        if Contains(Normalize(s), Normalize(keywords[i].value)) {
          matching := matching + {keywords[i]};
        }
      }
      assert keywords[..|keywords|] == keywords;
      return Some(matching);
    }
    r := None;
  }

  /** The result is drawn from the keyword table, and holds exactly the keywords whose term occurs. */
  lemma MatchingKeywordsSpec(s: string, keywords: seq<LegacyKeyword>, k: LegacyKeyword)
    ensures MatchingKeywords(s, keywords) <= set i | 0 <= i < |keywords| :: keywords[i]
    ensures k in MatchingKeywords(s, keywords) <==> k in keywords && ValueMatches(k, s)
  {
    if k in keywords {
      var i :| 0 <= i < |keywords| && keywords[i] == k;
      assert ValueMatches(k, s) ==> keywords[i] in MatchingKeywords(s, keywords);
    }
  }

  /** Changing only the case of the string, or inserting spaces into it, does not change the result. */
  lemma InsensitiveToCaseAndSpaces(s: string, a: string, b: string, keywords: seq<LegacyKeyword>)
    ensures MatchingKeywords(Lower(s), keywords) == MatchingKeywords(s, keywords)
    ensures MatchingKeywords(a + " " + b, keywords) == MatchingKeywords(a + b, keywords)
  {
    NormalizeIgnoresCase(s);
    NormalizeIgnoresSpaces(a, b);
  }

  /** A keyword whose term is empty or only spaces matches every string that is not `None`. */
  lemma BlankValueMatchesEverything(s: string, keywords: seq<LegacyKeyword>, k: LegacyKeyword)
    requires k in keywords
    requires IsBlank(k.value)
    ensures k in MatchingKeywords(s, keywords)
  {
    RemoveSpacesOfBlank(k.value);
    EmptyIsContained(Normalize(s));
    MatchingKeywordsSpec(s, keywords, k);
  }
}
