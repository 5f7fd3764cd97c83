/**
 * The transaction categorisation engine (core/services.py): keyword rules with
 * include/exclude terms, the categorisation string built from a transaction's
 * fields, the self-transfer short-circuit and the resolution of zero, one or
 * several matching keywords into a categorisation result.
 *
 * The keyword table and the set of the user's own account numbers are
 * parameters of the service's constructor; they stand for the two store reads
 * the original performs there.
 */
module Categorization {
  import opened Wrappers
  import opened Text

  /** The `want_need_investment` choices of a keyword (constants.py). */
  datatype Wni = Want | Investment | Need | Other

  /**
   * A keyword's JSON `rules`: either something that is not a dict (including
   * JSON null), or a dict whose "include" and "exclude" entries may be absent.
   */
  datatype Rules = NotADict | RulesDict(includeList: Option<seq<string>>, excludeList: Option<seq<string>>)

  /** A stored keyword; `subcategory` is the primary key of the target subcategory. */
  datatype Keyword = Keyword(
    id: nat,
    description: string,
    rules: Rules,
    subcategory: Option<nat>,
    wantNeedInvestment: Option<Wni>,
    ignore: bool)

  /** The (subcategory, want_need_investment, ignore) triple that a keyword prescribes. */
  datatype Outcome = Outcome(subcategory: Option<nat>, wantNeedInvestment: Option<Wni>, ignore: bool)

  function OutcomeOf(k: Keyword): Outcome {
    Outcome(k.subcategory, k.wantNeedInvestment, k.ignore)
  }

  datatype CategorizationResult = CategorizationResult(
    subcategory: Option<nat>,
    wantNeedInvestment: Option<Wni>,
    ignore: bool,
    isCategoryOverlap: bool,
    isUncategorized: bool)

  /** A freshly constructed result: every field at its default. */
  const DefaultResult := CategorizationResult(None, None, false, false, false)

  /** `CategorizationResult.to_dict`: the triple that is written back to a transaction. */
  function ToDict(r: CategorizationResult): (d: Outcome)
    ensures d.subcategory == r.subcategory && d.wantNeedInvestment == r.wantNeedInvestment && d.ignore == r.ignore
  {
    Outcome(r.subcategory, r.wantNeedInvestment, r.ignore)
  }

  /** A keyword with its rule terms normalised once, as the service keeps it. */
  datatype OptimizedKeyword = OptimizedKeyword(obj: Keyword, normInclude: seq<string>, normExclude: seq<string>)

  /** `rules.get("include", [])`, with a non-dict `rules` read as `{}`. */
  function IncludeTerms(rules: Rules): seq<string> {
    if rules.RulesDict? && rules.includeList.Some? then rules.includeList.value else []
  }

  /** `rules.get("exclude", [])`, with a non-dict `rules` read as `{}`. */
  function ExcludeTerms(rules: Rules): seq<string> {
    if rules.RulesDict? && rules.excludeList.Some? then rules.excludeList.value else []
  }

  /** `[r.lower().replace(" ", "") for r in terms if r]`. */
  function NormalizeTerms(terms: seq<string>): seq<string> {
    if terms == [] then []
    else (if terms[0] != "" then [Normalize(terms[0])] else []) + NormalizeTerms(terms[1..])
  }

  function Optimize(k: Keyword): OptimizedKeyword {
    OptimizedKeyword(k, NormalizeTerms(IncludeTerms(k.rules)), NormalizeTerms(ExcludeTerms(k.rules)))
  }

  function OptimizeAll(ks: seq<Keyword>): seq<OptimizedKeyword> {
    seq(|ks|, i requires 0 <= i < |ks| => Optimize(ks[i]))
  }

  // ---------------------------------------------------------------------------
  // The categorisation string
  // ---------------------------------------------------------------------------

  /**
   * The transaction data handed to the service: field name to the field's
   * value rendered with `str()`, or `None`.
   */
  type TransactionData = map<string, Option<string>>

  /** `transaction_data.get(name)`. */
  function FieldValue(data: TransactionData, name: string): Option<string> {
    if name in data then data[name] else None
  }

  /** The segment a field contributes: its value unless that is `None`, `""` or absent. */
  function Kept(data: TransactionData, name: string): seq<string> {
    match FieldValue(data, name)
    case Some(v) => if v != "" then [v] else []
    case None => []
  }

  /** The `parts` list built by `get_categorization_string`. */
  function KeptValues(data: TransactionData, fields: seq<string>): seq<string> {
    if fields == [] then []
    else KeptValues(data, fields[..|fields| - 1]) + Kept(data, fields[|fields| - 1])
  }

  function CategorizationString(data: TransactionData, fields: seq<string>): string {
    Join(" | ", KeptValues(data, fields))
  }

  /**
   * The configured `categorization_fields`: a list of field names, or a text
   * that is evaluated as a Python literal.
   */
  datatype FieldsSetting = FieldList(names: seq<string>) | FieldText(text: string)

  /**
   * The field names iterated over; `literalEval` stands for `ast.literal_eval`
   * and yields `None` when the evaluation raises.
   */
  function FieldNames(setting: FieldsSetting, literalEval: string -> Option<seq<string>>): seq<string> {
    match setting
    case FieldList(names) => names
    case FieldText(text) => if literalEval(text).Some? then literalEval(text).value else []
  }

  // ---------------------------------------------------------------------------
  // Self-transfers, matching and resolution
  // ---------------------------------------------------------------------------

  /** `str(cp_account).strip().replace(" ", "")`. */
  function CleanAccount(account: string): string {
    RemoveSpaces(Strip(account))
  }

  /** Section A of `apply_categorization`: the counterparty is one of the user's own accounts. */
  predicate IsSelfTransfer(data: Option<TransactionData>, own: set<string>) {
    && data.Some?
    && data.value != map[]
    && var cp := FieldValue(data.value, "counterparty_account_number");
       && cp.Some?
       && cp.value != ""
       && CleanAccount(cp.value) in (set x | x in own :: RemoveSpaces(x))
  }

  /** `all(r in cat_string_clean for r in terms)`. */
  predicate AllOccur(clean: string, terms: seq<string>) {
    forall i :: 0 <= i < |terms| ==> Contains(clean, terms[i])
  }

  /** `any(r in cat_string_clean for r in terms)`. */
  predicate AnyOccurs(clean: string, terms: seq<string>) {
    exists i :: 0 <= i < |terms| && Contains(clean, terms[i])
  }

  /** A keyword matches: some include term, all of them present, none of the exclude terms present. */
  predicate Matches(ok: OptimizedKeyword, clean: string) {
    ok.normInclude != [] && AllOccur(clean, ok.normInclude) && !AnyOccurs(clean, ok.normExclude)
  }

  /** The `matched` list: the matching keywords, in keyword order. */
  function MatchedKeywords(oks: seq<OptimizedKeyword>, clean: string): seq<Keyword> {
    if oks == [] then []
    else
      MatchedKeywords(oks[..|oks| - 1], clean)
      + (if Matches(oks[|oks| - 1], clean) then [oks[|oks| - 1].obj] else [])
  }

  /** The `all_same` test of section C. */
  predicate AllSame(matched: seq<Keyword>)
    requires matched != []
  {
    forall i :: 0 <= i < |matched| ==> OutcomeOf(matched[i]) == OutcomeOf(matched[0])
  }

  function Adopt(o: Outcome): CategorizationResult {
    DefaultResult.(subcategory := o.subcategory, wantNeedInvestment := o.wantNeedInvestment, ignore := o.ignore)
  }

  /** Section C of `apply_categorization`. */
  function Resolve(matched: seq<Keyword>): CategorizationResult {
    if matched == [] then DefaultResult.(isUncategorized := true)
    else if |matched| == 1 then Adopt(OutcomeOf(matched[0]))
    else if AllSame(matched) then Adopt(OutcomeOf(matched[0]))
    else DefaultResult.(isCategoryOverlap := true)
  }

  /** What `apply_categorization` returns. */
  function Categorize(oks: seq<OptimizedKeyword>, own: set<string>, catString: string,
                      data: Option<TransactionData>): CategorizationResult
  {
    if IsSelfTransfer(data, own) then DefaultResult.(ignore := true)
    else Resolve(MatchedKeywords(oks, Normalize(catString)))
  }

  // ---------------------------------------------------------------------------
  // The service
  // ---------------------------------------------------------------------------

  class CategorizationService {
    /** The keyword table, in the order the store returns it (by description). */
    const keywords: seq<Keyword>
    const optimizedKeywords: seq<OptimizedKeyword>
    const ownAccountNumbers: set<string>

    constructor (storedKeywords: seq<Keyword>, storedAccountNumbers: set<string>)
      ensures keywords == storedKeywords
      ensures optimizedKeywords == OptimizeAll(storedKeywords)
      ensures ownAccountNumbers == storedAccountNumbers
    {
      var optimized: seq<OptimizedKeyword> := [];
      for i := 0 to |storedKeywords|
        invariant optimized == OptimizeAll(storedKeywords[..i])
      {
        var k := storedKeywords[i];
        optimized := optimized + [OptimizedKeyword(k, NormalizeTerms(IncludeTerms(k.rules)),
                                                   NormalizeTerms(ExcludeTerms(k.rules)))];
      }
      assert storedKeywords[..|storedKeywords|] == storedKeywords;
      keywords := storedKeywords;
      optimizedKeywords := optimized;
      ownAccountNumbers := storedAccountNumbers;
    }

    /** `get_categorization_string`. */
    method GetCategorizationString(data: TransactionData, setting: FieldsSetting,
                                   literalEval: string -> Option<seq<string>>)
      returns (s: string)
      ensures s == CategorizationString(data, FieldNames(setting, literalEval))
    {
      var fields: seq<string>;
      match setting {
        case FieldList(names) =>
          fields := names;
        case FieldText(text) =>
          var parsed := literalEval(text);
          fields := if parsed.Some? then parsed.value else [];
      }
      var parts: seq<string> := [];
      for i := 0 to |fields|
        invariant parts == KeptValues(data, fields[..i])
      {
        assert fields[..i + 1][..i] == fields[..i];
        var val := FieldValue(data, fields[i]);
        if val.Some? && val.value != "" {
          parts := parts + [val.value];
        }
      }
      assert fields[..|fields|] == fields;
      s := Join(" | ", parts);
    }

    /** `apply_categorization`. */
    method ApplyCategorization(catString: string, data: Option<TransactionData>)
      returns (result: CategorizationResult)
      ensures result == Categorize(optimizedKeywords, ownAccountNumbers, catString, data)
    {
      result := DefaultResult;

      // A. Self-transfer
      if data.Some? && data.value != map[] {
        var cp := FieldValue(data.value, "counterparty_account_number");
        if cp.Some? && cp.value != "" {
          var account := CleanAccount(cp.value);
          var cleanOwn := set x | x in ownAccountNumbers :: RemoveSpaces(x);
          if account in cleanOwn {
            result := result.(ignore := true);
            return;
          }
        }
      }

      // B. Keyword matching
      var clean := Normalize(catString);
      var matched: seq<Keyword> := [];
      for i := 0 to |optimizedKeywords|
        invariant matched == MatchedKeywords(optimizedKeywords[..i], clean)
      {
        assert optimizedKeywords[..i + 1][..i] == optimizedKeywords[..i];
        var item := optimizedKeywords[i];
        if item.normInclude == [] {
          continue;
        }
        var includeMatch := AllOccur(clean, item.normInclude);
        if includeMatch {
          var excludeMatch := AnyOccurs(clean, item.normExclude);
          if !excludeMatch {
            matched := matched + [item.obj];
          }
        }
      }
      assert optimizedKeywords[..|optimizedKeywords|] == optimizedKeywords;

      // C. Result determination
      if matched == [] {
        result := result.(isUncategorized := true);
        return;
      }
      if |matched| == 1 {
        var k := matched[0];
        result := result.(subcategory := k.subcategory, wantNeedInvestment := k.wantNeedInvestment,
                          ignore := k.ignore);
        return;
      }
      var first := matched[0];
      if AllSame(matched) {
        result := result.(subcategory := first.subcategory, wantNeedInvestment := first.wantNeedInvestment,
                          ignore := first.ignore);
      } else {
        result := result.(isCategoryOverlap := true);
      }
    }
  }

  // ---------------------------------------------------------------------------
  // Properties of rule normalisation
  // ---------------------------------------------------------------------------

  /**
   * The normalised terms are exactly the lower-cased, space-free forms of the
   * non-empty raw terms; there are never more of them than raw terms, each is
   * already in normal form, and there are none iff every raw term is "".
   */
  lemma {:induction false} NormalizeTermsSpec(terms: seq<string>)
    ensures |NormalizeTerms(terms)| <= |terms|
    ensures forall t :: t in NormalizeTerms(terms) <==> exists r :: r in terms && r != "" && t == Normalize(r)
    ensures forall t :: t in NormalizeTerms(terms) ==> IsNormal(t)
    ensures NormalizeTerms(terms) == [] <==> forall r :: r in terms ==> r == ""
  {
    if terms != [] {
      var rest := terms[1..];
      NormalizeTermsSpec(rest);
      NormalizeIsNormal(terms[0]);
      var head := if terms[0] != "" then [Normalize(terms[0])] else [];
      assert NormalizeTerms(terms) == head + NormalizeTerms(rest);
      assert forall r :: r in terms <==> r == terms[0] || r in rest;
      forall t | t in NormalizeTerms(terms)
        ensures exists r :: r in terms && r != "" && t == Normalize(r)
      {
        if t in head {
          assert terms[0] in terms;
        } else {
          var r :| r in rest && r != "" && t == Normalize(r);
          assert r in terms;
        }
      }
      forall t | exists r :: r in terms && r != "" && t == Normalize(r)
        ensures t in NormalizeTerms(terms)
      {
        var r :| r in terms && r != "" && t == Normalize(r);
        if r != terms[0] {
          assert r in rest;
        }
      }
    }
  }

  /** A keyword whose `rules` is not a dict has no terms at all. */
  lemma NonDictRulesAreEmpty(k: Keyword)
    requires k.rules.NotADict?
    ensures Optimize(k).normInclude == [] && Optimize(k).normExclude == []
  {
  }

  // ---------------------------------------------------------------------------
  // Properties of the categorisation string
  // ---------------------------------------------------------------------------

  /** The parts of a longer field list are the parts of its pieces, in list order. */
  lemma {:induction false} KeptValuesAppend(data: TransactionData, f1: seq<string>, f2: seq<string>)
    ensures KeptValues(data, f1 + f2) == KeptValues(data, f1) + KeptValues(data, f2)
    decreases |f2|
  {
    if f2 == [] {
      assert f1 + f2 == f1;
    } else {
      var last := f2[|f2| - 1];
      assert (f1 + f2)[..|f1 + f2| - 1] == f1 + f2[..|f2| - 1];
      KeptValuesAppend(data, f1, f2[..|f2| - 1]);
    }
  }

  /**
   * Every part is the non-empty value of a listed field, and there is one part
   * per listed field whose value is neither `None`, `""` nor absent.
   */
  lemma {:induction false} KeptValuesSpec(data: TransactionData, fields: seq<string>)
    ensures |KeptValues(data, fields)| <= |fields|
    ensures forall k :: 0 <= k < |KeptValues(data, fields)| ==>
              KeptValues(data, fields)[k] != "" &&
              exists f :: f in fields && FieldValue(data, f) == Some(KeptValues(data, fields)[k])
    ensures KeptValues(data, fields) == [] <==>
              forall f :: f in fields ==> FieldValue(data, f) == None || FieldValue(data, f) == Some("")
  {
    if fields != [] {
      var init := fields[..|fields| - 1];
      KeptValuesSpec(data, init);
      assert forall f :: f in fields <==> f in init || f == fields[|fields| - 1];
    }
  }

  /** When every listed field has a value, the parts are those values in list order. */
  lemma {:induction false} KeptValuesAllPresent(data: TransactionData, fields: seq<string>)
    requires forall i :: 0 <= i < |fields| ==> FieldValue(data, fields[i]).Some? && FieldValue(data, fields[i]).value != ""
    ensures |KeptValues(data, fields)| == |fields|
    ensures forall i :: 0 <= i < |fields| ==> KeptValues(data, fields)[i] == FieldValue(data, fields[i]).value
  {
    if fields != [] {
      KeptValuesAllPresent(data, fields[..|fields| - 1]);
    }
  }

  lemma {:induction false} JoinOfNonEmpty(sep: string, parts: seq<string>)
    requires forall k :: 0 <= k < |parts| ==> parts[k] != ""
    ensures Join(sep, parts) == "" <==> parts == []
  {
    if |parts| > 1 {
      JoinOfNonEmpty(sep, parts[1..]);
    }
  }

  /**
   * Because empty fields are skipped rather than joined, the categorisation
   * string is empty exactly when no listed field has a non-empty value.
   */
  lemma CategorizationStringEmptyIff(data: TransactionData, fields: seq<string>)
    ensures CategorizationString(data, fields) == "" <==>
              forall f :: f in fields ==> FieldValue(data, f) == None || FieldValue(data, f) == Some("")
  {
    KeptValuesSpec(data, fields);
    JoinOfNonEmpty(" | ", KeptValues(data, fields));
  }

  /** A field text that cannot be evaluated gives the empty categorisation string. */
  lemma UnparseableFieldsGiveEmptyString(data: TransactionData, text: string,
                                         literalEval: string -> Option<seq<string>>)
    requires literalEval(text) == None
    ensures CategorizationString(data, FieldNames(FieldText(text), literalEval)) == ""
  {
  }

  // ---------------------------------------------------------------------------
  // Properties of matching
  // ---------------------------------------------------------------------------

  /** Matched keywords of a longer list are those of its pieces, in keyword order. */
  lemma {:induction false} MatchedKeywordsAppend(a: seq<OptimizedKeyword>, b: seq<OptimizedKeyword>, clean: string)
    ensures MatchedKeywords(a + b, clean) == MatchedKeywords(a, clean) + MatchedKeywords(b, clean)
    decreases |b|
  {
    if b == [] {
      assert a + b == a;
    } else {
      assert (a + b)[..|a + b| - 1] == a + b[..|b| - 1];
      MatchedKeywordsAppend(a, b[..|b| - 1], clean);
    }
  }

  /** A keyword is matched iff it is in the list and passes the include and exclude tests. */
  lemma {:induction false} MatchedKeywordsMembership(oks: seq<OptimizedKeyword>, clean: string, k: Keyword)
    ensures |MatchedKeywords(oks, clean)| <= |oks|
    ensures k in MatchedKeywords(oks, clean) <==>
              exists i :: 0 <= i < |oks| && oks[i].obj == k && Matches(oks[i], clean)
  {
    if oks != [] {
      var init := oks[..|oks| - 1];
      MatchedKeywordsMembership(init, clean, k);
      if k in MatchedKeywords(init, clean) {
        var i :| 0 <= i < |init| && init[i].obj == k && Matches(init[i], clean);
        assert oks[i] == init[i];
      }
      if exists i :: 0 <= i < |oks| && oks[i].obj == k && Matches(oks[i], clean) {
        var i :| 0 <= i < |oks| && oks[i].obj == k && Matches(oks[i], clean);
        if i < |init| {
          assert init[i] == oks[i];
        }
      }
    }
  }

  lemma AllOccurIff(clean: string, inc: seq<string>)
    ensures AllOccur(clean, NormalizeTerms(inc)) <==> forall r :: r in inc && r != "" ==> Contains(clean, Normalize(r))
  {
    NormalizeTermsSpec(inc);
    var ni := NormalizeTerms(inc);
    if AllOccur(clean, ni) {
      forall r | r in inc && r != "" ensures Contains(clean, Normalize(r)) {
        assert Normalize(r) in ni;
      }
    }
    if forall r :: r in inc && r != "" ==> Contains(clean, Normalize(r)) {
      forall j | 0 <= j < |ni| ensures Contains(clean, ni[j]) {
        assert ni[j] in ni;
      }
    }
  }

  lemma AnyOccursIff(clean: string, exc: seq<string>)
    ensures AnyOccurs(clean, NormalizeTerms(exc)) <==> exists r :: r in exc && r != "" && Contains(clean, Normalize(r))
  {
    NormalizeTermsSpec(exc);
    var ne := NormalizeTerms(exc);
    if AnyOccurs(clean, ne) {
      var j :| 0 <= j < |ne| && Contains(clean, ne[j]);
      assert ne[j] in ne;
    }
    if exists r :: r in exc && r != "" && Contains(clean, Normalize(r)) {
      var r :| r in exc && r != "" && Contains(clean, Normalize(r));
      assert Normalize(r) in ne;
      var j :| 0 <= j < |ne| && ne[j] == Normalize(r);
    }
  }

  /**
   * A keyword of the table is matched against a categorisation string iff it
   * has a non-blank include term, every non-empty include term (normalised)
   * occurs in the normalised string, and no non-empty exclude term does.
   */
  lemma KeywordMatchedIff(ks: seq<Keyword>, k: Keyword, catString: string)
    requires k in ks
    ensures k in MatchedKeywords(OptimizeAll(ks), Normalize(catString)) <==>
              && (exists r :: r in IncludeTerms(k.rules) && r != "")
              && (forall r :: r in IncludeTerms(k.rules) && r != "" ==> Contains(Normalize(catString), Normalize(r)))
              && !(exists r :: r in ExcludeTerms(k.rules) && r != "" && Contains(Normalize(catString), Normalize(r)))
  {
    var clean := Normalize(catString);
    var oks := OptimizeAll(ks);
    MatchedKeywordsMembership(oks, clean, k);
    var i :| 0 <= i < |ks| && ks[i] == k;
    assert oks[i] == Optimize(k);
    NormalizeTermsSpec(IncludeTerms(k.rules));
    AllOccurIff(clean, IncludeTerms(k.rules));
    AnyOccursIff(clean, ExcludeTerms(k.rules));
    assert Matches(oks[i], clean) ==> k in MatchedKeywords(oks, clean);
  }

  /** A keyword whose include list has no non-empty term (or whose rules are not a dict) never matches. */
  lemma InertKeywordNeverMatches(ks: seq<Keyword>, k: Keyword, catString: string)
    requires forall r :: r in IncludeTerms(k.rules) ==> r == ""
    ensures k !in MatchedKeywords(OptimizeAll(ks), Normalize(catString))
  {
    var oks := OptimizeAll(ks);
    MatchedKeywordsMembership(oks, Normalize(catString), k);
    NormalizeTermsSpec(IncludeTerms(k.rules));
    forall i | 0 <= i < |oks| && oks[i].obj == k
      ensures !Matches(oks[i], Normalize(catString))
    {
      assert oks[i] == Optimize(ks[i]);
    }
  }

  /**
   * A term made only of spaces is kept by the `if r` filter and normalises to
   * "", which is `in` every string. As include terms such terms are always
   * satisfied: a keyword with at least one non-empty include term, all of them
   * blank, and no non-empty exclude term matches every categorisation string.
   */
  lemma BlankIncludeTermMatchesEverything(ks: seq<Keyword>, k: Keyword, catString: string)
    requires k in ks
    requires exists r :: r in IncludeTerms(k.rules) && r != ""
    requires forall r :: r in IncludeTerms(k.rules) ==> IsBlank(r)
    requires forall r :: r in ExcludeTerms(k.rules) ==> r == ""
    ensures k in MatchedKeywords(OptimizeAll(ks), Normalize(catString))
  {
    var clean := Normalize(catString);
    EmptyIsContained(clean);
    forall r | r in IncludeTerms(k.rules) && r != ""
      ensures Contains(clean, Normalize(r))
    {
      RemoveSpacesOfBlank(r);
    }
    KeywordMatchedIff(ks, k, catString);
  }

  /** As an exclude term, a non-empty term made only of spaces vetoes the keyword for every string. */
  lemma BlankExcludeTermVetoes(ks: seq<Keyword>, k: Keyword, catString: string)
    requires k in ks
    requires exists r :: r in ExcludeTerms(k.rules) && r != "" && IsBlank(r)
    ensures k !in MatchedKeywords(OptimizeAll(ks), Normalize(catString))
  {
    var clean := Normalize(catString);
    var r :| r in ExcludeTerms(k.rules) && r != "" && IsBlank(r);
    RemoveSpacesOfBlank(r);
    EmptyIsContained(clean);
    assert Contains(clean, Normalize(r));
    KeywordMatchedIff(ks, k, catString);
  }

  // ---------------------------------------------------------------------------
  // Properties of resolution
  // ---------------------------------------------------------------------------

  /** The set of triples the matched keywords prescribe. */
  function Outcomes(matched: seq<Keyword>): set<Outcome> {
    set i | 0 <= i < |matched| :: OutcomeOf(matched[i])
  }

  /** No match: uncategorised, every other field at its default. */
  lemma ResolveNoMatch()
    ensures Resolve([]) == DefaultResult.(isUncategorized := true)
  {
  }

  /**
   * When every matched keyword prescribes the same triple (in particular when
   * exactly one matches), the result adopts it and is neither uncategorised
   * nor an overlap.
   */
  lemma ResolveAgreeing(matched: seq<Keyword>, o: Outcome)
    requires matched != []
    requires forall i :: 0 <= i < |matched| ==> OutcomeOf(matched[i]) == o
    ensures ToDict(Resolve(matched)) == o
    ensures !Resolve(matched).isCategoryOverlap && !Resolve(matched).isUncategorized
  {
  }

  /**
   * The result is an overlap exactly when two matched keywords prescribe
   * different triples; it then carries no subcategory, no
   * want/need/investment and `ignore` false.
   */
  lemma ResolveOverlapIff(matched: seq<Keyword>)
    ensures Resolve(matched).isCategoryOverlap <==>
              exists i, j :: 0 <= i < |matched| && 0 <= j < |matched| && OutcomeOf(matched[i]) != OutcomeOf(matched[j])
    ensures Resolve(matched).isCategoryOverlap ==>
              ToDict(Resolve(matched)) == Outcome(None, None, false) && !Resolve(matched).isUncategorized
    ensures Resolve(matched).isUncategorized <==> matched == []
  {
    if exists i, j :: 0 <= i < |matched| && 0 <= j < |matched| && OutcomeOf(matched[i]) != OutcomeOf(matched[j]) {
      var i, j :| 0 <= i < |matched| && 0 <= j < |matched| && OutcomeOf(matched[i]) != OutcomeOf(matched[j]);
      assert !AllSame(matched);
    }
  }

  /**
   * The result depends only on which triples the matched keywords prescribe,
   * not on their order or repetition: reordering the keyword table changes
   * nothing.
   */
  lemma ResolveDependsOnlyOnOutcomes(m1: seq<Keyword>, m2: seq<Keyword>)
    requires Outcomes(m1) == Outcomes(m2)
    ensures Resolve(m1) == Resolve(m2)
  {
    if m1 != [] {
      assert OutcomeOf(m1[0]) in Outcomes(m1);
    }
    if m2 != [] {
      assert OutcomeOf(m2[0]) in Outcomes(m2);
    }
    if m1 == [] || m2 == [] {
      assert m1 == [] && m2 == [];
    } else {
      var o := OutcomeOf(m1[0]);
      if AllSame(m1) {
        assert Outcomes(m1) == {o};
        forall j | 0 <= j < |m2| ensures OutcomeOf(m2[j]) == o {
          assert OutcomeOf(m2[j]) in Outcomes(m2);
        }
        assert OutcomeOf(m2[0]) == o;
      } else {
        var i :| 0 <= i < |m1| && OutcomeOf(m1[i]) != o;
        assert OutcomeOf(m1[i]) in Outcomes(m2) && o in Outcomes(m2);
        var a :| 0 <= a < |m2| && OutcomeOf(m2[a]) == OutcomeOf(m1[i]);
        var b :| 0 <= b < |m2| && OutcomeOf(m2[b]) == o;
        ResolveOverlapIff(m2);
      }
    }
  }

  /**
   * Self-transfers take precedence: whatever the keywords and the
   * categorisation string, the result only sets `ignore`.
   */
  lemma SelfTransferWins(oks: seq<OptimizedKeyword>, own: set<string>, catString: string, data: Option<TransactionData>)
    requires IsSelfTransfer(data, own)
    ensures Categorize(oks, own, catString, data) == DefaultResult.(ignore := true)
  {
  }
}
