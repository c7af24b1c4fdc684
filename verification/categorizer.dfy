/** `categorizeIncident` (backend/server.js): the zero-shot classifier's top
    label mapped onto five categories, with a keyword fallback when the
    classifier call fails in any way. */
module Categorizer {
  import opened Wrappers
  import opened Text

  datatype Category = Harassment | Assault | LightingIssue | SuspiciousBehavior | Other

  /** Every category, in the precedence order both mappings use. */
  const AllCategories: seq<Category> := [Harassment, Assault, LightingIssue, SuspiciousBehavior, Other]

  /** The string the server stores in `incident.category`. */
  function CategoryName(c: Category): string {
    match c
    case Harassment => "Harassment"
    case Assault => "Assault"
    case LightingIssue => "Lighting Issue"
    case SuspiciousBehavior => "Suspicious Behavior"
    case Other => "Other"
  }

  /** Distinct categories are stored under distinct names, none holding `_`. */
  lemma CategoryNameInjective(c: Category, d: Category)
    ensures CategoryName(c) == CategoryName(d) ==> c == d
    ensures '_' !in CategoryName(c)
  {
  }

  /** The label phrases offered to the classifier, one per category, in category order. */
  const CandidateLabels: seq<string> := [
    "harassment or intimidation",
    "assault or violence",
    "poor lighting or visibility issue",
    "suspicious behavior or activity",
    "other safety concern"
  ]

  /** A precedence-ordered table: each category with the words that select it. */
  type Rules = seq<(Category, seq<string>)>

  /** Words looked for in the lower-cased top label. */
  const LabelRules: Rules := [
    (Harassment, ["harassment", "intimidation"]),
    (Assault, ["assault", "violence"]),
    (LightingIssue, ["lighting", "visibility"]),
    (SuspiciousBehavior, ["suspicious", "behavior"])
  ]

  /** Word stems looked for in the lower-cased description when the classifier fails. */
  const KeywordRules: Rules := [
    (Harassment, ["harass", "intimidat", "threaten"]),
    (Assault, ["assault", "attack", "hit", "fight"]),
    (LightingIssue, ["light", "dark", "visibility"]),
    (SuspiciousBehavior, ["suspicious", "strange", "weird"])
  ]

  predicate MentionsAny(text: string, words: seq<string>) {
    exists w :: w in words && Contains(text, w)
  }

  lemma MentionsTwo(text: string, a: string, b: string)
    ensures MentionsAny(text, [a, b]) <==> Contains(text, a) || Contains(text, b)
  {
    if Contains(text, a) { assert a in [a, b]; }
    if Contains(text, b) { assert b in [a, b]; }
  }

  lemma MentionsThree(text: string, a: string, b: string, c: string)
    ensures MentionsAny(text, [a, b, c]) <==> Contains(text, a) || Contains(text, b) || Contains(text, c)
  {
    if Contains(text, a) { assert a in [a, b, c]; }
    if Contains(text, b) { assert b in [a, b, c]; }
    if Contains(text, c) { assert c in [a, b, c]; }
  }

  lemma MentionsFour(text: string, a: string, b: string, c: string, d: string)
    ensures MentionsAny(text, [a, b, c, d]) <==>
      Contains(text, a) || Contains(text, b) || Contains(text, c) || Contains(text, d)
  {
    if Contains(text, a) { assert a in [a, b, c, d]; }
    if Contains(text, b) { assert b in [a, b, c, d]; }
    if Contains(text, c) { assert c in [a, b, c, d]; }
    if Contains(text, d) { assert d in [a, b, c, d]; }
  }

  /** Reference reading of an if-chain: the category of the first rule whose
      words occur in the text, and Other when none does. */
  function FirstMatchingRule(rules: Rules, text: string): Category {
    if rules == [] then Other
    else if MentionsAny(text, rules[0].1) then rules[0].0
    else FirstMatchingRule(rules[1..], text)
  }

  /** A table of four rules read as the four-way if-chain it stands for. */
  lemma FourRules(rules: Rules, text: string)
    requires |rules| == 4
    ensures FirstMatchingRule(rules, text) ==
      if MentionsAny(text, rules[0].1) then rules[0].0
      else if MentionsAny(text, rules[1].1) then rules[1].0
      else if MentionsAny(text, rules[2].1) then rules[2].0
      else if MentionsAny(text, rules[3].1) then rules[3].0
      else Other
  {
    var r1 := rules[1..];
    var r2 := r1[1..];
    var r3 := r2[1..];
    assert r1[0] == rules[1] && r2[0] == rules[2] && r3[0] == rules[3] && r3[1..] == [];
    assert FirstMatchingRule(r3, text) == if MentionsAny(text, rules[3].1) then rules[3].0 else Other;
    assert FirstMatchingRule(r2, text) == if MentionsAny(text, rules[2].1) then rules[2].0 else FirstMatchingRule(r3, text);
    assert FirstMatchingRule(r1, text) == if MentionsAny(text, rules[1].1) then rules[1].0 else FirstMatchingRule(r2, text);
  }

  /** The primary path: the mapping of the classifier's top label. */
  function LabelCategory(topLabel: string): Category {
    var top := ToLower(topLabel);
    if Contains(top, "harassment") || Contains(top, "intimidation") then Harassment
    else if Contains(top, "assault") || Contains(top, "violence") then Assault
    else if Contains(top, "lighting") || Contains(top, "visibility") then LightingIssue
    else if Contains(top, "suspicious") || Contains(top, "behavior") then SuspiciousBehavior
    else Other
  }

  /** The fallback path: keyword stems in the lower-cased description. */
  function FallbackCategory(description: string): Category {
    var desc := ToLower(description);
    if Contains(desc, "harass") || Contains(desc, "intimidat") || Contains(desc, "threaten") then Harassment
    else if Contains(desc, "assault") || Contains(desc, "attack") || Contains(desc, "hit") || Contains(desc, "fight") then Assault
    else if Contains(desc, "light") || Contains(desc, "dark") || Contains(desc, "visibility") then LightingIssue
    else if Contains(desc, "suspicious") || Contains(desc, "strange") || Contains(desc, "weird") then SuspiciousBehavior
    else Other
  }

  /** `categorizeIncident(description)`. `topLabel` is the classifier's
      top-ranked label, or None when the call or the reading of its response
      throws; the remote call itself is not modelled. */
  function CategorizeIncident(description: string, topLabel: Option<string>): (c: Category)
    ensures topLabel.Some? ==> c == FirstMatchingRule(LabelRules, ToLower(topLabel.value))
    ensures topLabel.None? ==> c == FirstMatchingRule(KeywordRules, ToLower(description))
  {
    match topLabel
    case Some(top) => LabelMatchesTable(top); LabelCategory(top)
    case None => FallbackMatchesTable(description); FallbackCategory(description)
  }

  /** The label if-chain is the label table read in order. */
  lemma LabelMatchesTable(topLabel: string)
    ensures LabelCategory(topLabel) == FirstMatchingRule(LabelRules, ToLower(topLabel))
  {
    var t := ToLower(topLabel);
    FourRules(LabelRules, t);
    MentionsTwo(t, "harassment", "intimidation");
    MentionsTwo(t, "assault", "violence");
    MentionsTwo(t, "lighting", "visibility");
    MentionsTwo(t, "suspicious", "behavior");
  }

  /** The fallback if-chain is the keyword table read in order. */
  lemma FallbackMatchesTable(description: string)
    ensures FallbackCategory(description) == FirstMatchingRule(KeywordRules, ToLower(description))
  {
    var t := ToLower(description);
    FourRules(KeywordRules, t);
    MentionsThree(t, "harass", "intimidat", "threaten");
    MentionsFour(t, "assault", "attack", "hit", "fight");
    MentionsThree(t, "light", "dark", "visibility");
    MentionsThree(t, "suspicious", "strange", "weird");
  }

  /** The fallback's fixed precedence Harassment, Assault, Lighting Issue,
      Suspicious Behavior, Other: each category is chosen exactly when one of
      its stems occurs and no stem of an earlier category does. */
  lemma FallbackPrecedence(description: string)
    ensures var t := ToLower(description);
      var h := MentionsAny(t, ["harass", "intimidat", "threaten"]);
      var a := MentionsAny(t, ["assault", "attack", "hit", "fight"]);
      var l := MentionsAny(t, ["light", "dark", "visibility"]);
      var s := MentionsAny(t, ["suspicious", "strange", "weird"]);
      var c := FallbackCategory(description);
      && (c == Harassment <==> h)
      && (c == Assault <==> !h && a)
      && (c == LightingIssue <==> !h && !a && l)
      && (c == SuspiciousBehavior <==> !h && !a && !l && s)
      && (c == Other <==> !h && !a && !l && !s)
  {
    var t := ToLower(description);
    MentionsThree(t, "harass", "intimidat", "threaten");
    MentionsFour(t, "assault", "attack", "hit", "fight");
    MentionsThree(t, "light", "dark", "visibility");
    MentionsThree(t, "suspicious", "strange", "weird");
  }

  /** The same precedence for the label mapping of the primary path. */
  lemma LabelPrecedence(topLabel: string)
    ensures var t := ToLower(topLabel);
      var h := MentionsAny(t, ["harassment", "intimidation"]);
      var a := MentionsAny(t, ["assault", "violence"]);
      var l := MentionsAny(t, ["lighting", "visibility"]);
      var s := MentionsAny(t, ["suspicious", "behavior"]);
      var c := LabelCategory(topLabel);
      && (c == Harassment <==> h)
      && (c == Assault <==> !h && a)
      && (c == LightingIssue <==> !h && !a && l)
      && (c == SuspiciousBehavior <==> !h && !a && !l && s)
      && (c == Other <==> !h && !a && !l && !s)
  {
    var t := ToLower(topLabel);
    MentionsTwo(t, "harassment", "intimidation");
    MentionsTwo(t, "assault", "violence");
    MentionsTwo(t, "lighting", "visibility");
    MentionsTwo(t, "suspicious", "behavior");
  }

  /** No upper-case ASCII letter: text that `toLowerCase` leaves alone. */
  predicate NoUpper(s: string) {
    forall k :: 0 <= k < |s| ==> !('A' <= s[k] <= 'Z')
  }

  /** On lower-case text, Lighting Issue is chosen when "lighting" occurs
      and no Harassment or Assault word does. */
  lemma LabelLightingWhen(l: string)
    requires NoUpper(l)
    requires !Contains(l, "harassment") && !Contains(l, "intimidation")
    requires !Contains(l, "assault") && !Contains(l, "violence")
    requires Contains(l, "lighting")
    ensures LabelCategory(l) == LightingIssue
  {
    ToLowerOfLower(l);
  }

  /** On lower-case text, Suspicious Behavior is chosen when "suspicious"
      occurs and no word of an earlier rule does. */
  lemma LabelSuspiciousWhen(l: string)
    requires NoUpper(l)
    requires !Contains(l, "harassment") && !Contains(l, "intimidation")
    requires !Contains(l, "assault") && !Contains(l, "violence")
    requires !Contains(l, "lighting") && !Contains(l, "visibility")
    requires Contains(l, "suspicious")
    ensures LabelCategory(l) == SuspiciousBehavior
  {
    ToLowerOfLower(l);
  }

  /** On lower-case text without any label word, the mapping gives Other. */
  lemma LabelOtherWhen(l: string)
    requires NoUpper(l)
    requires !Contains(l, "harassment") && !Contains(l, "intimidation")
    requires !Contains(l, "assault") && !Contains(l, "violence")
    requires !Contains(l, "lighting") && !Contains(l, "visibility")
    requires !Contains(l, "suspicious") && !Contains(l, "behavior")
    ensures LabelCategory(l) == Other
  {
    ToLowerOfLower(l);
  }

  lemma HarassmentLabel(l: string)
    requires l == "harassment or intimidation"
    ensures LabelCategory(l) == Harassment
  {
    ToLowerOfLower(l);
    ContainsAt(l, "harassment", 0);
  }

  lemma AssaultLabel(l: string)
    requires l == "assault or violence"
    ensures LabelCategory(l) == Assault
  {
    ToLowerOfLower(l);
    var ns := ["harassment", "intimidation"];
    MissingChars(l, ns, ['h', 'm']);
    assert ns[0] == "harassment" && ns[1] == "intimidation";
    ContainsAt(l, "assault", 0);
  }

  lemma LightingLabel(l: string)
    requires l == "poor lighting or visibility issue"
    ensures LabelCategory(l) == LightingIssue
  {
    assert NoUpper(l);
    LightingLabelWords(l);
    ContainsAt(l, "lighting", 5);
    LabelLightingWhen(l);
  }

  /** Which label words occur in the Lighting Issue phrase. */
  lemma LightingLabelWords(l: string)
    requires l == "poor lighting or visibility issue"
    ensures !Contains(l, "harassment") && !Contains(l, "intimidation")
    ensures !Contains(l, "assault") && !Contains(l, "violence")
  {
    var ns := ["harassment", "intimidation", "assault", "violence"];
    MissingChars(l, ns, ['m', 'm', 'a', 'c']);
    assert ns[0] == "harassment" && ns[1] == "intimidation" && ns[2] == "assault" && ns[3] == "violence";
  }

  lemma SuspiciousLabel(l: string)
    requires l == "suspicious behavior or activity"
    ensures LabelCategory(l) == SuspiciousBehavior
  {
    assert NoUpper(l);
    SuspiciousLabelWords(l);
    ContainsAt(l, "suspicious", 0);
    LabelSuspiciousWhen(l);
  }

  /** Which label words occur in the Suspicious Behavior phrase. */
  lemma SuspiciousLabelWords(l: string)
    requires l == "suspicious behavior or activity"
    ensures !Contains(l, "harassment") && !Contains(l, "intimidation")
    ensures !Contains(l, "assault") && !Contains(l, "violence")
    ensures !Contains(l, "lighting") && !Contains(l, "visibility")
  {
    var ns := ["harassment", "intimidation", "assault", "violence", "lighting", "visibility"];
    MissingChars(l, ns, ['m', 'm', 'l', 'l', 'l', 'l']);
    assert ns[0] == "harassment" && ns[1] == "intimidation" && ns[2] == "assault" && ns[3] == "violence";
    assert ns[4] == "lighting" && ns[5] == "visibility";
  }

  lemma OtherLabel(l: string)
    requires l == "other safety concern"
    ensures LabelCategory(l) == Other
  {
    assert NoUpper(l);
    OtherLabelWords(l);
    LabelOtherWhen(l);
  }

  /** No label word occurs in the Other phrase. */
  lemma OtherLabelWords(l: string)
    requires l == "other safety concern"
    ensures !Contains(l, "harassment") && !Contains(l, "intimidation")
    ensures !Contains(l, "assault") && !Contains(l, "violence")
    ensures !Contains(l, "lighting") && !Contains(l, "visibility")
    ensures !Contains(l, "suspicious") && !Contains(l, "behavior")
  {
    var ns := ["harassment", "intimidation", "assault", "violence", "lighting", "visibility", "suspicious", "behavior"];
    MissingChars(l, ns, ['m', 'm', 'u', 'v', 'l', 'v', 'u', 'b']);
    assert ns[0] == "harassment" && ns[1] == "intimidation" && ns[2] == "assault" && ns[3] == "violence";
    assert ns[4] == "lighting" && ns[5] == "visibility" && ns[6] == "suspicious" && ns[7] == "behavior";
  }

  /** Each of the five label phrases offered to the classifier comes back as
      its own category. */
  lemma CandidateLabelsMapToOwnCategory()
    ensures forall i :: 0 <= i < |CandidateLabels| ==> LabelCategory(CandidateLabels[i]) == AllCategories[i]
  {
    HarassmentLabel(CandidateLabels[0]);
    AssaultLabel(CandidateLabels[1]);
    LightingLabel(CandidateLabels[2]);
    SuspiciousLabel(CandidateLabels[3]);
    OtherLabel(CandidateLabels[4]);
  }

  /** A description with a Harassment stem is Harassment even when it also
      mentions a weapon. */
  lemma FallbackThreatenedIsHarassment(d: string)
    requires d == "threatened me at gunpoint"
    ensures FallbackCategory(d) == Harassment
  {
    ToLowerOfLower(d);
    ContainsAt(d, "threaten", 0);
  }

  /** Stems match inside longer words: "white" holds "hit". */
  lemma FallbackWhiteCarIsAssault(d: string)
    requires d == "white car"
    ensures FallbackCategory(d) == Assault
  {
    ToLowerOfLower(d);
    var ns := ["harass", "intimidat", "threaten"];
    MissingChars(d, ns, ['s', 'm', 'n']);
    assert ns[0] == "harass" && ns[1] == "intimidat" && ns[2] == "threaten";
    ContainsAt(d, "hit", 1);
  }

  /** "flight" holds "light", and neither "hit" nor "fight". */
  lemma FallbackFlightIsLightingIssue(d: string)
    requires d == "flight"
    ensures FallbackCategory(d) == LightingIssue
  {
    ToLowerOfLower(d);
    var ns := ["harass", "intimidat", "threaten", "assault", "attack"];
    MissingChars(d, ns, ['a', 'm', 'r', 'a', 'a']);
    assert ns[0] == "harass" && ns[1] == "intimidat" && ns[2] == "threaten" && ns[3] == "assault" && ns[4] == "attack";
    NotContainsByFirstChar(d, "hit");
    assert !OccursAt(d, "fight", 0) by {
      assert d[0..5][1] != "fight"[1];
    }
    NotContainsByFirstChar(d, "fight");
    ContainsAt(d, "light", 1);
  }

  /** An empty description mentions nothing. */
  lemma FallbackEmptyIsOther(d: string)
    requires d == ""
    ensures FallbackCategory(d) == Other
  {
  }
}
