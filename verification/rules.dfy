/**
 * The visitor-targeting rule interpreter: one rule (`checkRule`) and a rule list
 * (`checkRules`) evaluated against a visitor's browser, visit count and location.
 */
module Rules {
  import opened Outcomes
  import opened JsValues

  /** The context fields a rule can test; any other kind name selects nothing. */
  datatype Kind = BrowserLanguage | CurrentPageUrl | City | Country | NumberOfVisits | OtherKind

  /** The eight recognised conditions; any other condition name is OtherCondition. */
  datatype Condition =
    | Is | IsNot | IsUnknown | HasAnyValue | StartsWith | EndsWith | GreaterThan | LessThan
    | OtherCondition

  /** Classifies a rule's `kind` string the way the chain of `===` tests does. */
  function KindOf(name: string): (k: Kind)
    ensures k == BrowserLanguage <==> name == "browserLanguage"
    ensures k == CurrentPageUrl <==> name == "currentPageUrl"
    ensures k == City <==> name == "city"
    ensures k == Country <==> name == "country"
    ensures k == NumberOfVisits <==> name == "numberOfVisits"
    ensures k == OtherKind <==>
              name !in {"browserLanguage", "currentPageUrl", "city", "country", "numberOfVisits"}
  {
    if name == "browserLanguage" then BrowserLanguage
    else if name == "currentPageUrl" then CurrentPageUrl
    else if name == "city" then City
    else if name == "country" then Country
    else if name == "numberOfVisits" then NumberOfVisits
    else OtherKind
  }

  /** Classifies a rule's `condition` string the way the chain of `===` tests does. */
  function ConditionOf(name: string): (c: Condition)
    ensures c == Is <==> name == "is"
    ensures c == IsNot <==> name == "isNot"
    ensures c == IsUnknown <==> name == "isUnknown"
    ensures c == HasAnyValue <==> name == "hasAnyValue"
    ensures c == StartsWith <==> name == "startsWith"
    ensures c == EndsWith <==> name == "endsWith"
    ensures c == GreaterThan <==> name == "greaterThan"
    ensures c == LessThan <==> name == "lessThan"
    ensures c == OtherCondition <==>
              name !in {"is", "isNot", "isUnknown", "hasAnyValue",
                        "startsWith", "endsWith", "greaterThan", "lessThan"}
  {
    if name == "is" then Is
    else if name == "isNot" then IsNot
    else if name == "isUnknown" then IsUnknown
    else if name == "hasAnyValue" then HasAnyValue
    else if name == "startsWith" then StartsWith
    else if name == "endsWith" then EndsWith
    else if name == "greaterThan" then GreaterThan
    else if name == "lessThan" then LessThan
    else OtherCondition
  }

  /** A targeting rule as stored on an engage message. */
  datatype Rule = Rule(kind: string, condition: string, value: Value)

  /** What the messenger widget reports about the visitor's browser. */
  datatype BrowserInfo = BrowserInfo(language: Option<string>, url: Option<string>)

  /** The geolocation of the visitor's address; either part may be missing. */
  datatype Location = Location(city: Option<string>, country: Option<string>)

  /** Why the location lookup failed (network error or malformed response). */
  datatype LookupFailure = LookupFailure

  /** The visitor snapshot one rule is evaluated against. */
  datatype Context = Context(browser: BrowserInfo, numberOfVisits: int, location: Location)

  /** The exception `valueToTest.startsWith(...)` raises when the field is not a string. */
  datatype Fault = TypeError

  function ValueOf(o: Option<string>): Value {
    match o
    case Some(s) => Str(s)
    case None => Undef
  }

  /** The field `valueToTest` a rule of the given kind is compared against. */
  function FieldOf(kind: Kind, ctx: Context): (v: Value)
    ensures kind == BrowserLanguage ==> v == ValueOf(ctx.browser.language)
    ensures kind == CurrentPageUrl ==> v == ValueOf(ctx.browser.url)
    ensures kind == City ==> v == ValueOf(ctx.location.city)
    ensures kind == Country ==> v == ValueOf(ctx.location.country)
    ensures kind == NumberOfVisits <==> v.Num?
    ensures kind == OtherKind ==> v == Undef
    ensures v.Num? ==> v.n == ctx.numberOfVisits
  {
    match kind
    case BrowserLanguage => ValueOf(ctx.browser.language)
    case CurrentPageUrl => ValueOf(ctx.browser.url)
    case City => ValueOf(ctx.location.city)
    case Country => ValueOf(ctx.location.country)
    case NumberOfVisits => Num(ctx.numberOfVisits)
    case OtherKind => Undef
  }

  /** A rule value the field of this kind can be ordered against without coercion. */
  predicate FitsKind(kind: Kind, v: Value) {
    match kind
    case NumberOfVisits => !v.Str?
    case OtherKind => true
    case _ => !v.Num?
  }

  /**
   * The rules this model covers: prefix/suffix tests take a string value, and ordering
   * tests compare a field with a value of its own type (or `undefined`).
   */
  predicate WellTyped(rule: Rule) {
    var c := ConditionOf(rule.condition);
    && (c == StartsWith || c == EndsWith ==> rule.value.Str?)
    && (c == GreaterThan || c == LessThan ==> FitsKind(KindOf(rule.kind), rule.value))
  }

  predicate AllWellTyped(rules: seq<Rule>) {
    forall rule | rule in rules :: WellTyped(rule)
  }

  /** JavaScript `String.prototype.endsWith`. */
  predicate IsSuffix(suffix: string, s: string) {
    |suffix| <= |s| && s[|s| - |suffix|..] == suffix
  }

  /**
   * One rule against one visitor. Each condition rejects only on its own mismatch and
   * everything else passes; prefix and suffix tests throw on a field that is not a string.
   */
  function CheckRule(rule: Rule, ctx: Context): (r: Result<bool, Fault>)
    requires WellTyped(rule)
    ensures r.Err? <==>
              (ConditionOf(rule.condition) == StartsWith || ConditionOf(rule.condition) == EndsWith)
              && !FieldOf(KindOf(rule.kind), ctx).Str?
    ensures ConditionOf(rule.condition) == OtherCondition ==> r == Ok(true)
  {
    var field := FieldOf(KindOf(rule.kind), ctx);
    var value := rule.value;
    match ConditionOf(rule.condition)
    case Is => Ok(field == value)
    case IsNot => Ok(field != value)
    case IsUnknown => Ok(!Truthy(field))
    case HasAnyValue => Ok(Truthy(field))
    case StartsWith => if field.Str? then Ok(value.s <= field.s) else Err(TypeError)
    case EndsWith => if field.Str? then Ok(IsSuffix(value.s, field.s)) else Err(TypeError)
    case GreaterThan => Ok(!JsLess(field, value))
    case LessThan => Ok(!JsLess(value, field))
    case OtherCondition => Ok(true)
  }

  /**
   * The `forEach` over a rule list with the flag `passed`: a rule that fails clears the
   * flag but iteration goes on, and a rule that throws abandons the whole list.
   */
  function EveryRule(rules: seq<Rule>, ctx: Context, passed: bool): (r: Option<bool>)
    requires AllWellTyped(rules)
    ensures r.None? <==> exists rule | rule in rules :: CheckRule(rule, ctx).Err?
    ensures r.Some? ==>
              (r.value <==> passed && forall rule | rule in rules :: CheckRule(rule, ctx) == Ok(true))
    decreases |rules|
  {
    if |rules| == 0 then Some(passed)
    else
      assert rules == [rules[0]] + rules[1..];
      match CheckRule(rules[0], ctx)
      case Err(_) => None
      case Ok(b) => EveryRule(rules[1..], ctx, passed && b)
  }

  /**
   * Whether the visitor satisfies a rule list. `None` is the `undefined` the promise
   * settles to when the location lookup failed or a rule threw.
   */
  function CheckRules(rules: seq<Rule>, browser: BrowserInfo, numberOfVisits: int,
                      location: Result<Location, LookupFailure>): (r: Option<bool>)
    requires AllWellTyped(rules)
    ensures location.Err? ==> r.None?
    ensures location.Ok? ==>
              var ctx := Context(browser, numberOfVisits, location.value);
              && (r.None? <==> exists rule | rule in rules :: CheckRule(rule, ctx).Err?)
              && (r == Some(true) <==> forall rule | rule in rules :: CheckRule(rule, ctx) == Ok(true))
  {
    match location
    case Err(_) => None
    case Ok(loc) => EveryRule(rules, Context(browser, numberOfVisits, loc), true)
  }

  // ---------------------------------------------------------------------------
  // Properties of single conditions
  // ---------------------------------------------------------------------------

  /** `isUnknown` passes exactly on a falsy field and `hasAnyValue` exactly on a truthy one. */
  lemma UnknownAndAnyValueAreComplementary(kind: string, v1: Value, v2: Value, ctx: Context)
    ensures CheckRule(Rule(kind, "isUnknown", v1), ctx) == Ok(!Truthy(FieldOf(KindOf(kind), ctx)))
    ensures CheckRule(Rule(kind, "hasAnyValue", v2), ctx) == Ok(Truthy(FieldOf(KindOf(kind), ctx)))
    ensures CheckRule(Rule(kind, "isUnknown", v1), ctx) != CheckRule(Rule(kind, "hasAnyValue", v2), ctx)
  {
  }

  /** `is` is JavaScript strict equality (same type, same value) and `isNot` its negation. */
  lemma IsNotNegatesIs(kind: string, value: Value, ctx: Context)
    ensures CheckRule(Rule(kind, "is", value), ctx) == Ok(FieldOf(KindOf(kind), ctx) == value)
    ensures CheckRule(Rule(kind, "isNot", value), ctx).Ok?
    ensures CheckRule(Rule(kind, "isNot", value), ctx).value
              == !CheckRule(Rule(kind, "is", value), ctx).value
    ensures value.Str? && KindOf(kind) == NumberOfVisits ==> CheckRule(Rule(kind, "is", value), ctx) == Ok(false)
  {
  }

  /**
   * `greaterThan` rejects only when the field is below the value, so it means "at least":
   * an equal field passes and an `undefined` field passes.
   */
  lemma GreaterThanMeansAtLeast(kind: string, value: Value, ctx: Context)
    requires FitsKind(KindOf(kind), value)
    ensures var field := FieldOf(KindOf(kind), ctx);
            && CheckRule(Rule(kind, "greaterThan", value), ctx) == Ok(!JsLess(field, value))
            && (field == value || field.Undef? || value.Undef? ==>
                  CheckRule(Rule(kind, "greaterThan", value), ctx) == Ok(true))
            && ((field.Str? && value.Str?) || (field.Num? && value.Num?) ==>
                  (CheckRule(Rule(kind, "greaterThan", value), ctx) == Ok(true)
                   <==> field == value || JsLess(value, field)))
  {
    var field := FieldOf(KindOf(kind), ctx);
    if (field.Str? && value.Str?) || (field.Num? && value.Num?) {
      JsLessTrichotomy(field, value);
    } else if field == value && !field.Undef? {
      JsLessTrichotomy(field, value);
    }
  }

  /** `lessThan` rejects only when the field is above the value, so it means "at most". */
  lemma LessThanMeansAtMost(kind: string, value: Value, ctx: Context)
    requires FitsKind(KindOf(kind), value)
    ensures var field := FieldOf(KindOf(kind), ctx);
            && CheckRule(Rule(kind, "lessThan", value), ctx) == Ok(!JsLess(value, field))
            && (field == value || field.Undef? || value.Undef? ==>
                  CheckRule(Rule(kind, "lessThan", value), ctx) == Ok(true))
            && ((field.Str? && value.Str?) || (field.Num? && value.Num?) ==>
                  (CheckRule(Rule(kind, "lessThan", value), ctx) == Ok(true)
                   <==> field == value || JsLess(field, value)))
  {
    var field := FieldOf(KindOf(kind), ctx);
    if (field.Str? && value.Str?) || (field.Num? && value.Num?) {
      JsLessTrichotomy(field, value);
    } else if field == value && !field.Undef? {
      JsLessTrichotomy(field, value);
    }
  }

  /** A condition name outside the eight passes whatever the field and value are. */
  lemma UnrecognisedConditionPasses(rule: Rule, ctx: Context)
    requires rule.condition !in {"is", "isNot", "isUnknown", "hasAnyValue",
                                 "startsWith", "endsWith", "greaterThan", "lessThan"}
    ensures WellTyped(rule) && CheckRule(rule, ctx) == Ok(true)
  {
  }

  /** A kind name outside the five leaves the field `undefined`. */
  lemma UnrecognisedKindIsUndefined(kind: string, value: Value, ctx: Context)
    requires kind !in {"browserLanguage", "currentPageUrl", "city", "country", "numberOfVisits"}
    ensures CheckRule(Rule(kind, "isUnknown", value), ctx) == Ok(true)
    ensures CheckRule(Rule(kind, "hasAnyValue", value), ctx) == Ok(false)
    ensures CheckRule(Rule(kind, "is", value), ctx) == Ok(value.Undef?)
    ensures CheckRule(Rule(kind, "greaterThan", value), ctx) == Ok(true)
    ensures CheckRule(Rule(kind, "lessThan", value), ctx) == Ok(true)
    ensures value.Str? ==> CheckRule(Rule(kind, "startsWith", value), ctx) == Err(TypeError)
  {
  }

  /**
   * On a string field `startsWith`/`endsWith` pass exactly when the value is a prefix/suffix;
   * on any other field they throw.
   */
  lemma PrefixSuffixConditions(kind: string, value: string, ctx: Context)
    ensures var field := FieldOf(KindOf(kind), ctx);
            && (field.Str? ==>
                  && CheckRule(Rule(kind, "startsWith", Str(value)), ctx)
                       == Ok(exists t :: field.s == value + t)
                  && CheckRule(Rule(kind, "endsWith", Str(value)), ctx)
                       == Ok(exists t :: field.s == t + value))
            && (!field.Str? ==>
                  && CheckRule(Rule(kind, "startsWith", Str(value)), ctx) == Err(TypeError)
                  && CheckRule(Rule(kind, "endsWith", Str(value)), ctx) == Err(TypeError))
  {
    var field := FieldOf(KindOf(kind), ctx);
    if field.Str? {
      var s := field.s;
      if value <= s {
        assert s == value + s[|value|..];
      }
      if exists t :: s == value + t {
        var t :| s == value + t;
        assert s[..|value|] == value;
      }
      if IsSuffix(value, s) {
        assert s == s[..|s| - |value|] + value;
      }
      if exists t :: s == t + value {
        var t :| s == t + value;
        assert s[|s| - |value|..] == value;
      }
    }
  }

  // ---------------------------------------------------------------------------
  // Properties of rule lists
  // ---------------------------------------------------------------------------

  /** An empty rule list passes once the location is known, and never when it is not. */
  lemma EmptyRuleList(browser: BrowserInfo, numberOfVisits: int,
                      location: Result<Location, LookupFailure>)
    ensures CheckRules([], browser, numberOfVisits, location) == if location.Ok? then Some(true) else None
  {
  }

  /**
   * A rule that throws makes the whole list "not passed" (`undefined`), even when an
   * earlier rule already failed.
   */
  lemma ThrowingRuleSpoilsList(rules: seq<Rule>, i: nat, browser: BrowserInfo,
                               numberOfVisits: int, location: Location)
    requires AllWellTyped(rules)
    requires i < |rules|
    requires CheckRule(rules[i], Context(browser, numberOfVisits, location)).Err?
    ensures CheckRules(rules, browser, numberOfVisits, Ok(location)) == None
  {
  }

  /** The verdict on a rule list depends only on which rules it holds, not on their order. */
  lemma {:induction false} CheckRulesOrderIrrelevant(rules: seq<Rule>, reordered: seq<Rule>,
                                                     browser: BrowserInfo, numberOfVisits: int,
                                                     location: Result<Location, LookupFailure>)
    requires AllWellTyped(rules)
    requires multiset(rules) == multiset(reordered)
    ensures AllWellTyped(reordered)
    ensures CheckRules(rules, browser, numberOfVisits, location)
            == CheckRules(reordered, browser, numberOfVisits, location)
  {
    forall rule
      ensures rule in rules <==> rule in reordered
    {
      calc {
        rule in rules;
        rule in multiset(rules);
        rule in multiset(reordered);
        rule in reordered;
      }
    }
  }

  // ---------------------------------------------------------------------------
  // Worked scenarios
  // ---------------------------------------------------------------------------

  lemma LanguageScenario(url: Option<string>, visits: int, location: Location)
    ensures CheckRule(Rule("browserLanguage", "is", Str("en")),
                      Context(BrowserInfo(Some("en"), url), visits, location)) == Ok(true)
  {
  }

  lemma VisitCountScenario(browser: BrowserInfo, location: Location)
    ensures CheckRule(Rule("numberOfVisits", "greaterThan", Num(3)), Context(browser, 5, location)) == Ok(true)
    ensures CheckRule(Rule("numberOfVisits", "greaterThan", Num(3)), Context(browser, 2, location)) == Ok(false)
    ensures CheckRule(Rule("numberOfVisits", "greaterThan", Num(3)), Context(browser, 3, location)) == Ok(true)
  {
  }
}
