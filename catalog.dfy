/**
 * The static configuration of the wizard: the three qualification questions,
 * the six countries with their dialing prefixes and phone rules, and the
 * blocklist of consumer e-mail providers.
 */
module Catalog {
  import opened Options
  import opened Text

  /** One option of a question; `requiresText` asks for a free-text supplement. */
  datatype Choice = Choice(value: string, requiresText: bool)

  /** A single-choice, required question. Labels are display copy and are not modelled. */
  datatype Question = Question(id: string, choices: seq<Choice>)

  const Questions: seq<Question> := [
    Question("industria", [
      Choice("produccion", false),
      Choice("distribucion", false),
      Choice("retail", false),
      Choice("servicios", false),
      Choice("inmobiliaria_desarrollo", false),
      Choice("restaurante", false),
      Choice("otro", true)]),
    Question("erp", [
      Choice("sapb1", false),
      Choice("sistema_propio", false),
      Choice("erp_otro", true)]),
    Question("busca", [
      Choice("sistema", true),
      Choice("servicio", true)])
  ]

  /** `QUESTIONS.find(q => q.id === qid)`: the first question with that identifier. */
  function FindQuestion(qs: seq<Question>, qid: string): (r: Option<Question>)
    ensures r.Some? ==> r.value in qs && r.value.id == qid
    ensures r.None? <==> forall i :: 0 <= i < |qs| ==> qs[i].id != qid
  {
    if qs == [] then None
    else if qs[0].id == qid then Some(qs[0])
    else FindQuestion(qs[1..], qid)
  }

  /** `q.options.find(o => o.value === v)`: the first option with that value. */
  function FindChoice(cs: seq<Choice>, v: string): (r: Option<Choice>)
    ensures r.Some? ==> r.value in cs && r.value.value == v
    ensures r.None? <==> forall i :: 0 <= i < |cs| ==> cs[i].value != v
  {
    if cs == [] then None
    else if cs[0].value == v then Some(cs[0])
    else FindChoice(cs[1..], v)
  }

  predicate IsQuestionId(qid: string) {
    FindQuestion(Questions, qid).Some?
  }

  /** The identifiers of the question table. */
  const QuestionIds: set<string> := {"industria", "erp", "busca"}

  /** The table names exactly three questions. */
  lemma QuestionIdsAre(qid: string)
    ensures IsQuestionId(qid) <==> qid in QuestionIds
  {
  }

  /** No two questions share an identifier, and within a question no two options share a value. */
  lemma QuestionTableDistinct()
    ensures forall i, j :: 0 <= i < j < |Questions| ==> Questions[i].id != Questions[j].id
    ensures forall q, i, j :: q in Questions && 0 <= i < j < |q.choices| ==> q.choices[i].value != q.choices[j].value
  {
  }

  /** The texts of the six listed codes. */
  const ListedCodeTexts: set<string> := {"GT", "SV", "HN", "PA", "DO", "EC"}

  /**
   * The property names every plain object literal inherits from
   * `Object.prototype`: looking one of them up in the prefix or rule table
   * finds the inherited member instead of `undefined`.
   */
  const InheritedNames: set<string> := {
    "constructor", "hasOwnProperty", "isPrototypeOf", "propertyIsEnumerable",
    "toLocaleString", "toString", "valueOf", "__proto__",
    "__defineGetter__", "__defineSetter__", "__lookupGetter__", "__lookupSetter__"
  }

  /** A code text that no table of the page has an entry for, own or inherited. */
  type UnlistedText = t: string | t !in ListedCodeTexts && t !in InheritedNames witness ""

  /**
   * A country code. The six listed codes are the `CountryValue` union;
   * `Unlisted` stands for another text reaching the form through the
   * unchecked `as CountryValue` cast of the select's value, one for which
   * every table lookup is `undefined`.
   */
  datatype CountryCode = GT | SV | HN | PA | DO | EC | Unlisted(text: UnlistedText)

  /** The code as the form holds it. */
  function CodeText(c: CountryCode): string {
    match c
    case GT => "GT"
    case SV => "SV"
    case HN => "HN"
    case PA => "PA"
    case DO => "DO"
    case EC => "EC"
    case Unlisted(t) => t
  }

  /** Each code has its own text, so the form's value determines the code. */
  lemma CodeTextInjective(a: CountryCode, b: CountryCode)
    ensures CodeText(a) == CodeText(b) <==> a == b
    ensures CodeText(a) in ListedCodeTexts <==> !a.Unlisted?
  {
  }

  datatype Country = Country(code: CountryCode, name: string)

  const Countries: seq<Country> := [
    Country(GT, "Guatemala"),
    Country(SV, "El Salvador"),
    Country(HN, "Honduras"),
    Country(PA, "Panamá"),
    Country(DO, "República Dominicana"),
    Country(EC, "Ecuador")
  ]

  const CountryPrefix: map<CountryCode, string> := map[
    GT := "+502",
    SV := "+503",
    HN := "+504",
    PA := "+507",
    DO := "+1",
    EC := "+593"
  ]

  /** A phone rule: a minimum digit count, an optional maximum and an optional note. */
  datatype PhoneRule = PhoneRule(min: nat, max: Option<nat>, note: Option<string>)

  const MobileNote: string := "Usa tu número móvil (9 dígitos)"

  const DefaultPrefix: string := "+502"

  /** Minimum digit count used when a country has no rule. */
  const FallbackMinDigits: nat := 8

  const FreeEmailDomains: seq<string> := [
    "gmail.com",
    "hotmail.com",
    "outlook.com",
    "yahoo.com",
    "icloud.com",
    "proton.me",
    "aol.com",
    "live.com",
    "msn.com"
  ]

  /** `COUNTRY_PREFIX[c] ?? DEFAULT_PREFIX`: a `+` followed by the country's calling code. */
  function Prefix(country: CountryCode): (r: string)
    ensures |r| >= 2 && r[0] == '+' && AllDigits(r[1..])
    ensures country.Unlisted? ==> r == DefaultPrefix
  {
    if country in CountryPrefix then CountryPrefix[country] else DefaultPrefix
  }

  /**
   * `COUNTRY_PHONE_RULES[c]`: the phone rule table, keyed by the six listed
   * codes and absent for any other code.
   */
  function RuleFor(country: CountryCode): Option<PhoneRule> {
    match country
    case GT => Some(PhoneRule(8, None, None))
    case SV => Some(PhoneRule(8, None, None))
    case HN => Some(PhoneRule(8, None, None))
    case PA => Some(PhoneRule(8, None, None))
    case DO => Some(PhoneRule(10, None, None))
    case EC => Some(PhoneRule(9, None, Some(MobileNote)))
    case Unlisted(_) => None
  }

  /**
   * `COUNTRIES.find(c => c.value === code)?.label || code`: the display label,
   * or the code's own text when the code is unlisted or its label is empty.
   */
  function CountryLabel(code: CountryCode): (r: string)
    ensures forall i :: 0 <= i < |Countries| && Countries[i].code == code ==> r == Countries[i].name
    ensures code.Unlisted? ==> r == code.text
  {
    LabelIn(Countries, code)
  }

  function LabelIn(cs: seq<Country>, code: CountryCode): (r: string)
    requires forall i, j :: 0 <= i < j < |cs| ==> cs[i].code != cs[j].code
    ensures forall i :: 0 <= i < |cs| && cs[i].code == code && cs[i].name != "" ==> r == cs[i].name
    ensures forall i :: 0 <= i < |cs| && cs[i].code == code && cs[i].name == "" ==> r == CodeText(code)
    ensures (forall i :: 0 <= i < |cs| ==> cs[i].code != code) ==> r == CodeText(code)
  {
    if cs == [] then CodeText(code)
    else if cs[0].code == code then (if cs[0].name != "" then cs[0].name else CodeText(code))
    else LabelIn(cs[1..], code)
  }

  /** The three tables are keyed by the same six country codes. */
  lemma CountryTablesAgree(c: CountryCode)
    ensures c in CountryPrefix <==> !c.Unlisted?
    ensures RuleFor(c).Some? <==> !c.Unlisted?
    ensures (exists i :: 0 <= i < |Countries| && Countries[i].code == c) <==> !c.Unlisted?
  {
    if !c.Unlisted? {
      var i := match c case GT => 0 case SV => 1 case HN => 2 case PA => 3 case DO => 4 case EC => 5;
      assert Countries[i].code == c;
    }
  }

  /** Every consumer domain in the blocklist is a non-empty trimmed text. */
  lemma FreeEmailDomainsTrimmed()
    ensures forall i :: 0 <= i < |FreeEmailDomains| ==>
      var d := FreeEmailDomains[i];
      d != [] && !IsJsWhitespace(d[0]) && !IsJsWhitespace(d[|d| - 1])
  {
  }
}
