/**
 * The validity rules of the contact step: the corporate-email blocklist, the
 * `text@text.text` shape test, the per-country phone rule, the submitted phone
 * string, the phone guidance message, and the gate from step 2 to step 3.
 */
module Validation {
  import opened Options
  import opened Text
  import opened Catalog

  /** The contact form: filled field by field in step 2; consent is ticked in step 3. */
  datatype Form = Form(
    name: string,
    company: string,
    role: string,
    email: string,
    country: CountryCode,
    consent: bool,
    phoneLocal: string)

  /** The form a session starts with: every text empty, Guatemala selected, no consent. */
  const InitialForm: Form := Form("", "", "", "", GT, false, "")

  // ---------------------------------------------------------------- e-mail

  /** `email.split("@").pop()`: the longest suffix of `s` that holds no `@` (all of `s` when it has none). */
  function AfterLastAt(s: string): (r: string)
    ensures '@' !in r
    ensures |r| <= |s| && r == s[|s| - |r|..]
    ensures |r| < |s| ==> s[|s| - |r| - 1] == '@'
    ensures '@' !in s ==> r == s
  {
    if s == [] then []
    else if s[|s| - 1] == '@' then []
    else
      var a := AfterLastAt(s[..|s| - 1]);
      assert s[..|s| - 1][|s| - 1 - |a|..] + [s[|s| - 1]] == s[|s| - 1 - |a|..];
      a + [s[|s| - 1]]
  }

  /** Whatever precedes the last `@`, the part after it is what the domain is read from. */
  lemma {:induction false} AfterLastAtOfAddress(p: string, d: string)
    requires '@' !in d
    ensures AfterLastAt(p + "@" + d) == d
  {
    var s := p + "@" + d;
    if d == [] {
      assert s[|s| - 1] == '@';
    } else {
      var d' := d[..|d| - 1];
      assert s[|s| - 1] == d[|d| - 1] != '@';
      assert s[..|s| - 1] == p + "@" + d';
      AfterLastAtOfAddress(p, d');
      assert AfterLastAt(s) == d' + [d[|d| - 1]];
      assert d == d' + [d[|d| - 1]];
    }
  }

  /** The domain as the source compares it: after the last `@`, lower-cased, trimmed. */
  function EmailDomain(email: string): string {
    Trim(LowerAscii(AfterLastAt(email)))
  }

  /** `isCorporateEmail`: the domain is non-empty and not a consumer provider. */
  predicate IsCorporateEmail(email: string) {
    var domain := EmailDomain(email);
    domain != [] && domain !in FreeEmailDomains
  }

  /** For an address `p@d`, the verdict depends only on `d`, whatever `p` holds (even more `@`s). */
  lemma CorporateEmailOfAddress(p: string, d: string)
    requires '@' !in d
    ensures IsCorporateEmail(p + "@" + d) <==>
      Trim(LowerAscii(d)) != [] && Trim(LowerAscii(d)) !in FreeEmailDomains
  {
    AfterLastAtOfAddress(p, d);
  }

  /** A text with no `@` is judged as a whole: the blocklist alone does not refuse it. */
  lemma CorporateEmailWithoutAt(e: string)
    requires '@' !in e
    ensures IsCorporateEmail(e) <==> Trim(LowerAscii(e)) != [] && Trim(LowerAscii(e)) !in FreeEmailDomains
  {
  }

  lemma {:induction false} LowerAsciiOfConcat(a: string, b: string)
    ensures LowerAscii(a + b) == LowerAscii(a) + LowerAscii(b)
  {
    if a != [] {
      assert (a + b)[0] == a[0] && (a + b)[1..] == a[1..] + b;
      LowerAsciiOfConcat(a[1..], b);
    } else {
      assert a + b == b;
    }
  }

  lemma LowerAsciiOfWhitespace(w: string)
    requires AllWhitespace(w)
    ensures LowerAscii(w) == w
  {
  }

  /**
   * A consumer provider is refused whatever its capitalisation, whatever
   * blanks surround it and whatever precedes the `@`.
   */
  lemma FreeProviderRefused(p: string, w1: string, u: string, w2: string)
    requires AllWhitespace(w1) && AllWhitespace(w2) && '@' !in u
    requires LowerAscii(u) in FreeEmailDomains
    ensures !IsCorporateEmail(p + "@" + (w1 + u + w2))
  {
    var d := w1 + u + w2;
    assert '@' !in d by {
      assert forall k :: 0 <= k < |w1| ==> w1[k] != '@';
      assert forall k :: 0 <= k < |w2| ==> w2[k] != '@';
    }
    CorporateEmailOfAddress(p, d);
    FreeEmailDomainsTrimmed();
    var i :| 0 <= i < |FreeEmailDomains| && FreeEmailDomains[i] == LowerAscii(u);
    TrimLowerPadded(w1, u, w2);
  }

  /** Lower-casing and trimming a padded text leaves the lower-cased text when its ends are not blank. */
  lemma TrimLowerPadded(w1: string, u: string, w2: string)
    requires AllWhitespace(w1) && AllWhitespace(w2)
    requires var l := LowerAscii(u); l == [] || (!IsJsWhitespace(l[0]) && !IsJsWhitespace(l[|l| - 1]))
    ensures Trim(LowerAscii(w1 + u + w2)) == LowerAscii(u)
  {
    LowerAsciiOfConcat(w1 + u, w2);
    LowerAsciiOfConcat(w1, u);
    LowerAsciiOfWhitespace(w1);
    LowerAsciiOfWhitespace(w2);
    TrimPadded(w1, LowerAscii(u), w2);
  }

  /** A text without upper-case letters is its own lower-case form. */
  lemma LowerOfLower(s: string)
    requires forall i :: 0 <= i < |s| ==> !('A' <= s[i] <= 'Z')
    ensures LowerAscii(s) == s
  {
  }

  /** A lower-case domain with non-blank ends that is not on the blocklist is accepted after any `@`. */
  lemma CompanyAddressAccepted(p: string, d: string)
    requires '@' !in d && d != [] && !IsJsWhitespace(d[0]) && !IsJsWhitespace(d[|d| - 1])
    requires LowerAscii(d) == d && d !in FreeEmailDomains
    ensures IsCorporateEmail(p + "@" + d)
  {
    CorporateEmailOfAddress(p, d);
    TrimOfTrimmed(d);
  }

  /** Example: upper case does not hide a consumer provider; the domain is a parameter to keep the proof small. */
  lemma UpperCaseProviderRefused(u: string)
    requires u == "GMAIL.COM"
    ensures !IsCorporateEmail("X@" + u)
  {
    assert LowerAscii(u) == "gmail.com";
    assert "X@" + u == "X" + "@" + ([] + u + []);
    FreeProviderRefused("X", [], u, []);
  }

  /** The example domain is its own lower-case form. */
  lemma EmpresaLower(d: string)
    requires d == "empresa.com"
    ensures LowerAscii(d) == d
  {
    LowerOfLower(d);
  }

  /** The example domain is unpadded, without `@` and not on the blocklist. */
  lemma EmpresaFacts(d: string)
    requires d == "empresa.com"
    ensures '@' !in d && d != [] && !IsJsWhitespace(d[0]) && !IsJsWhitespace(d[|d| - 1])
    ensures d !in FreeEmailDomains
  {
  }

  /** Example: a company domain passes; the domain is a parameter to keep the proof small. */
  lemma CompanyDomainAccepted(d: string)
    requires d == "empresa.com"
    ensures IsCorporateEmail("ana" + "@" + d)
  {
    EmpresaLower(d);
    EmpresaFacts(d);
    CompanyAddressAccepted("ana", d);
  }

  /** One position pair at which `/.+@.+\..+/` matches; `.` matches anything but a line terminator. */
  predicate ShapeAt(s: string, at: int, dot: int) {
    && 1 <= at && at + 2 <= dot && dot + 2 <= |s|
    && s[at] == '@' && s[dot] == '.'
    && !IsLineTerminator(s[at - 1]) && !IsLineTerminator(s[dot + 1])
    && forall k :: at < k < dot ==> !IsLineTerminator(s[k])
  }

  /** `/.+@.+\..+/.test(s)`: an unanchored search, so one matching `@`/`.` pair anywhere suffices. */
  predicate MatchesEmailShape(s: string) {
    exists at, dot | 0 <= at < dot < |s| :: ShapeAt(s, at, dot)
  }

  /** Every text that passes the shape test holds an `@` with text on both sides. */
  lemma EmailShapeNeedsAt(s: string)
    requires MatchesEmailShape(s)
    ensures exists at | 1 <= at < |s| - 1 :: s[at] == '@'
  {
  }

  /** `local@mid.top` passes the shape test whenever the three parts are non-empty single-line texts. */
  lemma EmailShapeOfParts(local: string, mid: string, top: string)
    requires local != [] && mid != [] && top != []
    requires forall k :: 0 <= k < |local| ==> !IsLineTerminator(local[k])
    requires forall k :: 0 <= k < |mid| ==> !IsLineTerminator(mid[k])
    requires forall k :: 0 <= k < |top| ==> !IsLineTerminator(top[k])
    ensures MatchesEmailShape(local + "@" + mid + "." + top)
  {
    var s := local + "@" + mid + "." + top;
    var at, dot := |local|, |local| + 1 + |mid|;
    assert s[at - 1] == local[|local| - 1];
    assert s[dot + 1] == top[0];
    assert forall k :: at < k < dot ==> s[k] == mid[k - at - 1];
    assert ShapeAt(s, at, dot);
  }

  /** A text without `@` clears the blocklist test yet never passes the shape test. */
  lemma NoAtSignPassesBlocklistOnly(e: string)
    requires '@' !in e
    requires Trim(LowerAscii(e)) != [] && Trim(LowerAscii(e)) !in FreeEmailDomains
    ensures IsCorporateEmail(e) && !MatchesEmailShape(e)
  {
    if MatchesEmailShape(e) {
      EmailShapeNeedsAt(e);
    }
  }

  // ---------------------------------------------------------------- phone

  /** `rule.max ? …`: a maximum applies only when present and non-zero. */
  predicate MaxIsSet(rule: PhoneRule) {
    rule.max.Some? && rule.max.value != 0
  }

  /** `rule.note ? …`: a note is shown only when present and non-empty. */
  predicate NoteIsSet(rule: PhoneRule) {
    rule.note.Some? && rule.note.value != ""
  }

  /** `isPhoneValid`: the digit count meets the country's rule, or at least 8 without a rule. */
  predicate IsPhoneValid(local: string, country: CountryCode) {
    var n := |Digits(local)|;
    match RuleFor(country)
    case None => n >= FallbackMinDigits
    case Some(rule) => n >= rule.min && (MaxIsSet(rule) ==> n <= rule.max.value)
  }

  /** The rule per country as digit-count thresholds: no country sets a maximum. */
  lemma PhoneRuleTable(local: string, country: CountryCode)
    ensures IsPhoneValid(local, country) <==> |Digits(local)| >= MinDigits(country)
  {
  }

  /** The minimum digit count the table sets for each country; 8 for an unlisted code. */
  function MinDigits(country: CountryCode): nat {
    match country
    case DO => 10
    case EC => 9
    case _ => 8
  }

  /** Separators typed between digits never change the verdict. */
  lemma PhoneSeparatorsIgnored(a: string, sep: string, b: string, country: CountryCode)
    requires forall k :: 0 <= k < |sep| ==> !IsDigit(sep[k])
    ensures IsPhoneValid(a + sep + b, country) == IsPhoneValid(a + b, country)
  {
    DigitsOfConcat(a + sep, b);
    DigitsOfConcat(a, sep);
    DigitsOfConcat(a, b);
  }

  /** A text of `n` digits is its own digit string. */
  lemma DigitCountOfDigits(s: string)
    requires AllDigits(s)
    ensures |Digits(s)| == |s|
  {
  }

  /** Examples: Ecuador needs nine digits, the Dominican Republic ten. */
  lemma PhoneExamples(eight: string)
    requires eight == "12345678"
    ensures !IsPhoneValid(eight, EC) && IsPhoneValid(eight + "9", EC)
    ensures !IsPhoneValid(eight + "9", DO) && IsPhoneValid(eight + "90", DO)
  {
    DigitCountOfDigits(eight);
    DigitCountOfDigits(eight + "9");
    DigitCountOfDigits(eight + "90");
  }

  /** `phoneFull`: the prefix alone when there are no digits, else prefix, one space, digits. */
  function PhoneFull(country: CountryCode, phoneLocal: string): (r: string)
    ensures |r| >= |Prefix(country)| && r[..|Prefix(country)|] == Prefix(country)
    ensures r == Prefix(country) <==> Digits(phoneLocal) == []
  {
    var local := Digits(phoneLocal);
    Prefix(country) + (if local != [] then " " + local else "")
  }

  /** Reads a submitted phone back: the text before the first space, and the rest after it. */
  function SplitAtSpace(s: string): (string, string) {
    if s == [] then ([], [])
    else if s[0] == ' ' then ([], s[1..])
    else
      var (a, b) := SplitAtSpace(s[1..]);
      ([s[0]] + a, b)
  }

  lemma {:induction false} SplitAtSpaceOf(x: string, y: string)
    requires ' ' !in x
    ensures SplitAtSpace(x + " " + y) == (x, y)
    ensures SplitAtSpace(x) == (x, [])
  {
    if x != [] {
      assert (x + " " + y)[0] == x[0] && (x + " " + y)[1..] == x[1..] + " " + y;
      SplitAtSpaceOf(x[1..], y);
      assert x == [x[0]] + x[1..];
    } else {
      assert x + " " + y == [' '] + y;
      assert ([' '] + y)[1..] == y;
    }
  }

  /** The submitted phone string is decoded back into the prefix and the stored digits. */
  lemma PhoneFullRoundTrip(country: CountryCode, phoneLocal: string)
    ensures SplitAtSpace(PhoneFull(country, phoneLocal)) == (Prefix(country), Digits(phoneLocal))
    ensures ' ' in PhoneFull(country, phoneLocal) <==> Digits(phoneLocal) != []
  {
    var p := Prefix(country);
    PrefixHasNoSpace(p);
    JoinSplit(p, Digits(phoneLocal));
  }

  /** Joining a text without spaces to an optional tail by one space is undone by `SplitAtSpace`. */
  lemma JoinSplit(p: string, local: string)
    requires ' ' !in p
    ensures SplitAtSpace(p + (if local != [] then " " + local else "")) == (p, local)
  {
    SplitAtSpaceOf(p, local);
    if local != [] {
      assert p + (" " + local) == p + " " + local;
    } else {
      assert p + "" == p;
    }
  }

  /** A `+` followed by digits holds no space. */
  lemma PrefixHasNoSpace(p: string)
    requires p != [] && p[0] == '+' && AllDigits(p[1..])
    ensures ' ' !in p
  {
    forall k | 0 <= k < |p|
      ensures p[k] != ' '
    {
      if k > 0 {
        assert p[k] == p[1..][k - 1];
      }
    }
  }

  /** Example: a blank number is sent as the bare prefix. */
  lemma PhoneFullBlank()
    ensures PhoneFull(GT, "") == "+502"
  {
  }

  /** Example: an eight-digit Panamanian number is sent after `+507 `. */
  lemma PhoneFullPanama(local: string)
    requires local == "12345678"
    ensures PhoneFull(PA, local) == "+507 " + local
  {
    assert Digits(local) == local;
  }

  const RequirementLead: string := "Ingresa "

  /** The guidance for a country without a rule: "Ingresa al menos 8 dígitos del número local." */
  const FallbackRequirement: string := RequirementLead + "al menos 8 dígitos del número local."

  /** How a guidance text without a note ends. */
  const LocalNumberClosing: string := " del número local."

  /**
   * `phoneRequirementText`: the guidance shown under an out-of-range number,
   * the fixed fallback text when the country has no rule.
   */
  function PhoneRequirementText(country: CountryCode): (r: string)
    ensures |r| > |RequirementLead| && r[..|RequirementLead|] == RequirementLead && r[|r| - 1] == '.'
    ensures country.Unlisted? ==> r == FallbackRequirement
    ensures !country.Unlisted? ==> DecimalValue(LeadingDigits(r[|RequirementLead|..])) == MinDigits(country)
    ensures country == EC ==> EndsWith(r, NoteSuffix(MobileNote))
    ensures !country.Unlisted? && country != EC ==> EndsWith(r, LocalNumberClosing)
  {
    RuleMinimumAndNote(country);
    match RuleFor(country)
    case None =>
      assert FallbackRequirement[..|RequirementLead|] == RequirementLead;
      FallbackRequirement
    case Some(rule) => RuleRequirement(rule)
  }

  /** The rule table read as minimums and notes: only Ecuador has a note, and no country has no rule but an unlisted one. */
  lemma RuleMinimumAndNote(country: CountryCode)
    ensures RuleFor(country).None? <==> country.Unlisted?
    ensures RuleFor(country).Some? ==>
      && RuleFor(country).value.min == MinDigits(country)
      && (NoteIsSet(RuleFor(country).value) <==> country == EC)
      && (country == EC ==> RuleFor(country).value.note.value == MobileNote)
  {
  }

  /**
   * The guidance for a rule: it opens with `Ingresa `, states the rule's
   * minimum in decimal, ends with the note when there is one, and closes
   * with a period.
   */
  function RuleRequirement(rule: PhoneRule): (r: string)
    ensures |r| > |RequirementLead| && r[..|RequirementLead|] == RequirementLead
    ensures DecimalValue(LeadingDigits(r[|RequirementLead|..])) == rule.min
    ensures r[|r| - 1] == '.'
    ensures NoteIsSet(rule) ==> EndsWith(r, NoteSuffix(rule.note.value))
    ensures !NoteIsSet(rule) ==> EndsWith(r, LocalNumberClosing)
  {
    var minTxt := DecimalString(rule.min);
    var body := RequirementBody(MaxText(rule));
    var closing := NoteText(rule);
    RequirementParts(RequirementLead, minTxt, body, closing);
    DecimalStringReadBack(rule.min, body + closing);
    BodyClosing(MaxText(rule));
    EndsWithTransitive(RequirementLead + (minTxt + (body + closing)), body + closing, LocalNumberClosing);
    RequirementLead + (minTxt + (body + closing))
  }

  /** What the guidance says after the minimum's digits. */
  function AfterMinimum(r: string): string
    requires |r| >= |RequirementLead|
  {
    var t := r[|RequirementLead|..];
    t[|LeadingDigits(t)|..]
  }

  predicate StartsWith(s: string, t: string) {
    |t| <= |s| && s[..|t|] == t
  }

  /** The words after the minimum when the rule sets a maximum, up to the maximum's digits. */
  const MaxLead: string := " dígitos (máx. "

  /** The words after the minimum when the rule sets no maximum. */
  const NoMaxWords: string := " dígitos del número local"

  /**
   * `(máx. N)` appears exactly when the rule sets a maximum, and then `N`
   * reads back as that maximum; otherwise ` dígitos del número local`
   * follows the minimum directly.
   */
  lemma RuleRequirementMaximum(rule: PhoneRule)
    ensures var rest := AfterMinimum(RuleRequirement(rule));
      && (StartsWith(rest, MaxLead) <==> MaxIsSet(rule))
      && (MaxIsSet(rule) ==> DecimalValue(LeadingDigits(rest[|MaxLead|..])) == rule.max.value)
      && (!MaxIsSet(rule) ==> StartsWith(rest, NoMaxWords))
  {
    var closing := NoteText(rule);
    var x := RequirementBody(MaxText(rule)) + closing;
    assert RuleRequirement(rule) == RequirementLead + (DecimalString(rule.min) + x);
    AfterMinimumOf(DecimalString(rule.min), x);
    if MaxIsSet(rule) {
      var m := DecimalString(rule.max.value);
      MaxWords(m, closing);
      DecimalStringReadBack(rule.max.value, ")" + (" del número local" + closing));
    } else {
      NoMaxWordsOf(closing);
    }
  }

  /** The minimum's digits are read off exactly, leaving what follows them. */
  lemma AfterMinimumOf(minTxt: string, x: string)
    requires AllDigits(minTxt) && (x == [] || !IsDigit(x[0]))
    ensures AfterMinimum(RequirementLead + (minTxt + x)) == x
  {
    var r := RequirementLead + (minTxt + x);
    assert r[|RequirementLead|..] == minTxt + x;
    LeadingDigitsOfNumber(minTxt, x);
  }

  /** With a maximum, the words after the minimum open with `MaxLead` and then the maximum's digits. */
  lemma MaxWords(m: string, closing: string)
    ensures var x := RequirementBody(" (máx. " + m + ")") + closing;
      StartsWith(x, MaxLead) && x[|MaxLead|..] == m + (")" + (" del número local" + closing))
  {
    var x := RequirementBody(" (máx. " + m + ")") + closing;
    assert x == MaxLead + (m + (")" + (" del número local" + closing)));
  }

  /** Without a maximum, the words after the minimum are `NoMaxWords`, which do not open with `MaxLead`. */
  lemma NoMaxWordsOf(closing: string)
    ensures var x := RequirementBody("") + closing;
      StartsWith(x, NoMaxWords) && !StartsWith(x, MaxLead)
  {
    var x := RequirementBody("") + closing;
    assert x == NoMaxWords + closing;
    assert x[9] != MaxLead[9];
  }

  /** How the pieces of a guidance text can be read back from it. */
  lemma RequirementParts(lead: string, minTxt: string, body: string, closing: string)
    requires minTxt != [] && body != [] && closing != []
    ensures var r := lead + (minTxt + (body + closing));
      && |r| > |lead| && r[..|lead|] == lead
      && r[|lead|..] == minTxt + (body + closing)
      && EndsWith(r, closing) && EndsWith(r, body + closing)
      && r[|r| - 1] == closing[|closing| - 1]
  {
    var r := lead + (minTxt + (body + closing));
    assert r[|r| - |closing|..] == closing;
  }

  /** Without a note, the text ends with the words about the local number and the period. */
  lemma BodyClosing(maxTxt: string)
    ensures EndsWith(RequirementBody(maxTxt) + ".", LocalNumberClosing)
  {
  }

  lemma EndsWithTransitive(r: string, t: string, u: string)
    ensures EndsWith(r, t) && EndsWith(t, u) ==> EndsWith(r, u)
  {
    if EndsWith(r, t) && EndsWith(t, u) {
      assert r[|r| - |u|..] == r[|r| - |t|..][|t| - |u|..];
    }
  }

  /** The maximum, shown in brackets only when the rule sets one. */
  function MaxText(rule: PhoneRule): string {
    if MaxIsSet(rule) then " (máx. " + DecimalString(rule.max.value) + ")" else ""
  }

  /** The closing of the text: the note when there is one, then a period. */
  function NoteText(rule: PhoneRule): (r: string)
    ensures r != [] && r[|r| - 1] == '.'
    ensures NoteIsSet(rule) ==> r == NoteSuffix(rule.note.value)
    ensures !NoteIsSet(rule) ==> r == "."
  {
    if NoteIsSet(rule) then NoteSuffix(rule.note.value) else "."
  }

  /** The words between the minimum and the closing. */
  function RequirementBody(maxTxt: string): (r: string)
    ensures r != [] && r[0] == ' '
  {
    " dígitos" + maxTxt + " del número local"
  }

  /** The closing of a text with a note: a middle dot, the note and the period. */
  function NoteSuffix(note: string): (r: string)
    ensures |r| == |note| + 4 && r[..3] == " · " && r[3..|r| - 1] == note && r[|r| - 1] == '.'
  {
    " · " + note + "."
  }

  // ---------------------------------------------------------------- gate 2 -> 3

  /** `s.trim().length > 1`, with `.length` in UTF-16 code units. */
  predicate LongEnough(s: string) {
    Utf16Length(Trim(s)) > 1
  }

  /** `canContinueData`: every contact rule holds at once. */
  predicate CanContinueData(f: Form) {
    && LongEnough(f.name)
    && LongEnough(f.company)
    && LongEnough(f.role)
    && MatchesEmailShape(f.email)
    && IsCorporateEmail(f.email)
    && IsPhoneValid(f.phoneLocal, f.country)
  }

  /** An address without `@` never opens the gate: the shape test, not the blocklist, refuses it. */
  lemma DataGateNeedsAt(f: Form)
    requires '@' !in f.email
    ensures !CanContinueData(f)
  {
    if MatchesEmailShape(f.email) {
      EmailShapeNeedsAt(f.email);
    }
  }

  /** A blank name, company or role keeps the gate closed whatever else is filled in. */
  lemma DataGateNeedsText(f: Form)
    requires AllWhitespace(f.name) || AllWhitespace(f.company) || AllWhitespace(f.role)
    ensures !CanContinueData(f)
  {
    if AllWhitespace(f.name) { TrimAllWhitespace(f.name); }
    if AllWhitespace(f.company) { TrimAllWhitespace(f.company); }
    if AllWhitespace(f.role) { TrimAllWhitespace(f.role); }
  }

  /** A consumer address keeps the gate closed whatever else is filled in. */
  lemma DataGateNeedsCorporate(f: Form, p: string, u: string)
    requires f.email == p + "@" + u && '@' !in u && LowerAscii(u) in FreeEmailDomains
    ensures !CanContinueData(f)
  {
    ConsumerAddressRefused(p, u);
  }

  lemma ConsumerAddressRefused(p: string, u: string)
    requires '@' !in u && LowerAscii(u) in FreeEmailDomains
    ensures !IsCorporateEmail(p + "@" + u)
  {
    CorporateEmailOfAddress(p, u);
    FreeEmailDomainsTrimmed();
    var i :| 0 <= i < |FreeEmailDomains| && FreeEmailDomains[i] == LowerAscii(u);
    TrimOfTrimmed(LowerAscii(u));
  }

  /** A text with non-blank ends and at least two characters passes the length test. */
  lemma LongEnoughOfTrimmed(s: string)
    requires |s| >= 2 && !IsJsWhitespace(s[0]) && !IsJsWhitespace(s[|s| - 1])
    ensures LongEnough(s)
  {
    TrimOfTrimmed(s);
    Utf16LengthBounds(s);
  }

  /** The address of the end-to-end example passes both e-mail tests. */
  lemma ExampleEmailAccepted()
    ensures MatchesEmailShape("ana@empresa.com") && IsCorporateEmail("ana@empresa.com")
  {
    assert "ana@empresa.com" == "ana" + "@" + "empresa" + "." + "com";
    EmailShapeOfParts("ana", "empresa", "com");
    assert "ana@empresa.com" == "ana" + "@" + "empresa.com";
    CompanyDomainAccepted("empresa.com");
  }

  lemma ExampleTextsLongEnough()
    ensures LongEnough("Ana") && LongEnough("Empresa") && LongEnough("Gerente")
  {
    LongEnoughOfTrimmed("Ana");
    LongEnoughOfTrimmed("Empresa");
    LongEnoughOfTrimmed("Gerente");
  }

  lemma ExamplePhoneValid(local: string)
    requires local == "12345678"
    ensures IsPhoneValid(local, PA)
  {
    DigitCountOfDigits(local);
  }

  /** The contact details of the end-to-end example open the gate to step 3, with or without consent. */
  lemma ExampleFormAccepted(consent: bool)
    ensures CanContinueData(Form("Ana", "Empresa", "Gerente", "ana@empresa.com", PA, consent, "12345678"))
  {
    ExampleTextsLongEnough();
    ExampleEmailAccepted();
    ExamplePhoneValid("12345678");
  }
}
