/**
 * The three-step wizard: the campaign parameters read from the address,
 * the step machine with its two gates, the form edits, and the submission
 * with its success and error outcomes.
 */
module Wizard {
  import opened Options
  import opened Text
  import opened Catalog
  import opened Answers
  import opened Validation

  // ---------------------------------------------------------------- campaign parameters

  const UtmKeys: seq<string> := ["utm_source", "utm_medium", "utm_campaign", "utm_content", "utm_term"]

  /**
   * An object built key by key: its entries in the order they were added.
   * The wizard only ever adds distinct keys to it.
   */
  type Pairs = seq<(string, string)>

  /** Reading a key of such an object: the value of its first entry with that key. */
  function Lookup(pairs: Pairs, k: string): Option<string> {
    if pairs == [] then None
    else if pairs[0].0 == k then Some(pairs[0].1)
    else Lookup(pairs[1..], k)
  }

  lemma {:induction false} LookupConcat(a: Pairs, b: Pairs, k: string)
    ensures Lookup(a + b, k) == if Lookup(a, k).Some? then Lookup(a, k) else Lookup(b, k)
  {
    if a != [] {
      assert (a + b)[0] == a[0] && (a + b)[1..] == a[1..] + b;
      LookupConcat(a[1..], b, k);
    } else {
      assert a + b == b;
    }
  }

  /**
   * The campaign parameters of the address: for each key in turn, its value
   * when the query string holds a non-empty one (`if (v) x[k] = v`).
   * The query string is a map from name to its first value.
   */
  function UtmsOf(query: map<string, string>, keys: seq<string>): Pairs {
    if keys == [] then []
    else
      var k := keys[|keys| - 1];
      UtmsOf(query, keys[..|keys| - 1]) + (if k in query && query[k] != "" then [(k, query[k])] else [])
  }

  /** A key reads back exactly when it is one of the keys and the address gives it a non-empty value. */
  lemma {:induction false} UtmsLookup(query: map<string, string>, keys: seq<string>, k: string)
    ensures Lookup(UtmsOf(query, keys), k) == if k in keys && k in query && query[k] != "" then Some(query[k]) else None
  {
    if keys != [] {
      var init, last := keys[..|keys| - 1], keys[|keys| - 1];
      UtmsLookup(query, init, k);
      var tail: Pairs := if last in query && query[last] != "" then [(last, query[last])] else [];
      LookupConcat(UtmsOf(query, init), tail, k);
      assert k in keys <==> k in init || k == last by {
        assert keys == init + [last];
      }
    }
  }

  /** Every collected entry is one of the keys with its non-empty value from the address, and no key is collected twice. */
  lemma {:induction false} UtmsEntries(query: map<string, string>, keys: seq<string>)
    requires Distinct(keys)
    ensures |UtmsOf(query, keys)| <= |keys|
    ensures forall i :: 0 <= i < |UtmsOf(query, keys)| ==>
      var (k, v) := UtmsOf(query, keys)[i];
      k in keys && k in query && v == query[k] && v != ""
    ensures forall i, j :: 0 <= i < j < |UtmsOf(query, keys)| ==> UtmsOf(query, keys)[i].0 != UtmsOf(query, keys)[j].0
  {
    if keys != [] {
      var init, last := keys[..|keys| - 1], keys[|keys| - 1];
      UtmsEntries(query, init);
      var head := UtmsOf(query, init);
      assert forall i :: 0 <= i < |head| ==> head[i].0 in init;
      assert last !in init;
    }
  }

  /** `useMemo(() => …, [searchParams])`: the loop over the five campaign keys. */
  method BuildUtms(query: map<string, string>) returns (x: Pairs)
    ensures x == UtmsOf(query, UtmKeys)
  {
    x := [];
    for i := 0 to |UtmKeys|
      invariant x == UtmsOf(query, UtmKeys[..i])
    {
      var k := UtmKeys[i];
      assert UtmKeys[..i + 1][..i] == UtmKeys[..i];
      if k in query && query[k] != "" {
        x := x + [(k, query[k])];
      }
    }
    assert UtmKeys[..|UtmKeys|] == UtmKeys;
  }

  // ---------------------------------------------------------------- steps

  /** The four navigation buttons, by where they lead. */
  datatype Button =
    | ToData           // step 1 "Siguiente", disabled until every question is answered
    | BackToQuestions  // step 2 "Atrás"
    | ToConsent        // step 2 "Siguiente", disabled until the contact data is valid
    | BackToData       // step 3 "Atrás"

  /** The step on which the button is rendered. */
  function ButtonStep(b: Button): nat {
    match b
    case ToData => 1
    case BackToQuestions => 2
    case ToConsent => 2
    case BackToData => 3
  }

  /**
   * The step after a click. A button that is not on screen or is disabled
   * cannot be clicked, so the step stays.
   */
  function StepAfter(step: nat, b: Button, questionsOk: bool, dataOk: bool): (r: nat)
    ensures 1 <= step <= 3 ==> 1 <= r <= 3
    ensures r != step ==> step == ButtonStep(b)
    ensures r > step ==> r == step + 1 && (step == 1 ==> questionsOk) && (step == 2 ==> dataOk)
    ensures r < step ==> r == step - 1
    ensures (b.ToData? || b.ToConsent?) ==> r >= step
  {
    if step != ButtonStep(b) then step
    else
      match b
      case ToData => if questionsOk then 2 else 1
      case BackToQuestions => 1
      case ToConsent => if dataOk then 3 else 2
      case BackToData => 2
  }

  /**
   * Going back is never disabled; going forward happens exactly when the
   * gate is open, and a disabled forward button leaves the step as it is.
   */
  lemma StepButtons(questionsOk: bool, dataOk: bool)
    ensures StepAfter(2, BackToQuestions, questionsOk, dataOk) == 1
    ensures StepAfter(3, BackToData, questionsOk, dataOk) == 2
    ensures StepAfter(1, ToData, questionsOk, dataOk) == (if questionsOk then 2 else 1)
    ensures StepAfter(2, ToConsent, questionsOk, dataOk) == (if dataOk then 3 else 2)
  {
  }

  /** A click never moves past a closed gate: what held of the step before holds of the step after. */
  lemma StepKeepsGates(step: nat, b: Button, questionsOk: bool, dataOk: bool)
    requires 1 <= step <= 3 && (step >= 2 ==> questionsOk) && (step == 3 ==> dataOk)
    ensures var s := StepAfter(step, b, questionsOk, dataOk);
      1 <= s <= 3 && (s >= 2 ==> questionsOk) && (s == 3 ==> dataOk)
  {
  }

  // ---------------------------------------------------------------- form edits

  /** One change event of a contact input, carrying what the input holds. */
  datatype FormEdit =
    | Name(text: string)
    | Company(text: string)
    | Role(text: string)
    | Email(text: string)
    | Country(code: CountryCode)
    | Phone(raw: string)
    | Consent(checked: bool)

  /** The consent checkbox is on step 3; every other input is on step 2. */
  function EditStep(e: FormEdit): nat {
    if e.Consent? then 3 else 2
  }

  /**
   * `setForm({ ...form, field: value })`: the edited field takes the new
   * value; the phone keeps only the digits that were typed.
   */
  function ApplyEdit(f: Form, e: FormEdit): (f': Form)
    ensures f'.name == (if e.Name? then e.text else f.name)
    ensures f'.company == (if e.Company? then e.text else f.company)
    ensures f'.role == (if e.Role? then e.text else f.role)
    ensures f'.email == (if e.Email? then e.text else f.email)
    ensures f'.country == (if e.Country? then e.code else f.country)
    ensures f'.consent == (if e.Consent? then e.checked else f.consent)
    ensures e.Phone? ==> f'.phoneLocal == Digits(e.raw)
    ensures !e.Phone? ==> f'.phoneLocal == f.phoneLocal
    ensures AllDigits(f.phoneLocal) ==> AllDigits(f'.phoneLocal)
  {
    match e
    case Name(t) => f.(name := t)
    case Company(t) => f.(company := t)
    case Role(t) => f.(role := t)
    case Email(t) => f.(email := t)
    case Country(c) => f.(country := c)
    case Phone(raw) => f.(phoneLocal := Digits(raw))
    case Consent(b) => f.(consent := b)
  }

  /** Ticking or clearing the consent box never opens or closes the data gate. */
  lemma ConsentKeepsDataGate(f: Form, b: bool)
    ensures CanContinueData(ApplyEdit(f, Consent(b))) <==> CanContinueData(f)
  {
    assert ApplyEdit(f, Consent(b)) == f.(consent := b);
  }

  /** Stripping the phone at every keystroke changes nothing in the number that is sent. */
  lemma PhoneEditKeepsNumber(f: Form, raw: string)
    ensures PhoneFull(f.country, ApplyEdit(f, Phone(raw)).phoneLocal) == PhoneFull(f.country, raw)
  {
    DigitsIdempotent(raw);
  }

  // ---------------------------------------------------------------- submission

  /** The body posted to the form endpoint. */
  datatype Payload = Payload(
    name: string,
    company: string,
    role: string,
    email: string,
    country: string,
    phone: string,
    utms: Pairs,
    items: seq<Answer>)

  /** The confirmation shown in place of the wizard: `{ title, message }`. */
  datatype ResultView = ResultView(title: string, message: string)

  /** The only confirmation the component shows, after a successful submission. */
  const SuccessView: ResultView := ResultView(
    "Formulario enviado",
    "Gracias por compartirnos esta información. Nuestro equipo revisará tus respuestas y te contactará para acompañarte en los siguientes pasos.")

  const ConsentMessage: string := "Debes aceptar el consentimiento para continuar."

  const FallbackFailure: string := "No se logró enviar. Intenta de nuevo."

  /** What the endpoint answered: accepted, or an error carrying its message, if any. */
  datatype Outcome = Delivered | Failed(message: Option<string>)

  /** `e?.message || fallback`: the error's own message unless it is missing or empty. */
  function FailureMessage(m: Option<string>): (r: string)
    ensures r != []
    ensures m.Some? && m.value != [] ==> r == m.value
    ensures m.None? || m.value == [] ==> r == FallbackFailure
  {
    if m.Some? && m.value != "" then m.value else FallbackFailure
  }

  /** The payload `onSubmit` posts: the contact data, the country's label, the full phone, the campaign and the answers. */
  function PayloadOf(f: Form, answers: Record, query: map<string, string>): Payload
    requires WellFormed(answers)
  {
    Payload(f.name, f.company, f.role, f.email, CountryLabel(f.country),
      PhoneFull(f.country, f.phoneLocal), UtmsOf(query, UtmKeys), Values(answers))
  }

  /**
   * What a payload sent past both gates carries: one answer per question,
   * a corporate address of the right shape, a phone that reads back into
   * the country's prefix and enough digits, and only campaign keys with
   * their values from the address.
   */
  lemma GatedPayload(f: Form, answers: Record, query: map<string, string>)
    requires Answers.Valid(answers) && CanContinueQuestions(answers) && CanContinueData(f)
    ensures var p := PayloadOf(f, answers, query);
      && |p.items| == 3
      && (forall i, j :: 0 <= i < j < |p.items| ==> p.items[i].id != p.items[j].id)
      && MatchesEmailShape(p.email) && IsCorporateEmail(p.email)
      && SplitAtSpace(p.phone) == (Prefix(f.country), Digits(f.phoneLocal))
      && |Digits(f.phoneLocal)| >= MinDigits(f.country)
      && |p.utms| <= |UtmKeys|
      && (forall i :: 0 <= i < |p.utms| ==>
            p.utms[i].0 in UtmKeys && p.utms[i].0 in query && p.utms[i].1 == query[p.utms[i].0])
  {
    CompleteAnswersAreThree(answers);
    PhoneFullRoundTrip(f.country, f.phoneLocal);
    PhoneRuleTable(f.phoneLocal, f.country);
    UtmKeysDistinct();
    UtmsEntries(query, UtmKeys);
  }

  lemma UtmKeysDistinct()
    ensures Distinct(UtmKeys)
  {
  }

  // ---------------------------------------------------------------- the component

  /**
   * What every reachable state of the component satisfies: a step from 1
   * to 3, consistent answers, a digits-only phone, step 2 or later only with
   * every question answered, and step 3 only with valid contact data.
   * The data gate is stated through a quantifier over the form so that its
   * (large) definition is unfolded only where a proof mentions
   * `CanContinueData` of the current form.
   */
  ghost predicate Consistent(step: nat, answers: Record, form: Form) {
    && 1 <= step <= 3
    && Answers.Valid(answers)
    && AllDigits(form.phoneLocal)
    && (step >= 2 ==> CanContinueQuestions(answers))
    && (step == 3 ==> forall f: Form | f == form :: CanContinueData(f))
  }

  /** The confirmation is only ever shown on step 3, after a submission that cleared the error. */
  predicate ResultShown(step: nat, errorMsg: Option<string>, resultUI: Option<ResultView>) {
    resultUI.Some? ==> step == 3 && errorMsg.None?
  }

  /** On step 3 both gates are open. */
  lemma GatesAtConsent(answers: Record, form: Form)
    requires Consistent(3, answers, form)
    ensures WellFormed(answers) && CanContinueQuestions(answers) && CanContinueData(form)
  {
  }

  /** An input can only be edited on its own step, so the gate behind step 3 stays open. */
  lemma EditKeepsConsistent(step: nat, answers: Record, form: Form, e: FormEdit)
    requires Consistent(step, answers, form) && step == EditStep(e)
    ensures Consistent(step, answers, ApplyEdit(form, e))
  {
    if e.Consent? {
      ConsentKeepsDataGate(form, e.checked);
    }
  }

  /** A click keeps the state consistent: it never moves past a closed gate. */
  lemma PressKeepsConsistent(step: nat, b: Button, answers: Record, form: Form)
    requires Consistent(step, answers, form)
    ensures Consistent(StepAfter(step, b, CanContinueQuestions(answers), CanContinueData(form)), answers, form)
  {
    StepKeepsGates(step, b, CanContinueQuestions(answers), CanContinueData(form));
  }

  /**
   * The component's state. Every handler runs only when its control is on
   * screen: the radios and free-text fields on step 1, the contact inputs
   * on step 2, the consent box and the submit button on step 3, and nothing
   * once the confirmation replaces the wizard.
   */
  class Wizard {
    var step: nat
    var answers: Record
    var form: Form
    var errorMsg: Option<string>
    var resultUI: Option<ResultView>
    /** The address's query string, fixed for the life of the page. */
    const query: map<string, string>

    /**
     * The invariant: a step from 1 to 3, consistent answers, a digits-only
     * phone, step 2 or later only with every question answered, step 3
     * only with valid contact data, and a confirmation only after success.
     */
    ghost predicate Valid()
      reads this
    {
      StateValid() && ResultShown(step, errorMsg, resultUI)
    }

    /** The part of the invariant about the step, the answers and the form. */
    ghost predicate StateValid()
      reads this`step, this`answers, this`form
    {
      Consistent(step, answers, form)
    }

    /** The first render: step 1, no answers, the initial form, no message. */
    constructor (q: map<string, string>)
      ensures Valid()
      ensures step == 1 && answers == Empty && form == InitialForm
      ensures errorMsg.None? && resultUI.None? && query == q
    {
      step := 1;
      answers := Empty;
      form := InitialForm;
      errorMsg := None;
      resultUI := None;
      query := q;
    }

    /** Whether the wizard (not the confirmation) is on screen at the given step. */
    predicate Showing(s: nat)
      reads this
    {
      resultUI.None? && step == s
    }

    /** A radio of step 1 is chosen. */
    method SelectOption(qid: string, v: string)
      requires Valid()
      modifies this`answers
      ensures Valid()
      ensures old(Showing(1)) && IsQuestionId(qid) ==> answers == Select(old(answers), qid, v).value
      ensures !(old(Showing(1)) && IsQuestionId(qid)) ==> answers == old(answers)
    {
      if Showing(1) {
        var r := Select(answers, qid, v);
        if r.Some? {
          SelectKeepsValid(answers, qid, v);
          answers := r.value;
        }
      }
    }

    /** The free-text field of a question is typed in; it exists only while its option asks for text. */
    method EditExtraText(qid: string, t: string)
      requires Valid()
      modifies this`answers
      ensures Valid()
      ensures old(Showing(1)) && ShouldShowExtraInput(old(answers), qid) ==>
        answers == PatchExtraText(old(answers), qid, t)
      ensures !(old(Showing(1)) && ShouldShowExtraInput(old(answers), qid)) ==> answers == old(answers)
    {
      if Showing(1) && ShouldShowExtraInput(answers, qid) {
        PatchKeepsValid(answers, qid, t);
        answers := PatchExtraText(answers, qid, t);
      }
    }

    /** A contact input or the consent box changes. */
    method Edit(e: FormEdit)
      requires Valid()
      modifies this`form
      ensures Valid()
      ensures old(Showing(EditStep(e))) ==> form == ApplyEdit(old(form), e)
      ensures !old(Showing(EditStep(e))) ==> form == old(form)
    {
      if Showing(EditStep(e)) {
        EditKeepsConsistent(step, answers, form, e);
        form := ApplyEdit(form, e);
      }
    }

    /** A navigation button is clicked. */
    method Press(b: Button)
      requires Valid()
      modifies this`step
      ensures Valid()
      ensures old(resultUI).None? ==> step == StepAfter(old(step), b, CanContinueQuestions(answers), CanContinueData(form))
      ensures old(resultUI).Some? ==> step == old(step)
    {
      if resultUI.None? {
        PressKeepsConsistent(step, b, answers, form);
        step := StepAfter(step, b, CanContinueQuestions(answers), CanContinueData(form));
      }
    }

    /** The payload built from the current state, with the campaign loop of the source. */
    method PostedPayload() returns (p: Payload)
      requires WellFormed(answers)
      ensures p == PayloadOf(form, answers, query)
    {
      var utms := BuildUtms(query);
      p := Payload(form.name, form.company, form.role, form.email, CountryLabel(form.country),
        PhoneFull(form.country, form.phoneLocal), utms, Values(answers));
    }

    /**
     * `onSubmit`, with the endpoint's reply given as `outcome`. Without
     * consent it stops with the consent message; otherwise it posts the
     * payload (returned as `sent`) and shows the confirmation on success or
     * the error message on failure.
     */
    method Submit(outcome: Outcome) returns (sent: Option<Payload>)
      requires Valid()
      modifies this`errorMsg, this`resultUI
      ensures Valid()
      ensures !old(Showing(3)) ==> sent.None? && errorMsg == old(errorMsg) && resultUI == old(resultUI)
      ensures old(Showing(3)) && !old(form.consent) ==>
        sent.None? && errorMsg == Some(ConsentMessage) && resultUI.None?
      ensures old(Showing(3)) && old(form.consent) ==> sent == old(Some(PayloadOf(form, answers, query)))
      ensures old(Showing(3)) && old(form.consent) && outcome.Delivered? ==>
        resultUI == Some(SuccessView) && errorMsg.None?
      ensures old(Showing(3)) && old(form.consent) && outcome.Failed? ==>
        resultUI.None? && errorMsg == Some(FailureMessage(outcome.message))
      ensures sent.Some? ==> old(form.consent) && Consistent(3, old(answers), old(form))
    {
      sent := None;
      if !Showing(3) {
        return;
      }
      errorMsg := None;
      if !form.consent {
        errorMsg := Some(ConsentMessage);
        return;
      }
      var p := PostedPayload();
      sent := Some(p);
      match outcome
      case Delivered =>
        resultUI := Some(SuccessView);
      case Failed(m) =>
        errorMsg := Some(FailureMessage(m));
    }
  }
}
