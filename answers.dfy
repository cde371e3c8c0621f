/**
 * The answers of step 1. React state is replaced, never mutated: every
 * handler builds a new object with `{ ...prev, [qid]: answer }`, so the
 * answers are a value. A JavaScript object remembers the order in which its
 * keys were first added and `Object.values` lists the entries in that order;
 * the record therefore keeps its keys as a sequence beside the entries.
 */
module Answers {
  import opened Options
  import opened Catalog

  /** One answer: the question, the chosen option and the optional free text. */
  datatype Answer = Answer(id: string, value: string, extraText: Option<string>)

  /** The answers object: its entries, and its keys in insertion order. */
  datatype Record = Record(keys: seq<string>, entries: map<string, Answer>)

  /** `{}`: the answers a session starts with. */
  const Empty: Record := Record([], map[])

  predicate Distinct(s: seq<string>) {
    forall i, j :: 0 <= i < j < |s| ==> s[i] != s[j]
  }

  /** The key list names every entry exactly once. */
  predicate WellFormed(r: Record) {
    && Distinct(r.keys)
    && (forall k :: k in r.entries ==> k in r.keys)
    && (forall i :: 0 <= i < |r.keys| ==> r.keys[i] in r.entries)
  }

  /**
   * What the handlers keep true of the answers: well formed, every entry
   * filed under its own question id, and only ids of the question table.
   */
  predicate Valid(r: Record) {
    && WellFormed(r)
    && forall k :: k in r.entries ==> r.entries[k].id == k && k in QuestionIds
  }

  lemma EmptyValid()
    ensures Valid(Empty) && |Empty.keys| == 0
  {
  }

  /**
   * `{ ...r, [k]: a }`: the entry under `k` becomes `a`, every other entry
   * stays, a key already present keeps its place and a new key goes last.
   */
  function Put(r: Record, k: string, a: Answer): (r': Record)
    requires WellFormed(r)
    ensures WellFormed(r')
    ensures k in r'.entries && r'.entries[k] == a
    ensures forall j :: j != k ==> (j in r'.entries <==> j in r.entries)
    ensures forall j :: j != k && j in r.entries ==> r'.entries[j] == r.entries[j]
    ensures k in r.entries ==> r'.keys == r.keys
    ensures k !in r.entries ==> r'.keys == r.keys + [k]
  {
    Record(if k in r.entries then r.keys else r.keys + [k], r.entries[k := a])
  }

  /**
   * `handleSelect`: records the option under the question, dropping any free
   * text typed before. The option is not checked against the question (the
   * looked-up option is never used); an id outside the table makes the
   * handler throw before the state is touched, which is `None` here.
   */
  function Select(r: Record, qid: string, v: string): (r': Option<Record>)
    requires WellFormed(r)
    ensures r'.None? <==> !IsQuestionId(qid)
    ensures r'.Some? ==> WellFormed(r'.value) && qid in r'.value.entries
    ensures r'.Some? ==> r'.value.entries[qid] == Answer(qid, v, None)
    ensures r'.Some? ==> forall j :: j != qid ==> (j in r'.value.entries <==> j in r.entries)
    ensures r'.Some? ==> forall j :: j != qid && j in r.entries ==> r'.value.entries[j] == r.entries[j]
  {
    if IsQuestionId(qid) then Some(Put(r, qid, Answer(qid, v, None))) else None
  }

  /**
   * `handleExtraText`: stores the free text on an existing answer, keeping
   * its option; without an answer for the question nothing changes.
   */
  function PatchExtraText(r: Record, qid: string, t: string): (r': Record)
    requires WellFormed(r)
    ensures WellFormed(r') && r'.keys == r.keys
    ensures qid !in r.entries ==> r' == r
    ensures qid in r.entries ==>
      && qid in r'.entries
      && r'.entries[qid].id == r.entries[qid].id
      && r'.entries[qid].value == r.entries[qid].value
      && r'.entries[qid].extraText == Some(t)
    ensures forall j :: j != qid ==> (j in r'.entries <==> j in r.entries)
    ensures forall j :: j != qid && j in r.entries ==> r'.entries[j] == r.entries[j]
  {
    if qid in r.entries then Put(r, qid, r.entries[qid].(extraText := Some(t))) else r
  }

  lemma SelectKeepsValid(r: Record, qid: string, v: string)
    requires Valid(r)
    ensures Select(r, qid, v).Some? ==> Valid(Select(r, qid, v).value)
  {
    QuestionIdsAre(qid);
  }

  lemma PatchKeepsValid(r: Record, qid: string, t: string)
    requires Valid(r)
    ensures Valid(PatchExtraText(r, qid, t))
  {
  }

  /** Writing a key twice keeps only the second write. */
  lemma PutTwice(r: Record, k: string, a: Answer, b: Answer)
    requires WellFormed(r)
    ensures Put(Put(r, k, a), k, b) == Put(r, k, b)
  {
    assert Put(Put(r, k, a), k, b).entries == r.entries[k := b];
  }

  /** Choosing an option again forgets the free text typed for the previous choice. */
  lemma ReselectForgetsText(r: Record, qid: string, t: string, v: string)
    requires WellFormed(r)
    ensures Select(PatchExtraText(r, qid, t), qid, v) == Select(r, qid, v)
  {
    if qid in r.entries {
      PutTwice(r, qid, r.entries[qid].(extraText := Some(t)), Answer(qid, v, None));
    }
  }

  /** Choosing the same option twice is choosing it once. */
  lemma SelectIdempotent(r: Record, qid: string, v: string)
    requires WellFormed(r) && IsQuestionId(qid)
    ensures Select(Select(r, qid, v).value, qid, v) == Select(r, qid, v)
  {
    PutTwice(r, qid, Answer(qid, v, None), Answer(qid, v, None));
  }

  /**
   * `shouldShowExtraInput`: the question exists, has an answer, and the
   * answered option is one that asks for free text.
   */
  predicate ShouldShowExtraInput(r: Record, qid: string) {
    match FindQuestion(Questions, qid)
    case None => false
    case Some(q) =>
      qid in r.entries &&
      match FindChoice(q.choices, r.entries[qid].value)
      case None => false
      case Some(c) => c.requiresText
  }

  /** The options of the table that ask for a free-text supplement. */
  predicate AsksForText(qid: string, v: string) {
    || (qid == "industria" && v == "otro")
    || (qid == "erp" && v == "erp_otro")
    || (qid == "busca" && (v == "sistema" || v == "servicio"))
  }

  /** The extra field shows exactly for "otro", "erp_otro" and both options of "busca". */
  lemma ExtraInputExactly(r: Record, qid: string)
    ensures ShouldShowExtraInput(r, qid) <==> qid in r.entries && AsksForText(qid, r.entries[qid].value)
  {
    QuestionIdsAre(qid);
    if qid in r.entries && IsQuestionId(qid) {
      ChoiceAsksForText(qid, r.entries[qid].value);
    }
  }

  lemma ChoiceAsksForText(qid: string, v: string)
    requires IsQuestionId(qid)
    ensures var c := FindChoice(FindQuestion(Questions, qid).value.choices, v);
      c.Some? && c.value.requiresText <==> AsksForText(qid, v)
  {
    QuestionIdsAre(qid);
    if qid == "industria" {
      IndustriaChoices(v);
    } else if qid == "erp" {
      ErpChoices(v);
    } else {
      BuscaChoices(v);
    }
  }

  lemma IndustriaChoices(v: string)
    ensures var c := FindChoice(Questions[0].choices, v); c.Some? && c.value.requiresText <==> v == "otro"
  {
  }

  lemma ErpChoices(v: string)
    ensures var c := FindChoice(Questions[1].choices, v); c.Some? && c.value.requiresText <==> v == "erp_otro"
  {
  }

  lemma BuscaChoices(v: string)
    ensures var c := FindChoice(Questions[2].choices, v);
      c.Some? && c.value.requiresText <==> v == "sistema" || v == "servicio"
  {
  }

  /** `canContinueQuestions`: every question of the table has an answer. */
  predicate CanContinueQuestions(r: Record) {
    forall i :: 0 <= i < |Questions| ==> Questions[i].id in r.entries
  }

  /** The first gate opens exactly when "industria", "erp" and "busca" are answered. */
  lemma QuestionsGate(r: Record)
    ensures CanContinueQuestions(r) <==> "industria" in r.entries && "erp" in r.entries && "busca" in r.entries
  {
    if "industria" in r.entries && "erp" in r.entries && "busca" in r.entries {
      forall i | 0 <= i < |Questions|
        ensures Questions[i].id in r.entries
      {
      }
    } else {
      assert Questions[0].id == "industria" && Questions[1].id == "erp" && Questions[2].id == "busca";
    }
  }

  /** `Object.values(answers).filter(Boolean)`: the answers in key order. */
  function Values(r: Record): (vs: seq<Answer>)
    requires WellFormed(r)
    ensures |vs| == |r.keys|
    ensures forall i :: 0 <= i < |vs| ==> vs[i] == r.entries[r.keys[i]]
  {
    ValuesOf(r.keys, r.entries)
  }

  function ValuesOf(keys: seq<string>, entries: map<string, Answer>): (vs: seq<Answer>)
    requires forall i :: 0 <= i < |keys| ==> keys[i] in entries
    ensures |vs| == |keys|
    ensures forall i :: 0 <= i < |vs| ==> vs[i] == entries[keys[i]]
  {
    if keys == [] then [] else [entries[keys[0]]] + ValuesOf(keys[1..], entries)
  }

  /** A list without repeats has as many elements as the set of its elements. */
  lemma {:induction false} DistinctCard(s: seq<string>)
    requires Distinct(s)
    ensures |set k | k in s| == |s|
  {
    if s != [] {
      var rest := set k | k in s[1..];
      DistinctCard(s[1..]);
      assert s[0] !in rest;
      assert (set k | k in s) == rest + {s[0]};
    }
  }

  /** `Object.values` yields one value per entry: none lost, none repeated. */
  lemma ValuesCount(r: Record)
    requires WellFormed(r)
    ensures |Values(r)| == |r.entries|
  {
    DistinctCard(r.keys);
    assert r.entries.Keys == set k | k in r.keys;
  }

  /**
   * Once the first gate is open, the submitted items are exactly one answer
   * per question of the table, each under its own id.
   */
  lemma CompleteAnswersAreThree(r: Record)
    requires Valid(r) && CanContinueQuestions(r)
    ensures |Values(r)| == 3
    ensures forall i :: 0 <= i < |Values(r)| ==> Values(r)[i].id in QuestionIds
    ensures forall i, j :: 0 <= i < j < |Values(r)| ==> Values(r)[i].id != Values(r)[j].id
  {
    CompleteCount(r);
    ValuesCount(r);
    var vs := Values(r);
    forall i | 0 <= i < |vs|
      ensures vs[i].id in QuestionIds
    {
      assert vs[i] == r.entries[r.keys[i]];
    }
    forall i, j | 0 <= i < j < |vs|
      ensures vs[i].id != vs[j].id
    {
      assert vs[i].id == r.keys[i] && vs[j].id == r.keys[j];
    }
  }

  lemma CompleteCount(r: Record)
    requires Valid(r) && CanContinueQuestions(r)
    ensures |r.entries| == 3
  {
    CompleteKeys(r);
    QuestionIdCount();
    assert |r.entries.Keys| == 3;
  }

  lemma CompleteKeys(r: Record)
    requires Valid(r) && CanContinueQuestions(r)
    ensures r.entries.Keys == QuestionIds
  {
    QuestionsGate(r);
  }

  lemma QuestionIdCount()
    ensures |QuestionIds| == 3
  {
  }
}
