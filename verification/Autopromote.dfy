/** The simple/v1 engine and the registry that fails closed (internal/autopromote). */
module Autopromote {
  import opened Basics

  /** A JSON value, as far as conditions can tell values apart. */
  datatype Json = JString(s: string) | JNull | JArray(items: seq<Json>) | JOther

  datatype Condition = Condition(field: string, op: string, value: Option<Json>)

  datatype Rule = Rule(all: seq<Condition>)

  /**
   * Raw rules bytes. `trailing` says that more input follows the document: the decoder of Validate
   * reads one value and accepts it, the strict parse of Evaluate does not. Bytes that are not one
   * JSON value never come from a stored policy, only from a direct call of the exported functions.
   */
  datatype Rules =
    | NoBytes
    | NotJson
    | WrongShape                                  // JSON, but of another shape or with unknown fields
    | Document(rules: seq<Rule>, trailing: bool)

  datatype Candidate = Candidate(
    originType: string, sourceKind: string, actorType: string,
    tags: set<string>, metadata: map<string, string>)

  datatype Verdict = Error | Human(reason: string) | Promote(rule: Option<Rule>)

  // ---- simple/v1 ----

  const SIMPLE_ID := "simple/v1"

  const METADATA_PREFIX := "metadata."

  function MetadataKey(field: string): Option<string> {
    if |field| > |METADATA_PREFIX| && field[..|METADATA_PREFIX|] == METADATA_PREFIX
    then Some(field[|METADATA_PREFIX|..]) else None
  }

  predicate FieldAllowed(field: string) {
    || field in {"provenance.origin_type", "provenance.source.kind", "actor.type", "tags"}
    || MetadataKey(field).Some?
  }

  predicate ConditionValid(c: Condition) {
    FieldAllowed(c.field) && (c.op == "eq" || c.op == "in") && c.value.Some?
  }

  predicate Valid(doc: Rules) {
    && doc.Document?
    && doc.rules != []
    && forall i | 0 <= i < |doc.rules| ::
         && doc.rules[i].all != []
         && forall j | 0 <= j < |doc.rules[i].all| :: ConditionValid(doc.rules[i].all[j])
  }

  predicate FieldHas(field: string, want: string, c: Candidate) {
    if field == "provenance.origin_type" then c.originType == want
    else if field == "provenance.source.kind" then c.sourceKind == want
    else if field == "actor.type" then c.actorType == want
    else if field == "tags" then want in c.tags
    else
      var key := MetadataKey(field);
      key.Some? && key.value in c.metadata && c.metadata[key.value] == want
  }

  /** json.Unmarshal into a string: null leaves it empty. */
  function AsString(v: Json): Option<string> {
    match v
    case JString(s) => Some(s)
    case JNull => Some("")
    case _ => None
  }

  /** json.Unmarshal into a []string: null is the nil slice, one bad element fails the whole. */
  function AsStrings(v: Json): Option<seq<string>> {
    match v
    case JNull => Some([])
    case JArray(items) =>
      if forall i | 0 <= i < |items| :: AsString(items[i]).Some?
      then Some(seq(|items|, i requires 0 <= i < |items| => AsString(items[i]).value))
      else None
    case _ => None
  }

  predicate ConditionMatches(cond: Condition, c: Candidate) {
    if cond.value.None? then false
    else if cond.op == "eq" then
      var want := AsString(cond.value.value);
      want.Some? && FieldHas(cond.field, want.value, c)
    else if cond.op == "in" then
      var want := AsStrings(cond.value.value);
      want.Some? && exists i | 0 <= i < |want.value| :: FieldHas(cond.field, want.value[i], c)
    else false
  }

  /** The AND of a rule, as the early-exit loop computes it. */
  predicate AllMatch(conds: seq<Condition>, c: Candidate) {
    if conds == [] then true
    else if !ConditionMatches(conds[0], c) then false
    else AllMatch(conds[1..], c)
  }

  /** The loop over the rules: the first one that matches. */
  function FirstMatch(rules: seq<Rule>, c: Candidate): Option<Rule> {
    if rules == [] then None
    else if AllMatch(rules[0].all, c) then Some(rules[0])
    else FirstMatch(rules[1..], c)
  }

  function Evaluate(c: Candidate, doc: Rules): Verdict {
    if !Valid(doc) then Error
    else if doc.trailing then Error
    else
      var m := FirstMatch(doc.rules, c);
      if m.Some? then Promote(m) else Human("no rule matched")
  }

  // ---- What the verdict means ----

  ghost predicate Holds(r: Rule, c: Candidate) {
    forall cond | cond in r.all :: ConditionMatches(cond, c)
  }

  lemma {:induction false} AllMatchHolds(r: Rule, c: Candidate)
    ensures AllMatch(r.all, c) <==> Holds(r, c)
    decreases |r.all|
  {
    if r.all != [] {
      AllMatchHolds(Rule(r.all[1..]), c);
      assert r.all == [r.all[0]] + r.all[1..];
    }
  }

  lemma {:induction false} FirstMatchIsFirst(rules: seq<Rule>, c: Candidate)
    ensures FirstMatch(rules, c).None? <==> forall r | r in rules :: !Holds(r, c)
    ensures FirstMatch(rules, c).Some? ==>
              exists i :: 0 <= i < |rules| && rules[i] == FirstMatch(rules, c).value && Holds(rules[i], c)
                          && forall j | 0 <= j < i :: !Holds(rules[j], c)
  {
    if rules != [] {
      AllMatchHolds(rules[0], c);
      var rest := rules[1..];
      assert rules == [rules[0]] + rest;
      if !Holds(rules[0], c) {
        FirstMatchIsFirst(rest, c);
        if FirstMatch(rest, c).Some? {
          var i :| 0 <= i < |rest| && rest[i] == FirstMatch(rest, c).value && Holds(rest[i], c)
                   && forall j | 0 <= j < i :: !Holds(rest[j], c);
          forall j | 0 <= j < i + 1 ensures !Holds(rules[j], c) {
            assert j > 0 ==> rules[j] == rest[j - 1];
          }
          assert rules[i + 1] == rest[i];
        }
      } else {
        assert rules[0] == FirstMatch(rules, c).value;
      }
    }
  }

  /**
   * For a valid document the verdict is "some rule has all its conditions true", and the rule
   * it names is the first such rule of the document.
   */
  lemma VerdictMeaning(c: Candidate, doc: Rules)
    requires Valid(doc) && !doc.trailing
    ensures Evaluate(c, doc).Promote? <==> SomeHolds(doc.rules, c)
    ensures Evaluate(c, doc).Promote? ==>
              exists i :: 0 <= i < |doc.rules| && Evaluate(c, doc).rule == Some(doc.rules[i])
                          && Holds(doc.rules[i], c) && forall j | 0 <= j < i :: !Holds(doc.rules[j], c)
  {
    FirstMatchIsFirst(doc.rules, c);
  }

  /** Two rules with the same conditions, whatever their order or repetition. */
  ghost predicate SameRule(r: Rule, q: Rule) {
    forall cond :: cond in r.all <==> cond in q.all
  }

  /** Every rule of the first document occurs in the second, up to condition order. */
  ghost predicate Includes(b: seq<Rule>, a: seq<Rule>) {
    forall r | r in a :: exists q :: q in b && SameRule(r, q)
  }

  ghost predicate SomeHolds(rules: seq<Rule>, c: Candidate) {
    exists r :: r in rules && Holds(r, c)
  }

  lemma IncludesHolds(a: seq<Rule>, b: seq<Rule>, c: Candidate)
    requires Includes(b, a) && SomeHolds(a, c)
    ensures SomeHolds(b, c)
  {
  }

  /** Neither the order of the rules nor the order of the conditions inside them matters. */
  lemma OrderIrrelevant(c: Candidate, a: Rules, b: Rules)
    requires Valid(a) && Valid(b) && !a.trailing && !b.trailing
    requires Includes(a.rules, b.rules) && Includes(b.rules, a.rules)
    ensures Evaluate(c, a).Promote? <==> Evaluate(c, b).Promote?
  {
    VerdictMeaning(c, a);
    VerdictMeaning(c, b);
    if SomeHolds(a.rules, c) {
      IncludesHolds(a.rules, b.rules, c);
    }
    if SomeHolds(b.rules, c) {
      IncludesHolds(b.rules, a.rules, c);
    }
  }

  /** The matched rule recorded in the audit event promotes the candidate again on its own. */
  lemma MatchedRuleAlone(c: Candidate, doc: Rules)
    requires Evaluate(c, doc).Promote?
    ensures Evaluate(c, doc).rule.Some?
    ensures Evaluate(c, Document([Evaluate(c, doc).rule.value], false)) == Evaluate(c, doc)
  {
    FirstMatchIsFirst(doc.rules, c);
    var r := FirstMatch(doc.rules, c).value;
    AllMatchHolds(r, c);
    assert Valid(Document([r], false));
  }

  // ---- Absent values ----

  predicate IsScalar(field: string) {
    field == "provenance.origin_type" || field == "provenance.source.kind" || field == "actor.type"
  }

  /** The candidate has no value for the field. */
  predicate Absent(field: string, c: Candidate) {
    if field == "provenance.origin_type" then c.originType == ""
    else if field == "provenance.source.kind" then c.sourceKind == ""
    else if field == "actor.type" then c.actorType == ""
    else if field == "tags" then c.tags == {}
    else MetadataKey(field).Some? && MetadataKey(field).value !in c.metadata
  }

  /** The value of the condition is, or lists, the empty string; null reads as one. */
  predicate AsksForEmpty(cond: Condition) {
    cond.value.Some?
    && if cond.op == "eq" then AsString(cond.value.value) == Some("")
       else cond.op == "in" && AsStrings(cond.value.value).Some? && "" in AsStrings(cond.value.value).value
  }

  /**
   * "Absent values simply won't match" is false of the code. A valid condition matches an absent value
   * exactly when it asks one of the three scalar fields for the empty string.
   */
  lemma AbsentMatches(cond: Condition, c: Candidate)
    requires ConditionValid(cond) && Absent(cond.field, c)
    ensures ConditionMatches(cond, c) <==> IsScalar(cond.field) && AsksForEmpty(cond)
  {
  }

  /** A storable, valid rule that promotes every candidate without an actor type: it compares with null. */
  lemma NullPromotes(reg: Registry, c: Candidate) returns (doc: Rules)
    requires SIMPLE_ID in reg && reg[SIMPLE_ID] == SIMPLE && c.actorType == ""
    ensures Marshals(doc) && PolicyValid(reg, SIMPLE_ID, doc) && Decide(reg, SIMPLE_ID, c, doc).Promote?
  {
    var conditions := [Condition("actor.type", "eq", Some(JNull))];
    doc := Document([Rule(conditions)], false);
    assert ConditionValid(conditions[0]) && Absent("actor.type", c);
    AbsentMatches(conditions[0], c);
    assert Holds(doc.rules[0], c);
    VerdictMeaning(c, doc);
  }

  // ---- The registry ----

  /** An engine behind the registry: any implementation of the two calls. */
  datatype Engine = Engine(id: string, validate: Rules -> bool, evaluate: (Candidate, Rules) -> Verdict)

  type Registry = map<string, Engine>

  const SIMPLE := Engine(SIMPLE_ID, doc => Valid(doc), (c, doc) => Evaluate(c, doc))

  /** NewRegistry: a later engine replaces an earlier one of the same ID. */
  method NewRegistry(engines: seq<Engine>) returns (r: Registry)
    ensures forall id :: id in r <==> exists i :: 0 <= i < |engines| && engines[i].id == id
    ensures forall id | id in r :: r[id].id == id
    ensures forall i | 0 <= i < |engines| && (forall j | i < j < |engines| :: engines[j].id != engines[i].id) ::
              engines[i].id in r && r[engines[i].id] == engines[i]
  {
    r := map[];
    for n := 0 to |engines|
      invariant forall id :: id in r <==> exists i :: 0 <= i < n && engines[i].id == id
      invariant forall id | id in r :: r[id].id == id
      invariant forall i | 0 <= i < n && (forall j | i < j < n :: engines[j].id != engines[i].id) ::
                  engines[i].id in r && r[engines[i].id] == engines[i]
    {
      r := r[engines[n].id := engines[n]];
    }
  }

  /** json.Marshal of raw rules: they must be one JSON value, or absent. */
  predicate Marshals(rules: Rules) {
    rules != NotJson && (rules.Document? ==> !rules.trailing)
  }

  predicate PolicyValid(reg: Registry, id: string, doc: Rules) {
    id in reg && reg[id].validate(doc)
  }

  /** Registry.Evaluate: an unknown engine or an engine error is never a promotion. */
  function Decide(reg: Registry, id: string, c: Candidate, doc: Rules): Verdict {
    if id !in reg then Error else reg[id].evaluate(c, doc)
  }

  /**
   * Fail closed, end to end: an unknown engine never promotes, and simple/v1 promotes exactly the
   * candidates for which a valid document, with nothing after it, has a rule that holds.
   */
  lemma FailClosed(reg: Registry, id: string, c: Candidate, doc: Rules)
    ensures id !in reg ==> !Decide(reg, id, c, doc).Promote?
    ensures id in reg && reg[id] == SIMPLE ==>
              (Decide(reg, id, c, doc).Promote? <==>
                 PolicyValid(reg, id, doc) && !doc.trailing && SomeHolds(doc.rules, c))
  {
    if id in reg && reg[id] == SIMPLE && Valid(doc) && !doc.trailing {
      VerdictMeaning(c, doc);
    }
  }

  /** Validate alone is not enough: exactly the bytes with more input after valid rules pass it and then fail. */
  lemma ValidatedButRefused(reg: Registry, c: Candidate, doc: Rules)
    requires SIMPLE_ID in reg && reg[SIMPLE_ID] == SIMPLE
    ensures PolicyValid(reg, SIMPLE_ID, doc) && Decide(reg, SIMPLE_ID, c, doc) == Error <==> Valid(doc) && doc.trailing
    ensures Valid(doc) && doc.trailing ==> !Marshals(doc)
  {
  }

  /** Such bytes: one rule on the actor's type, and something after the document. */
  lemma TrailingRefused(reg: Registry, c: Candidate) returns (doc: Rules)
    requires SIMPLE_ID in reg && reg[SIMPLE_ID] == SIMPLE
    ensures PolicyValid(reg, SIMPLE_ID, doc) && Decide(reg, SIMPLE_ID, c, doc) == Error
  {
    var conditions := [Condition("actor.type", "eq", Some(JString("agent")))];
    doc := Document([Rule(conditions)], true);
    assert ConditionValid(conditions[0]);
    ValidatedButRefused(reg, c, doc);
  }
}
