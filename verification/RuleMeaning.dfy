/** What simple/v1 rules say of a proposal, in terms of the JSON and of the proposal's own fields. */
module RuleMeaning {
  import opened Basics
  import opened Autopromote
  import opened Workflow

  /** A field a rule may name: four fixed ones, and any metadata key. */
  ghost predicate Nameable(field: string) {
    || field == "provenance.origin_type" || field == "provenance.source.kind"
    || field == "actor.type" || field == "tags"
    || exists k :: k != "" && field == "metadata." + k
  }

  ghost predicate WellFormed(cond: Condition) {
    Nameable(cond.field) && (cond.op == "eq" || cond.op == "in") && cond.value.Some?
  }

  /** One document of at least one rule, each with at least one well-formed condition. */
  ghost predicate Acceptable(rules: Rules) {
    && rules.Document? && !rules.trailing && |rules.rules| > 0
    && forall r | r in rules.rules :: |r.all| > 0 && forall cond | cond in r.all :: WellFormed(cond)
  }

  /** A JSON string is itself, and null is the empty string. */
  predicate Reads(v: Json, want: string) {
    v == JString(want) || (v == JNull && want == "")
  }

  /** The condition accepts the string: its value for "eq", an element of its list of strings for "in". */
  ghost predicate Accepts(cond: Condition, want: string) {
    cond.value.Some? &&
    (|| (cond.op == "eq" && Reads(cond.value.value, want))
     || (cond.op == "in" && cond.value.value.JArray?
         && (forall i | 0 <= i < |cond.value.value.items| ::
               cond.value.value.items[i].JString? || cond.value.value.items[i].JNull?)
         && exists i :: 0 <= i < |cond.value.value.items| && Reads(cond.value.value.items[i], want)))
  }

  /** The proposal has the string in the field. */
  ghost predicate Carries(input: ProposeInput, field: string, want: string) {
    || (field == "provenance.origin_type" && input.originType == want)
    || (field == "provenance.source.kind" && input.sourceKind == want)
    || (field == "actor.type" && input.actorType == want)
    || (field == "tags" && want in input.tags)
    || exists k :: k != "" && field == "metadata." + k && k in input.metadata && input.metadata[k] == want
  }

  ghost predicate TrueOf(cond: Condition, input: ProposeInput) {
    exists want :: Accepts(cond, want) && Carries(input, cond.field, want)
  }

  /** The rules have one all of whose conditions are true of the proposal. */
  ghost predicate Promoting(rules: Rules, input: ProposeInput) {
    Acceptable(rules) && exists r :: r in rules.rules && forall cond | cond in r.all :: TrueOf(cond, input)
  }

  // ---- The engine computes it ----

  lemma MetadataMeans(field: string)
    ensures MetadataKey(field).Some? <==> exists k :: k != "" && field == "metadata." + k
    ensures forall k | k != "" && field == "metadata." + k :: MetadataKey(field) == Some(k)
  {
    if MetadataKey(field).Some? {
      assert field == "metadata." + field[9..] && field[9..] != "";
    }
    forall k | k != "" && field == "metadata." + k ensures MetadataKey(field) == Some(k) {
      assert field[..9] == "metadata." && field[9..] == k;
    }
  }

  lemma FieldMeans(field: string, want: string, input: ProposeInput)
    requires Nameable(field)
    ensures FieldHas(field, want, CandidateOf(input)) <==> Carries(input, field, want)
  {
    MetadataMeans(field);
    if exists k :: k != "" && field == "metadata." + k {
      assert field[0] == 'm';
    }
  }

  lemma StringsMean(v: Json, want: string)
    ensures AsStrings(v).Some? && v.JArray? <==>
              v.JArray? && forall i | 0 <= i < |v.items| :: v.items[i].JString? || v.items[i].JNull?
    ensures AsStrings(v).Some? ==>
              (want in AsStrings(v).value <==> v.JArray? && exists i :: 0 <= i < |v.items| && Reads(v.items[i], want))
  {
    if v.JArray? && AsStrings(v).Some? {
      forall i | 0 <= i < |v.items| ensures AsStrings(v).value[i] == want <==> Reads(v.items[i], want) {
      }
      if want in AsStrings(v).value {
        var i :| 0 <= i < |v.items| && AsStrings(v).value[i] == want;
        assert Reads(v.items[i], want);
      }
      if i :| 0 <= i < |v.items| && Reads(v.items[i], want) {
        assert AsStrings(v).value[i] == want;
      }
    }
  }

  lemma ConditionMeans(cond: Condition, input: ProposeInput)
    requires WellFormed(cond)
    ensures ConditionMatches(cond, CandidateOf(input)) <==> TrueOf(cond, input)
  {
    forall want ensures FieldHas(cond.field, want, CandidateOf(input)) <==> Carries(input, cond.field, want) {
      FieldMeans(cond.field, want, input);
    }
    var v := cond.value.value;
    if cond.op == "eq" {
      if ConditionMatches(cond, CandidateOf(input)) {
        assert Accepts(cond, AsString(v).value);
      }
    } else {
      ListMeans(cond, input);
    }
  }

  lemma ListMeans(cond: Condition, input: ProposeInput)
    requires WellFormed(cond) && cond.op == "in"
    requires forall want :: FieldHas(cond.field, want, CandidateOf(input)) <==> Carries(input, cond.field, want)
    ensures ConditionMatches(cond, CandidateOf(input)) <==> TrueOf(cond, input)
  {
    var v := cond.value.value;
    if ConditionMatches(cond, CandidateOf(input)) {
      var wants := AsStrings(v).value;
      var i :| 0 <= i < |wants| && FieldHas(cond.field, wants[i], CandidateOf(input));
      StringsMean(v, wants[i]);
      assert Accepts(cond, wants[i]) && Carries(input, cond.field, wants[i]);
    }
    if want :| Accepts(cond, want) && Carries(input, cond.field, want) {
      StringsMean(v, want);
      assert want in AsStrings(v).value;
    }
  }

  lemma ValidMeans(rules: Rules)
    ensures Valid(rules) && !rules.trailing <==> Acceptable(rules)
  {
    forall field ensures FieldAllowed(field) <==> Nameable(field) {
      MetadataMeans(field);
    }
    if rules.Document? {
      forall r: Rule ensures (forall j | 0 <= j < |r.all| :: ConditionValid(r.all[j])) <==>
                         (forall cond | cond in r.all :: WellFormed(cond)) {
        RuleMeans(r);
      }
      if Acceptable(rules) {
        forall i | 0 <= i < |rules.rules| ensures rules.rules[i] in rules.rules {
        }
      }
    }
  }

  lemma RuleMeans(r: Rule)
    requires forall field :: FieldAllowed(field) <==> Nameable(field)
    ensures (forall j | 0 <= j < |r.all| :: ConditionValid(r.all[j])) <==>
              forall cond | cond in r.all :: WellFormed(cond)
  {
    forall cond ensures ConditionValid(cond) <==> WellFormed(cond) {
    }
  }

  /** simple/v1 promotes a proposal if and only if some rule of acceptable rules is true of it. */
  lemma SimpleMeans(rules: Rules, input: ProposeInput)
    ensures Evaluate(CandidateOf(input), rules).Promote? <==> Promoting(rules, input)
  {
    ValidMeans(rules);
    if Acceptable(rules) {
      VerdictMeaning(CandidateOf(input), rules);
      forall r | r in rules.rules
        ensures Holds(r, CandidateOf(input)) <==> forall cond | cond in r.all :: TrueOf(cond, input)
      {
        forall cond | cond in r.all ensures ConditionMatches(cond, CandidateOf(input)) <==> TrueOf(cond, input) {
          ConditionMeans(cond, input);
        }
      }
    }
  }

  /** Every promotion names a rule of the document that is not empty, names only such fields, and is true. */
  lemma PromotionNamesRule(rules: Rules, input: ProposeInput)
    requires Evaluate(CandidateOf(input), rules).Promote?
    ensures Evaluate(CandidateOf(input), rules).rule.Some?
    ensures var r := Evaluate(CandidateOf(input), rules).rule.value;
            && rules.Document? && r in rules.rules && |r.all| > 0
            && forall cond | cond in r.all :: Nameable(cond.field) && TrueOf(cond, input)
  {
    ValidMeans(rules);
    VerdictMeaning(CandidateOf(input), rules);
    var r := Evaluate(CandidateOf(input), rules).rule.value;
    forall cond | cond in r.all ensures TrueOf(cond, input) {
      ConditionMeans(cond, input);
    }
  }
}
