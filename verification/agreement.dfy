/**
 * Client and server derive their checks from the same field descriptors.
 * For fields the server checks the same way the client does (required ones,
 * and optional ones without length or pattern), with unique names and
 * patterns that compile, a record passes every step of the wizard exactly
 * when the backend accepts it.
 */
module Agreement {
  import opened Wrappers
  import opened Schema
  import opened Validation
  import opened App
  import opened Server

  /** A field whose server rule behaves like the client check: required, or free of constraints. */
  predicate SameRuleBothSides(f: Field) {
    f.required || (!HasMaxLength(f) && !HasPattern(f))
  }

  ghost predicate ClientAccepts(values: map<string, string>, f: Field, rx: RegExp) {
    ValidateBySchema(Lookup(values, f.name), f, rx).None?
  }

  /** For one field and one present value, the client passes it exactly when its server rule raises nothing. */
  lemma FieldAgrees(f: Field, v: string, rx: RegExp)
    requires SameRuleBothSides(f)
    requires HasPattern(f) ==> rx.compiles(f.pattern.value)
    ensures ValidateBySchema(v, f, rx).None? <==> Issues(RuleOf(f), Some(v), rx) == []
  {
  }

  /** A step validates exactly when none of its fields fails. */
  lemma StepAccepted(fields: seq<Field>, values: map<string, string>, rx: RegExp)
    ensures StepErrors(fields, values, rx) == map[] <==> forall g :: g in fields ==> ClientAccepts(values, g, rx)
  {
    StepErrorsSpec(fields, values, rx);
    if exists g :: g in fields && !ClientAccepts(values, g, rx) {
      var g :| g in fields && !ClientAccepts(values, g, rx);
      var i :| 0 <= i < |fields| && fields[i] == g;
      assert FailsWith(fields, values, rx, i, ValidateBySchema(Lookup(values, g.name), g, rx).value);
      assert g.name in StepErrors(fields, values, rx);
    } else {
      forall i, e ensures !FailsWith(fields, values, rx, i, e) {
        if 0 <= i < |fields| {
          assert fields[i] in fields;
        }
      }
      assert StepErrors(fields, values, rx).Keys == {};
    }
  }

  /** Every step passes exactly when every field of the document passes. */
  lemma AllStepsAccepted(steps: seq<Step>, values: map<string, string>, rx: RegExp)
    ensures (forall k :: 0 <= k < |steps| ==> StepErrors(steps[k].fields, values, rx) == map[])
            <==> forall g :: g in AllFields(steps) ==> ClientAccepts(values, g, rx)
  {
    if forall k :: 0 <= k < |steps| ==> StepErrors(steps[k].fields, values, rx) == map[] {
      forall g | g in AllFields(steps) ensures ClientAccepts(values, g, rx) {
        InAllFields(steps, g);
        var k :| 0 <= k < |steps| && g in steps[k].fields;
        StepAccepted(steps[k].fields, values, rx);
      }
    } else {
      var k :| 0 <= k < |steps| && StepErrors(steps[k].fields, values, rx) != map[];
      StepAccepted(steps[k].fields, values, rx);
      var g :| g in steps[k].fields && !ClientAccepts(values, g, rx);
      InAllFields(steps, g);
    }
  }

  /**
   * With unique names, comparable rules, compiling patterns and a value for
   * every name, every field passes on the client exactly when no rule raises
   * anything.
   */
  lemma AllFieldsAccepted(fields: seq<Field>, values: map<string, string>, rx: RegExp)
    requires UniqueNames(fields)
    requires forall f :: f in fields ==> SameRuleBothSides(f)
    requires PatternsCompile(fields, rx)
    requires Names(fields) <= values.Keys
    ensures (forall g :: g in fields ==> ClientAccepts(values, g, rx))
            <==> forall n :: n in RulesOf(fields) ==> Issues(RulesOf(fields)[n], Get(values, n), rx) == []
  {
    var shape := RulesOf(fields);
    RulesOfSpec(fields);
    forall i | 0 <= i < |fields|
      ensures fields[i].name in shape
      ensures ClientAccepts(values, fields[i], rx) <==> Issues(shape[fields[i].name], Get(values, fields[i].name), rx) == []
    {
      var g := fields[i];
      RulesOfUnique(fields, i);
      assert g.name in Names(fields);
      FieldAgrees(g, values[g.name], rx);
    }
    if forall g :: g in fields ==> ClientAccepts(values, g, rx) {
      forall n | n in shape ensures Issues(shape[n], Get(values, n), rx) == [] {
        var i :| 0 <= i < |fields| && fields[i].name == n;
      }
    } else {
      var g :| g in fields && !ClientAccepts(values, g, rx);
      var i :| 0 <= i < |fields| && fields[i] == g;
      assert Issues(shape[g.name], Get(values, g.name), rx) != [];
    }
  }

  /** Passing every step of the wizard and being accepted by the backend coincide. */
  lemma ClientServerAgree(doc: Document, values: map<string, string>, rx: RegExp)
    requires UniqueNames(AllFields(doc.steps))
    requires forall f :: f in AllFields(doc.steps) ==> SameRuleBothSides(f)
    requires PatternsCompile(AllFields(doc.steps), rx)
    requires Names(AllFields(doc.steps)) <= values.Keys
    ensures Outcome(doc, values, rx).Some?
    ensures (forall k :: 0 <= k < |doc.steps| ==> StepErrors(doc.steps[k].fields, values, rx) == map[])
            <==> Outcome(doc, values, rx).value.Accepted?
  {
    AllStepsAccepted(doc.steps, values, rx);
    AllFieldsAccepted(AllFields(doc.steps), values, rx);
  }
}
