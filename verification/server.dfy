/**
 * The backend's record rules: the schema flattened into one constraint
 * triple per field name, the accept/reject decision over a request body, the
 * projection onto the persisted columns, and the two endpoints that use them.
 */
module Server {
  import opened Wrappers
  import opened Schema

  /** The rule one field contributes: required, maximum length, pattern (and the caption its messages start with). */
  datatype Rule = Rule(caption: string, required: bool, maxlength: Option<int>, pattern: Option<string>)

  /** The rule built for a field; a falsy `maxlength` or `pattern` adds no check. */
  function RuleOf(f: Field): (r: Rule)
    ensures r.caption == LabelText(f) && r.required == f.required
    ensures r.maxlength.Some? <==> HasMaxLength(f)
    ensures r.maxlength.Some? ==> r.maxlength == f.maxlength
    ensures r.pattern.Some? <==> HasPattern(f)
    ensures r.pattern.Some? ==> r.pattern == f.pattern
  {
    Rule(LabelText(f), f.required,
         if HasMaxLength(f) then f.maxlength else None,
         if HasPattern(f) then f.pattern else None)
  }

  /** Every truthy pattern compiles, so `new RegExp` never throws while the rules are built. */
  predicate PatternsCompile(fields: seq<Field>, rx: RegExp) {
    forall i :: 0 <= i < |fields| && HasPattern(fields[i]) ==> rx.compiles(fields[i].pattern.value)
  }

  /** The `shape` dictionary: one rule per name, a later field replacing an earlier rule of the same name. */
  function RulesOf(fields: seq<Field>): map<string, Rule> {
    if fields == [] then map[]
    else RulesOf(fields[..|fields| - 1])[fields[|fields| - 1].name := RuleOf(fields[|fields| - 1])]
  }

  /** One more field sets (or replaces) the rule of its name. */
  lemma RulesOfSnoc(fields: seq<Field>, f: Field)
    ensures RulesOf(fields + [f]) == RulesOf(fields)[f.name := RuleOf(f)]
  {
    assert (fields + [f])[..|fields|] == fields;
  }

  /** Taking one more field of a step into the rules built so far. */
  lemma RulesOfStep(before: seq<Field>, fields: seq<Field>, j: int)
    requires 0 <= j < |fields|
    ensures RulesOf(before + fields[..j + 1]) == RulesOf(before + fields[..j])[fields[j].name := RuleOf(fields[j])]
  {
    assert before + fields[..j + 1] == (before + fields[..j]) + [fields[j]];
    RulesOfSnoc(before + fields[..j], fields[j]);
  }

  /** Field `i` is the last field with its name. */
  ghost predicate LastOfName(fields: seq<Field>, i: int) {
    0 <= i < |fields| && forall j :: i < j < |fields| ==> fields[j].name != fields[i].name
  }

  /** Every field name has a rule, and it is the rule of the last field with that name. */
  lemma {:induction false} RulesOfSpec(fields: seq<Field>)
    ensures RulesOf(fields).Keys == Names(fields)
    ensures forall i :: LastOfName(fields, i) ==> RulesOf(fields)[fields[i].name] == RuleOf(fields[i])
  {
    if fields != [] {
      var init := fields[..|fields| - 1];
      var last := fields[|fields| - 1];
      RulesOfSpec(init);
      assert fields == init + [last];
      RulesOfSnoc(init, last);
      NamesSnoc(init, last);
      forall i | LastOfName(fields, i) ensures RulesOf(fields)[fields[i].name] == RuleOf(fields[i]) {
        if i < |init| {
          assert LastOfName(init, i);
          assert fields[i] == init[i];
        }
      }
    }
  }

  /** With unique names, each field's own rule is the one in force. */
  lemma RulesOfUnique(fields: seq<Field>, i: int)
    requires UniqueNames(fields) && 0 <= i < |fields|
    ensures fields[i].name in RulesOf(fields) && RulesOf(fields)[fields[i].name] == RuleOf(fields[i])
  {
    RulesOfSpec(fields);
    assert LastOfName(fields, i);
  }

  /**
   * The inner loop of `buildZodFromSchema` over one step's fields, adding
   * each field's rule to `shape`. `None` when a pattern does not compile.
   */
  method AddStepRules(shape: map<string, Rule>, ghost before: seq<Field>, fields: seq<Field>, rx: RegExp)
    returns (r: Option<map<string, Rule>>)
    requires shape == RulesOf(before)
    ensures r.Some? <==> PatternsCompile(fields, rx)
    ensures r.Some? ==> r.value == RulesOf(before + fields)
  {
    var m := shape;
    assert before + fields[..0] == before;
    for j := 0 to |fields|
      invariant forall i :: 0 <= i < j && HasPattern(fields[i]) ==> rx.compiles(fields[i].pattern.value)
      invariant m == RulesOf(before + fields[..j])
    {
      var f := fields[j];
      if HasPattern(f) && !rx.compiles(f.pattern.value) {
        return None;
      }
      RulesOfStep(before, fields, j);
      m := m[f.name := RuleOf(f)];
    }
    assert fields[..|fields|] == fields;
    return Some(m);
  }

  /** The patterns of two field lists compile together exactly when those of each do. */
  lemma PatternsCompileAppend(a: seq<Field>, b: seq<Field>, rx: RegExp)
    ensures PatternsCompile(a + b, rx) <==> PatternsCompile(a, rx) && PatternsCompile(b, rx)
  {
    assert forall i :: 0 <= i < |a| ==> (a + b)[i] == a[i];
    assert forall i :: 0 <= i < |b| ==> (a + b)[|a| + i] == b[i];
  }

  /**
   * `buildZodFromSchema`: the nested loops over steps and fields filling
   * `shape`. `None` stands for the exception `new RegExp` throws on a
   * pattern that does not compile.
   */
  method BuildZodFromSchema(doc: Document, rx: RegExp) returns (shape: Option<map<string, Rule>>)
    ensures shape.Some? <==> PatternsCompile(AllFields(doc.steps), rx)
    ensures shape.Some? ==> shape.value == RulesOf(AllFields(doc.steps))
  {
    var m := map[];
    for s := 0 to |doc.steps|
      invariant PatternsCompile(AllFields(doc.steps[..s]), rx)
      invariant m == RulesOf(AllFields(doc.steps[..s]))
    {
      var fields := doc.steps[s].fields;
      var r := AddStepRules(m, AllFields(doc.steps[..s]), fields, rx);
      if r.None? {
        var i :| 0 <= i < |fields| && HasPattern(fields[i]) && !rx.compiles(fields[i].pattern.value);
        InAllFields(doc.steps, fields[i]);
        return None;
      }
      assert doc.steps[..s + 1][..s] == doc.steps[..s];
      PatternsCompileAppend(AllFields(doc.steps[..s]), fields, rx);
      m := r.value;
    }
    assert doc.steps[..|doc.steps|] == doc.steps;
    return Some(m);
  }

  /** The body's value under `k`; the model's bodies hold strings only. */
  function Get(body: map<string, string>, k: string): Option<string> {
    if k in body then Some(body[k]) else None
  }

  /**
   * The messages one rule produces for a value, in check order. A missing
   * required value gets the library's own message, modelled as "Required".
   */
  function Issues(rule: Rule, v: Option<string>, rx: RegExp): (r: seq<string>)
    ensures v.None? ==> (r == [] <==> !rule.required)
    ensures v.None? && rule.required ==> r == ["Required"]
    ensures v.Some? ==> |r| <= 3
    ensures v.Some? ==> forall i, j :: 0 <= i < j < |r| ==> r[i] != r[j]
    // no message other than those of the checks that fail
    ensures v.Some? ==> forall m :: m in r ==>
              (m == rule.caption + " is required" && rule.required && v.value == "")
              || (m == rule.caption + " too long" && rule.maxlength.Some? && |v.value| > rule.maxlength.value)
              || (m == rule.caption + " invalid" && rule.pattern.Some? && !rx.test(rule.pattern.value, v.value))
    ensures v.Some? && rule.required && v.value == "" ==> rule.caption + " is required" in r
    ensures v.Some? && rule.maxlength.Some? && |v.value| > rule.maxlength.value ==> rule.caption + " too long" in r
    ensures v.Some? && rule.pattern.Some? && !rx.test(rule.pattern.value, v.value) ==> rule.caption + " invalid" in r
    ensures v.Some? ==>
              (r == [] <==> (rule.required ==> v.value != "")
                            && (rule.maxlength.Some? ==> |v.value| <= rule.maxlength.value)
                            && (rule.pattern.Some? ==> rx.test(rule.pattern.value, v.value)))
  {
    match v
    case None => if rule.required then ["Required"] else []
    case Some(s) =>
      (if rule.required && |s| < 1 then [rule.caption + " is required"] else [])
      + (if rule.maxlength.Some? && |s| > rule.maxlength.value then [rule.caption + " too long"] else [])
      + (if rule.pattern.Some? && !rx.test(rule.pattern.value, s) then [rule.caption + " invalid"] else [])
  }

  /** What `safeParse` decides: per-field errors, or the parsed data (unknown keys stripped). */
  datatype Verdict = Rejected(fieldErrors: map<string, seq<string>>) | Accepted(data: map<string, string>)

  function Decide(shape: map<string, Rule>, body: map<string, string>, rx: RegExp): (r: Verdict)
    ensures r.Accepted? <==> forall k :: k in shape ==> Issues(shape[k], Get(body, k), rx) == []
    ensures r.Rejected? ==> r.fieldErrors != map[]
    ensures r.Rejected? ==> forall k :: k in r.fieldErrors <==> k in shape && Issues(shape[k], Get(body, k), rx) != []
    ensures r.Rejected? ==> forall k :: k in r.fieldErrors ==> r.fieldErrors[k] == Issues(shape[k], Get(body, k), rx)
    ensures r.Accepted? ==> r.data.Keys == shape.Keys * body.Keys
    ensures r.Accepted? ==> forall k :: k in r.data ==> r.data[k] == body[k]
  {
    var errs := map k | k in shape && Issues(shape[k], Get(body, k), rx) != [] :: Issues(shape[k], Get(body, k), rx);
    if errs == map[] then
      assert forall k :: k in shape ==> Issues(shape[k], Get(body, k), rx) == [] by {
        forall k | k in shape ensures Issues(shape[k], Get(body, k), rx) == [] {
          assert k !in errs;
        }
      }
      Accepted(map k | k in shape && k in body :: body[k])
    else
      Rejected(errs)
  }

  /** The outcome for a request: `None` when building the rules throws. */
  function Outcome(doc: Document, body: map<string, string>, rx: RegExp): (r: Option<Verdict>)
    ensures r.None? <==> exists f :: f in AllFields(doc.steps) && HasPattern(f) && !rx.compiles(f.pattern.value)
    ensures r.Some? ==>
              var shape := RulesOf(AllFields(doc.steps));
              (r.value.Accepted? <==> forall k :: k in shape ==> Issues(shape[k], Get(body, k), rx) == [])
    // the verdict, with its field errors or data, is the decision over the document's rules
    ensures r.Some? ==> r.value == Decide(RulesOf(AllFields(doc.steps)), body, rx)
  {
    var fields := AllFields(doc.steps);
    if PatternsCompile(fields, rx) then Some(Decide(RulesOf(fields), body, rx)) else None
  }

  // ---------------------------------------------------------------------
  // Persisted row

  /** A stored submission: eleven nullable columns and the whole parsed record. */
  datatype Row = Row(
    aadhaar: Option<string>,
    aadhaarName: Option<string>,
    mobile: Option<string>,
    captcha: Option<string>,
    otp: Option<string>,
    panNumber: Option<string>,
    panName: Option<string>,
    pinCode: Option<string>,
    district: Option<string>,
    state: Option<string>,
    orgType: Option<string>,
    payload: map<string, string>)

  const Columns: seq<string> :=
    ["aadhaar", "aadhaarName", "mobile", "captcha", "otp", "panNumber", "panName",
     "pinCode", "district", "state", "orgType"]

  /** The record key a column is read from: `aadhaar` reads `aadhaarNumber`, the others their own name. */
  function ColumnKey(column: string): string {
    if column == "aadhaar" then "aadhaarNumber" else column
  }

  /** The column of a row by its name. */
  function Column(row: Row, column: string): Option<string> {
    match column
    case "aadhaar" => row.aadhaar
    case "aadhaarName" => row.aadhaarName
    case "mobile" => row.mobile
    case "captcha" => row.captcha
    case "otp" => row.otp
    case "panNumber" => row.panNumber
    case "panName" => row.panName
    case "pinCode" => row.pinCode
    case "district" => row.district
    case "state" => row.state
    case "orgType" => row.orgType
    case _ => None
  }

  /** `data[key] || null`. */
  function NullIfEmpty(data: map<string, string>, key: string): Option<string> {
    if key in data && data[key] != "" then Some(data[key]) else None
  }

  /**
   * The row created for accepted data: each column holds the value under
   * its key, or null when that value is empty or absent; `payload` is the
   * whole parsed record.
   */
  function Project(data: map<string, string>): (r: Row)
    ensures r.payload == data
    ensures forall c :: c in Columns ==>
              (Column(r, c).None? <==> ColumnKey(c) !in data || data[ColumnKey(c)] == "")
              && (Column(r, c).Some? ==> Column(r, c).value == data[ColumnKey(c)])
  {
    Row(NullIfEmpty(data, "aadhaarNumber"), NullIfEmpty(data, "aadhaarName"), NullIfEmpty(data, "mobile"),
        NullIfEmpty(data, "captcha"), NullIfEmpty(data, "otp"), NullIfEmpty(data, "panNumber"),
        NullIfEmpty(data, "panName"), NullIfEmpty(data, "pinCode"), NullIfEmpty(data, "district"),
        NullIfEmpty(data, "state"), NullIfEmpty(data, "orgType"), data)
  }

  // ---------------------------------------------------------------------
  // Endpoints

  datatype Response =
    | ValidOk                                    // 200 { ok: true }
    | CreatedOk(id: int)                         // 200 { ok: true, id }
    | BadRequest(errors: map<string, seq<string>>) // 400 { errors }
    | ServerError(error: string)                 // 500 { error }

  /** `POST /api/validate`. */
  method ApiValidate(doc: Document, body: map<string, string>, rx: RegExp) returns (resp: Response)
    ensures Outcome(doc, body, rx).None? ==> resp == ServerError("Validation failed")
    ensures forall d :: Outcome(doc, body, rx) == Some(Accepted(d)) ==> resp == ValidOk
    ensures forall e :: Outcome(doc, body, rx) == Some(Rejected(e)) ==> resp == BadRequest(e)
  {
    var shape := BuildZodFromSchema(doc, rx);
    if shape.None? {
      return ServerError("Validation failed");
    }
    var parsed := Decide(shape.value, body, rx);
    if parsed.Rejected? {
      return BadRequest(parsed.fieldErrors);
    }
    return ValidOk;
  }

  /**
   * `POST /api/submit`. `created` is the store's answer to `create` (an id,
   * or `None` when it throws); `stored` is the row handed to the store, if any.
   */
  method ApiSubmit(doc: Document, body: map<string, string>, rx: RegExp, created: Option<int>)
    returns (resp: Response, stored: Option<Row>)
    ensures Outcome(doc, body, rx).None? ==> resp == ServerError("Submit failed") && stored == None
    ensures forall e :: Outcome(doc, body, rx) == Some(Rejected(e)) ==> resp == BadRequest(e) && stored == None
    ensures forall d :: Outcome(doc, body, rx) == Some(Accepted(d)) ==>
              stored == Some(Project(d))
              && resp == (if created.Some? then CreatedOk(created.value) else ServerError("Submit failed"))
  {
    var shape := BuildZodFromSchema(doc, rx);
    if shape.None? {
      return ServerError("Submit failed"), None;
    }
    var parsed := Decide(shape.value, body, rx);
    if parsed.Rejected? {
      return BadRequest(parsed.fieldErrors), None;
    }
    stored := Some(Project(parsed.data));
    if created.Some? {
      resp := CreatedOk(created.value);
    } else {
      resp := ServerError("Submit failed");
    }
  }
}
