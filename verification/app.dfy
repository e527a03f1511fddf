/**
 * The wizard-style form controller: the per-field input transform, the
 * PIN-code lookup parse and auto-fill merge, step validation, and the
 * component state (`stepIndex`, `values`, `errors`) with the handlers that
 * change it.
 */
module App {
  import opened Wrappers
  import opened Text
  import opened Schema
  import opened Validation

  /** The lower-cased field name contains "name": input is kept as typed. */
  predicate IsNameField(f: Field) {
    Contains(ToLower(f.name), "name")
  }

  /** Numeric by input type, or by "pin", "aadhaar" or "otp" in the lower-cased name. */
  predicate IsDigitField(f: Field) {
    var n := ToLower(f.name);
    f.inputType == "tel" || f.inputType == "number"
    || Contains(n, "pin") || Contains(n, "aadhaar") || Contains(n, "otp")
  }

  /**
   * The transform a text input applies to what the user typed: name fields
   * first (kept as typed), then digit fields (digits only), then everything
   * else (upper-cased).
   */
  function Transform(f: Field, raw: string): (r: string)
    ensures IsNameField(f) ==> r == raw
    ensures !IsNameField(f) && IsDigitField(f) ==> AllDigits(r) && r == OnlyDigits(raw)
    ensures !IsNameField(f) && !IsDigitField(f) ==>
              |r| == |raw|
              && (forall i :: 0 <= i < |raw| && IsLowerAscii(raw[i]) ==> IsUpperAscii(r[i]) && r[i] as int == raw[i] as int - 32)
              && (forall i :: 0 <= i < |raw| && !IsLowerAscii(raw[i]) ==> r[i] == raw[i])
  {
    if IsNameField(f) then raw
    else if IsDigitField(f) then OnlyDigits(raw)
    else ToUpper(raw)
  }

  /** Typing the stored value again changes nothing: every transform is idempotent. */
  lemma TransformIdempotent(f: Field, raw: string)
    ensures Transform(f, Transform(f, raw)) == Transform(f, raw)
  {
    if !IsNameField(f) {
      if IsDigitField(f) {
        OnlyDigitsIdempotent(raw);
      } else {
        ToUpperIdempotent(raw);
      }
    }
  }

  // ---------------------------------------------------------------------
  // PIN-code lookup

  datatype PostOffice = PostOffice(district: Option<string>, state: Option<string>)

  /** One element of the lookup service's answer: `Status` and `PostOffice`. */
  datatype PinItem = PinItem(status: Option<string>, postOffices: Option<seq<PostOffice>>)

  datatype Place = Place(district: string, state: string)

  /** `item.PostOffice?.[0]`. */
  function FirstPostOffice(item: PinItem): Option<PostOffice> {
    if item.postOffices.Some? && |item.postOffices.value| > 0 then Some(item.postOffices.value[0]) else None
  }

  /** `x || ""` on a possibly missing string. */
  function OrEmpty(s: Option<string>): string {
    s.GetOr("")
  }

  /**
   * What `fetchPIN` makes of the decoded answer: `None` where it throws
   * ("Invalid PIN"), otherwise the first post office's district and state.
   */
  function FetchPinResult(data: seq<PinItem>): (r: Option<Place>)
    ensures r.Some? <==> |data| > 0 && data[0].status == Some("Success")
    ensures r.Some? && FirstPostOffice(data[0]).None? ==> r.value == Place("", "")
    ensures r.Some? && FirstPostOffice(data[0]).Some? ==>
              var po := FirstPostOffice(data[0]).value;
              (po.district.None? ==> r.value.district == "")
              && (po.district.Some? ==> r.value.district == po.district.value)
              && (po.state.None? ==> r.value.state == "")
              && (po.state.Some? ==> r.value.state == po.state.value)
  {
    if |data| == 0 || data[0].status != Some("Success") then None
    else
      match FirstPostOffice(data[0])
      case None => Some(Place("", ""))
      case Some(po) => Some(Place(OrEmpty(po.district), OrEmpty(po.state)))
  }

  /**
   * The auto-fill update `{ ...v, district: v.district || district,
   * state: v.state || state }`: a non-empty district or state is never
   * overwritten, and no other key changes.
   */
  function MergeAutofill(v: map<string, string>, p: Place): (r: map<string, string>)
    ensures r.Keys == v.Keys + {"district", "state"}
    ensures Lookup(v, "district") != "" ==> r["district"] == v["district"]
    ensures Lookup(v, "district") == "" ==> r["district"] == p.district
    ensures Lookup(v, "state") != "" ==> r["state"] == v["state"]
    ensures Lookup(v, "state") == "" ==> r["state"] == p.state
    ensures forall k :: k in v && k != "district" && k != "state" ==> r[k] == v[k]
  {
    var d := Lookup(v, "district");
    var s := Lookup(v, "state");
    v["district" := if d != "" then d else p.district]["state" := if s != "" then s else p.state]
  }

  /** A second answer for the same PIN changes nothing. */
  lemma MergeAutofillIdempotent(v: map<string, string>, p: Place)
    ensures MergeAutofill(MergeAutofill(v, p), p) == MergeAutofill(v, p)
  {
    var once := MergeAutofill(v, p);
    var twice := MergeAutofill(once, p);
    assert twice.Keys == once.Keys;
    forall k | k in once ensures twice[k] == once[k] {
    }
  }

  // ---------------------------------------------------------------------
  // Step validation

  /**
   * The `err` dictionary `validateAll` builds over one step's fields: each
   * failing field's message under its name, a later field overwriting an
   * earlier one of the same name.
   */
  function StepErrors(fields: seq<Field>, values: map<string, string>, rx: RegExp): map<string, string> {
    if fields == [] then map[]
    else
      var f := fields[|fields| - 1];
      var acc := StepErrors(fields[..|fields| - 1], values, rx);
      match ValidateBySchema(Lookup(values, f.name), f, rx)
      case Some(e) => acc[f.name := e]
      case None => acc
  }

  /** One more field records its message under its name when it fails, and changes nothing otherwise. */
  lemma StepErrorsSnoc(fields: seq<Field>, f: Field, values: map<string, string>, rx: RegExp)
    ensures StepErrors(fields + [f], values, rx) ==
            match ValidateBySchema(Lookup(values, f.name), f, rx)
            case Some(e) => StepErrors(fields, values, rx)[f.name := e]
            case None => StepErrors(fields, values, rx)
  {
    assert (fields + [f])[..|fields|] == fields;
  }

  /** Field `i` of the step fails validation with message `e`. */
  ghost predicate FailsWith(fields: seq<Field>, values: map<string, string>, rx: RegExp, i: int, e: string) {
    0 <= i < |fields| && ValidateBySchema(Lookup(values, fields[i].name), fields[i], rx) == Some(e)
  }

  /** A name has an error exactly when some field of that name fails. */
  lemma {:induction false} StepErrorsKeys(fields: seq<Field>, values: map<string, string>, rx: RegExp)
    ensures forall k :: k in StepErrors(fields, values, rx) <==>
              exists i, e :: FailsWith(fields, values, rx, i, e) && fields[i].name == k
  {
    if fields != [] {
      var init := fields[..|fields| - 1];
      var last := |fields| - 1;
      var f := fields[last];
      StepErrorsKeys(init, values, rx);
      assert fields == init + [f];
      StepErrorsSnoc(init, f, values, rx);
      var acc := StepErrors(init, values, rx);
      var r := StepErrors(fields, values, rx);
      forall k ensures k in r <==> exists i, e :: FailsWith(fields, values, rx, i, e) && fields[i].name == k {
        if k == f.name && ValidateBySchema(Lookup(values, f.name), f, rx).Some? {
          assert FailsWith(fields, values, rx, last, ValidateBySchema(Lookup(values, f.name), f, rx).value);
        } else {
          assert k in r <==> k in acc;
          if k in acc {
            var i, e :| FailsWith(init, values, rx, i, e) && init[i].name == k;
            assert FailsWith(fields, values, rx, i, e);
          }
          if exists i, e :: FailsWith(fields, values, rx, i, e) && fields[i].name == k {
            var i, e :| FailsWith(fields, values, rx, i, e) && fields[i].name == k;
            assert i != last;
            assert FailsWith(init, values, rx, i, e);
          }
        }
      }
    }
  }

  /** The error recorded under a name is the message of some failing field of that name. */
  lemma {:induction false} StepErrorsValues(fields: seq<Field>, values: map<string, string>, rx: RegExp)
    ensures forall k :: k in StepErrors(fields, values, rx) ==>
              exists i :: FailsWith(fields, values, rx, i, StepErrors(fields, values, rx)[k]) && fields[i].name == k
  {
    if fields != [] {
      var init := fields[..|fields| - 1];
      var last := |fields| - 1;
      var f := fields[last];
      StepErrorsValues(init, values, rx);
      assert fields == init + [f];
      StepErrorsSnoc(init, f, values, rx);
      var acc := StepErrors(init, values, rx);
      var r := StepErrors(fields, values, rx);
      forall k | k in r
        ensures exists i :: FailsWith(fields, values, rx, i, r[k]) && fields[i].name == k
      {
        if k == f.name && ValidateBySchema(Lookup(values, f.name), f, rx).Some? {
          assert FailsWith(fields, values, rx, last, r[k]);
        } else {
          var i :| FailsWith(init, values, rx, i, acc[k]) && init[i].name == k;
          assert FailsWith(fields, values, rx, i, r[k]);
        }
      }
    }
  }

  /**
   * A name has an error exactly when some field of that name fails, and the
   * error recorded is the message of one such field.
   */
  lemma StepErrorsSpec(fields: seq<Field>, values: map<string, string>, rx: RegExp)
    ensures forall k :: k in StepErrors(fields, values, rx) <==>
              exists i, e :: FailsWith(fields, values, rx, i, e) && fields[i].name == k
    ensures forall k :: k in StepErrors(fields, values, rx) ==>
              exists i :: FailsWith(fields, values, rx, i, StepErrors(fields, values, rx)[k]) && fields[i].name == k
  {
    StepErrorsKeys(fields, values, rx);
    StepErrorsValues(fields, values, rx);
  }

  /** Field `i` fails, and no later field of the same name fails. */
  ghost predicate LastFailing(fields: seq<Field>, values: map<string, string>, rx: RegExp, i: int) {
    0 <= i < |fields|
    && ValidateBySchema(Lookup(values, fields[i].name), fields[i], rx).Some?
    && forall j :: i < j < |fields| && fields[j].name == fields[i].name ==>
         ValidateBySchema(Lookup(values, fields[j].name), fields[j], rx).None?
  }

  /** With duplicate names, the error kept is the message of the last failing field of that name. */
  lemma {:induction false} StepErrorsLast(fields: seq<Field>, values: map<string, string>, rx: RegExp, i: int)
    requires LastFailing(fields, values, rx, i)
    ensures fields[i].name in StepErrors(fields, values, rx)
    ensures StepErrors(fields, values, rx)[fields[i].name]
            == ValidateBySchema(Lookup(values, fields[i].name), fields[i], rx).value
  {
    var last := |fields| - 1;
    var init := fields[..last];
    assert fields == init + [fields[last]];
    StepErrorsSnoc(init, fields[last], values, rx);
    if i < last {
      assert fields[last].name == fields[i].name ==>
             ValidateBySchema(Lookup(values, fields[last].name), fields[last], rx).None?;
      assert LastFailing(init, values, rx, i);
      StepErrorsLast(init, values, rx, i);
    }
  }

  /** The `forEach` loop of `validateAll`. */
  method CollectErrors(fields: seq<Field>, values: map<string, string>, rx: RegExp) returns (err: map<string, string>)
    ensures err == StepErrors(fields, values, rx)
  {
    err := map[];
    for i := 0 to |fields|
      invariant err == StepErrors(fields[..i], values, rx)
    {
      assert fields[..i + 1] == fields[..i] + [fields[i]];
      StepErrorsSnoc(fields[..i], fields[i], values, rx);
      var e := ValidateBySchema(Lookup(values, fields[i].name), fields[i], rx);
      if e.Some? {
        err := err[fields[i].name := e.value];
      }
    }
    assert fields[..|fields|] == fields;
  }

  /** The `init` loop run when the schema arrives: every field name of every step maps to "". */
  method InitialValues(steps: seq<Step>) returns (init: map<string, string>)
    ensures init.Keys == Names(AllFields(steps))
    ensures forall k :: k in init ==> init[k] == ""
  {
    init := map[];
    for s := 0 to |steps|
      invariant init.Keys == Names(AllFields(steps[..s]))
      invariant forall k :: k in init ==> init[k] == ""
    {
      var fields := steps[s].fields;
      ghost var before := AllFields(steps[..s]);
      assert before + fields[..0] == before;
      for j := 0 to |fields|
        invariant init.Keys == Names(before + fields[..j])
        invariant forall k :: k in init ==> init[k] == ""
      {
        assert before + fields[..j + 1] == (before + fields[..j]) + [fields[j]];
        NamesSnoc(before + fields[..j], fields[j]);
        init := init[fields[j].name := ""];
      }
      assert steps[..s + 1][..s] == steps[..s];
      assert fields[..|fields|] == fields;
    }
    assert steps[..|steps|] == steps;
  }

  /** The `errors` state that `validateAll` installs: its `err` dictionary. */
  function ErrorMap(err: map<string, string>): (r: map<string, Option<string>>)
    ensures r.Keys == err.Keys
    ensures forall k :: k in r ==> r[k] == Some(err[k])
  {
    map k | k in err :: Some(err[k])
  }

  /** The form component's state and its event handlers. */
  class Wizard {
    /** The schema has arrived (`schema` is no longer null). */
    var loaded: bool
    /** `schema?.steps ?? []`. */
    var steps: seq<Step>
    var stepIndex: nat
    var values: map<string, string>
    /** Field errors; `None` is a cleared (null) entry. */
    var errors: map<string, Option<string>>

    /** The step index stays on a step, and every field name has a value once the schema is in. */
    ghost predicate Valid()
      reads this
    {
      (!loaded ==> steps == [])
      && (|steps| == 0 ==> stepIndex == 0)
      && (|steps| > 0 ==> stepIndex < |steps|)
      && (loaded ==> Names(AllFields(steps)) <= values.Keys)
    }

    constructor ()
      ensures Valid()
      ensures !loaded && steps == [] && stepIndex == 0 && values == map[] && errors == map[]
    {
      loaded := false;
      steps := [];
      stepIndex := 0;
      values := map[];
      errors := map[];
    }

    /** The schema-load effect, which runs once: install the schema and the initial values. */
    method LoadSchema(doc: Document)
      requires Valid() && !loaded
      modifies this`loaded, this`steps, this`values
      ensures Valid()
      ensures loaded && steps == doc.steps && stepIndex == 0
      ensures values.Keys == Names(AllFields(doc.steps))
      ensures forall k :: k in values ==> values[k] == ""
      ensures errors == old(errors)
    {
      var init := InitialValues(doc.steps);
      steps := doc.steps;
      values := init;
      loaded := true;
    }

    /** `setValue`: store `value` under `name`; every other value stays. */
    method SetValue(name: string, value: string)
      requires Valid()
      modifies this`values
      ensures Valid()
      ensures values == old(values)[name := value]
    {
      values := values[name := value];
    }

    /**
     * An input's `onChange`. A select stores the chosen value as it is and
     * keeps its error; a text input stores the transformed value and clears
     * that field's error (to null).
     */
    method OnChange(f: Field, raw: string)
      requires Valid()
      modifies this`values, this`errors
      ensures Valid()
      ensures f.tag == "select" ==> values == old(values)[f.name := raw] && errors == old(errors)
      ensures f.tag != "select" ==>
                values == old(values)[f.name := Transform(f, raw)] && errors == old(errors)[f.name := None]
    {
      if f.tag == "select" {
        SetValue(f.name, raw);
      } else {
        SetValue(f.name, Transform(f, raw));
        errors := errors[f.name := None];
      }
    }

    /**
     * `validateAll`: with no current step, fail and leave the errors; otherwise
     * replace the errors by exactly the current step's failures, and succeed
     * when there are none.
     */
    method ValidateAll(rx: RegExp) returns (ok: bool)
      requires Valid()
      modifies this`errors
      ensures Valid()
      ensures |steps| == 0 ==> !ok && errors == old(errors)
      ensures |steps| > 0 ==>
                var err := StepErrors(steps[stepIndex].fields, values, rx);
                errors == ErrorMap(err) && (ok <==> err == map[])
    {
      if |steps| == 0 {
        return false;
      }
      var err := CollectErrors(steps[stepIndex].fields, values, rx);
      errors := ErrorMap(err);
      ok := err == map[];
    }

    /** `handleNext`: advance by one only when the step validates and is not the last. */
    method HandleNext(rx: RegExp)
      requires Valid()
      modifies this`errors, this`stepIndex
      ensures Valid()
      ensures |steps| == 0 ==> errors == old(errors)
      ensures |steps| > 0 ==> errors == ErrorMap(StepErrors(steps[old(stepIndex)].fields, values, rx))
      ensures stepIndex ==
                if |steps| > 0 && StepErrors(steps[old(stepIndex)].fields, values, rx) == map[]
                   && old(stepIndex) < |steps| - 1
                then old(stepIndex) + 1 else old(stepIndex)
    {
      var ok := ValidateAll(rx);
      if !ok {
        return;
      }
      if stepIndex < |steps| - 1 {
        stepIndex := stepIndex + 1;
      }
    }

    /** `handleBack`: step back unless on the first step; nothing is validated. */
    method HandleBack()
      requires Valid()
      modifies this`stepIndex
      ensures Valid()
      ensures stepIndex == if old(stepIndex) > 0 then old(stepIndex) - 1 else 0
    {
      if stepIndex > 0 {
        stepIndex := stepIndex - 1;
      }
    }

    /** `submit`: the values are posted only when the current step validates. */
    method Submit(rx: RegExp) returns (posted: Option<map<string, string>>)
      requires Valid()
      modifies this`errors
      ensures Valid()
      ensures |steps| == 0 ==> errors == old(errors)
      ensures |steps| > 0 ==> errors == ErrorMap(StepErrors(steps[stepIndex].fields, values, rx))
      ensures posted.Some? <==> |steps| > 0 && StepErrors(steps[stepIndex].fields, values, rx) == map[]
      ensures posted.Some? ==> posted.value == values
    {
      var ok := ValidateAll(rx);
      if !ok {
        return None;
      }
      posted := Some(values);
    }

    /**
     * The PIN effect's trigger: the PIN to look up, present only when the
     * schema is in, the second step has a `pinCode` field and its value has
     * exactly six characters.
     */
    function PinLookupRequest(): (pin: Option<string>)
      reads this
      ensures pin.Some? ==> "pinCode" in values && pin.value == values["pinCode"] && |pin.value| == 6
      ensures pin.Some? ==> loaded && |steps| > 1 && exists f :: f in steps[1].fields && f.name == "pinCode"
      ensures pin.None? ==> !loaded || |steps| < 2 || |Lookup(values, "pinCode")| != 6
                            || forall f :: f in steps[1].fields ==> f.name != "pinCode"
    {
      if loaded && |steps| > 1 && (exists f :: f in steps[1].fields && f.name == "pinCode")
         && |Lookup(values, "pinCode")| == 6
      then Some(values["pinCode"])
      else None
    }

    /** The lookup's completion: merge a successful answer into the values; ignore a failure. */
    method ApplyPinResponse(data: seq<PinItem>)
      requires Valid()
      modifies this`values
      ensures Valid()
      ensures FetchPinResult(data).None? ==> values == old(values)
      ensures FetchPinResult(data).Some? ==> values == MergeAutofill(old(values), FetchPinResult(data).value)
    {
      var place := FetchPinResult(data);
      if place.Some? {
        values := MergeAutofill(values, place.value);
      }
    }
  }
}
