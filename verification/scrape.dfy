/**
 * The scraper's post-processing: turning one form element into a field
 * descriptor, keeping the elements that have an id or a name, and adding a
 * known pattern to the first matching field when it has none.
 */
module Scrape {
  import opened Wrappers
  import opened Text
  import opened Schema

  /** An `<option>` child: its text and its `value` attribute. */
  datatype OptionElement = OptionElement(text: string, value: Option<string>)

  /**
   * An `input`, `select` or `textarea` element: its tag name, its attributes,
   * the text of the `label[for=<id>]` elements that point at it, and its
   * option children in document order.
   */
  datatype Element = Element(tagName: string, attrs: map<string, string>, labelText: string, options: seq<OptionElement>)

  /** The attribute is present and not empty (`$(el).attr(k)` is truthy). */
  predicate HasAttr(el: Element, k: string) {
    k in el.attrs && el.attrs[k] != ""
  }

  /** `$(el).attr(k) || fallback`. */
  function AttrOr(el: Element, k: string, fallback: string): string {
    if HasAttr(el, k) then el.attrs[k] else fallback
  }

  /** `$(el).attr(k) || null`. */
  function AttrOrNull(el: Element, k: string): Option<string> {
    if HasAttr(el, k) then Some(el.attrs[k]) else None
  }

  /** A collected option: trimmed, non-empty text and a non-empty value. */
  predicate WellFormedOption(o: SelectOption) {
    o.caption != "" && !IsSpace(o.caption[0]) && !IsSpace(o.caption[|o.caption| - 1]) && o.value != ""
  }

  /** One option: dropped exactly when its trimmed text is empty; its value defaults to that text. */
  function OptionOf(o: OptionElement): (r: seq<SelectOption>)
    ensures r == [] <==> Trim(o.text) == ""
    ensures r != [] ==>
              |r| == 1 && r[0].caption == Trim(o.text)
              && r[0].value == (if o.value.Some? && o.value.value != "" then o.value.value else Trim(o.text))
    ensures forall x :: x in r ==> WellFormedOption(x)
  {
    var text := Trim(o.text);
    if text == "" then []
    else [SelectOption(text, if o.value.Some? && o.value.value != "" then o.value.value else text)]
  }

  /**
   * The options a select collects, in document order: a single `<option>`
   * contributes what `OptionOf` makes of it, and `OptionsOfAppend` extends
   * this to any list.
   */
  function OptionsOf(opts: seq<OptionElement>): (r: seq<SelectOption>)
    ensures |r| <= |opts|
    ensures |opts| == 1 ==> r == OptionOf(opts[0])
    ensures forall x :: x in r ==> WellFormedOption(x)
  {
    if opts == [] then []
    else OptionsOf(opts[..|opts| - 1]) + OptionOf(opts[|opts| - 1])
  }

  /** Collecting distributes over concatenation: the options keep their document order. */
  lemma {:induction false} OptionsOfAppend(a: seq<OptionElement>, b: seq<OptionElement>)
    ensures OptionsOf(a + b) == OptionsOf(a) + OptionsOf(b)
  {
    if b != [] {
      var b' := b[..|b| - 1];
      assert (a + b)[..|a + b| - 1] == a + b';
      assert (a + b)[|a + b| - 1] == b[|b| - 1];
      OptionsOfAppend(a, b');
    } else {
      assert a + b == a;
    }
  }

  /** The label: only for an element with an id; the trimmed label text, else `aria-label`, else null. */
  function LabelOf(el: Element, id: string): (r: Option<string>)
    ensures id == "" ==> r == None
    ensures id != "" && Trim(el.labelText) != "" ==> r == Some(Trim(el.labelText))
    ensures id != "" && Trim(el.labelText) == "" && HasAttr(el, "aria-label") ==> r == Some(el.attrs["aria-label"])
    ensures id != "" && Trim(el.labelText) == "" && !HasAttr(el, "aria-label") ==> r == None
  {
    if id == "" then None
    else if Trim(el.labelText) != "" then Some(Trim(el.labelText))
    else AttrOrNull(el, "aria-label")
  }

  /**
   * The scalar part of `normalizeField`: id, name, label, tag, type,
   * placeholder, required, pattern and maxlength, each from its attribute
   * with its default.
   */
  function BaseField(el: Element): (f: Field)
    ensures f.tag == ToLower(el.tagName)
    ensures f.id != "" <==> HasAttr(el, "id") || HasAttr(el, "name")
    ensures HasAttr(el, "id") ==> f.id == el.attrs["id"]
    ensures !HasAttr(el, "id") && HasAttr(el, "name") ==> f.id == el.attrs["name"]
    ensures HasAttr(el, "name") ==> f.name == el.attrs["name"]
    ensures !HasAttr(el, "name") ==> f.name == f.id
    ensures f.name == "" <==> f.id == ""
    ensures f.caption.Some? ==> f.id != ""
    ensures f.id != "" && Trim(el.labelText) != "" ==> f.caption == Some(Trim(el.labelText))
    ensures f.id != "" && Trim(el.labelText) == "" && HasAttr(el, "aria-label") ==> f.caption == Some(el.attrs["aria-label"])
    ensures f.id != "" && Trim(el.labelText) == "" && !HasAttr(el, "aria-label") ==> f.caption == None
    ensures f.placeholder.Some? <==> HasAttr(el, "placeholder")
    ensures HasAttr(el, "placeholder") ==> f.placeholder == Some(el.attrs["placeholder"])
    ensures HasAttr(el, "type") ==> f.inputType == el.attrs["type"]
    ensures !HasAttr(el, "type") && f.tag == "select" ==> f.inputType == "select"
    ensures !HasAttr(el, "type") && f.tag != "select" ==> f.inputType == "text"
    ensures f.required <==> "required" in el.attrs
    ensures f.pattern.Some? <==> HasAttr(el, "pattern")
    ensures HasAttr(el, "pattern") ==> f.pattern == Some(el.attrs["pattern"])
    ensures !HasAttr(el, "maxlength") ==> f.maxlength == None
    ensures HasAttr(el, "maxlength") ==> f.maxlength == ParseInt(el.attrs["maxlength"])
    ensures f.options == None
  {
    var id := AttrOr(el, "id", AttrOr(el, "name", ""));
    var tag := ToLower(el.tagName);
    Field(
      id,
      AttrOr(el, "name", id),
      LabelOf(el, id),
      tag,
      AttrOr(el, "type", if tag == "select" then "select" else "text"),
      AttrOrNull(el, "placeholder"),
      "required" in el.attrs,
      AttrOrNull(el, "pattern"),
      if HasAttr(el, "maxlength") then ParseInt(el.attrs["maxlength"]) else None,
      None)
  }

  /**
   * The descriptor `normalizeField` produces for an element: the scalar part,
   * and for a select its options.
   */
  function Normalized(el: Element): (f: Field)
    ensures f.(options := None) == BaseField(el)
    ensures f.options.Some? <==> f.tag == "select"
    ensures f.options.Some? ==> f.options.value == OptionsOf(el.options)
  {
    var base := BaseField(el);
    if base.tag == "select" then base.(options := Some(OptionsOf(el.options))) else base
  }

  /** The `.each` loop of `normalizeField` that pushes a select's options. */
  method CollectOptions(opts: seq<OptionElement>) returns (collected: seq<SelectOption>)
    ensures collected == OptionsOf(opts)
  {
    collected := [];
    for i := 0 to |opts|
      invariant collected == OptionsOf(opts[..i])
    {
      assert opts[..i + 1][..i] == opts[..i];
      assert OptionsOf(opts[..i + 1]) == OptionsOf(opts[..i]) + OptionOf(opts[i]);
      var text := Trim(opts[i].text);
      var value := if opts[i].value.Some? && opts[i].value.value != "" then opts[i].value.value else text;
      if text != "" {
        collected := collected + [SelectOption(text, value)];
      }
    }
    assert opts[..|opts|] == opts;
  }

  /** `normalizeField`. */
  method NormalizeField(el: Element) returns (field: Field)
    ensures field == Normalized(el)
  {
    field := BaseField(el);
    if field.tag == "select" {
      var options := CollectOptions(el.options);
      field := field.(options := Some(options));
    }
  }

  /** The step's field list: the normalized elements that have an id or a name. */
  function Kept(elements: seq<Element>): (r: seq<Field>)
    ensures |r| <= |elements|
    ensures forall i :: 0 <= i < |r| ==> r[i].id != "" && r[i].name != ""
  {
    if elements == [] then []
    else
      var f := Normalized(elements[|elements| - 1]);
      Kept(elements[..|elements| - 1]) + (if f.id != "" || f.name != "" then [f] else [])
  }

  /** Every kept field is the normalization of one of the elements. */
  lemma {:induction false} KeptFrom(elements: seq<Element>)
    ensures forall f :: f in Kept(elements) ==> exists el :: el in elements && f == Normalized(el)
  {
    if elements != [] {
      var init := elements[..|elements| - 1];
      var el := elements[|elements| - 1];
      KeptFrom(init);
      forall f | f in Kept(elements) ensures exists e :: e in elements && f == Normalized(e) {
        if f in Kept(init) {
          var e :| e in init && f == Normalized(e);
          assert e in elements;
        } else {
          assert f == Normalized(el);
        }
      }
    }
  }

  /** Filtering distributes over concatenation: the kept fields stay in document order. */
  lemma {:induction false} KeptAppend(a: seq<Element>, b: seq<Element>)
    ensures Kept(a + b) == Kept(a) + Kept(b)
  {
    if b != [] {
      var b' := b[..|b| - 1];
      assert (a + b)[..|a + b| - 1] == a + b';
      assert (a + b)[|a + b| - 1] == b[|b| - 1];
      KeptAppend(a, b');
    } else {
      assert a + b == a;
    }
  }

  /** An element is kept exactly when it carries a non-empty id or name attribute. */
  lemma {:induction false} KeptExactly(elements: seq<Element>, el: Element)
    requires el in elements
    ensures Normalized(el) in Kept(elements) <==> HasAttr(el, "id") || HasAttr(el, "name")
  {
    var last := elements[|elements| - 1];
    var init := elements[..|elements| - 1];
    if el != last {
      assert el in init;
      KeptExactly(init, el);
    }
  }

  /** The `.each` loop that collects one step's fields. */
  method ScrapeStep(elements: seq<Element>) returns (fields: seq<Field>)
    ensures fields == Kept(elements)
  {
    fields := [];
    for i := 0 to |elements|
      invariant fields == Kept(elements[..i])
    {
      assert elements[..i + 1][..i] == elements[..i];
      var f := NormalizeField(elements[i]);
      if f.id != "" || f.name != "" {
        fields := fields + [f];
      }
    }
    assert elements[..|elements|] == elements;
  }

  // ---------------------------------------------------------------------
  // ensureRule

  /** The lower-cased id or name contains `key`. */
  predicate MatchesKey(f: Field, key: string) {
    Contains(ToLower(f.id), key) || Contains(ToLower(f.name), key)
  }

  /** The index `findIndex` returns: the first matching field, or -1. */
  function FirstMatch(fields: seq<Field>, key: string): (i: int)
    ensures -1 <= i < |fields|
    ensures i >= 0 ==> MatchesKey(fields[i], key)
    ensures forall j :: 0 <= j < |fields| && (i < 0 || j < i) ==> !MatchesKey(fields[j], key)
  {
    if fields == [] then -1
    else if MatchesKey(fields[0], key) then 0
    else
      var r := FirstMatch(fields[1..], key);
      if r < 0 then -1 else r + 1
  }

  /** `arr.findIndex(...)` over the field array. */
  method FindIndex(arr: array<Field>, key: string) returns (i: int)
    ensures i == FirstMatch(arr[..], key)
  {
    i := 0;
    while i < arr.Length
      invariant 0 <= i <= arr.Length
      invariant forall j :: 0 <= j < i ==> !MatchesKey(arr[j], key)
    {
      if MatchesKey(arr[i], key) {
        return;
      }
      i := i + 1;
    }
    i := -1;
  }

  /**
   * The fields after `ensureRule`: the first match gets the pattern when it
   * has none; nothing else changes.
   */
  function WithRule(fields: seq<Field>, key: string, regex: string): (r: seq<Field>)
    ensures |r| == |fields|
    ensures forall j :: 0 <= j < |fields| && j != FirstMatch(fields, key) ==> r[j] == fields[j]
    ensures forall j :: 0 <= j < |fields| ==> r[j].(pattern := fields[j].pattern) == fields[j]
    ensures forall j :: 0 <= j < |fields| && HasPattern(fields[j]) ==> r[j] == fields[j]
    ensures FirstMatch(fields, key) >= 0 && !HasPattern(fields[FirstMatch(fields, key)]) ==>
              r[FirstMatch(fields, key)].pattern == Some(regex)
  {
    var i := FirstMatch(fields, key);
    if i >= 0 && !HasPattern(fields[i]) then fields[i := fields[i].(pattern := Some(regex))] else fields
  }

  /** Only ids and names decide the first match. */
  lemma {:induction false} FirstMatchSameKeys(s: seq<Field>, t: seq<Field>, key: string)
    requires |s| == |t|
    requires forall j :: 0 <= j < |s| ==> s[j].id == t[j].id && s[j].name == t[j].name
    ensures FirstMatch(s, key) == FirstMatch(t, key)
  {
    if s != [] {
      FirstMatchSameKeys(s[1..], t[1..], key);
    }
  }

  /** Adding the same rule twice is the same as adding it once. */
  lemma WithRuleIdempotent(fields: seq<Field>, key: string, regex: string)
    ensures WithRule(WithRule(fields, key, regex), key, regex) == WithRule(fields, key, regex)
  {
    var once := WithRule(fields, key, regex);
    FirstMatchSameKeys(fields, once, key);
  }

  /** `ensureRule(arr, key, regex)`, updating `arr[i].pattern` in place. */
  method EnsureRule(arr: array<Field>, key: string, regex: string)
    modifies arr
    ensures arr[..] == WithRule(old(arr[..]), key, regex)
  {
    var i := FindIndex(arr, key);
    if i != -1 && !HasPattern(arr[i]) {
      arr[i] := arr[i].(pattern := Some(regex));
    }
  }

  /**
   * One step of the schema the scraper writes: the kept fields of a page,
   * with the known pattern added where missing.
   */
  method BuildStep(title: string, page: seq<Element>, key: string, regex: string) returns (step: Step)
    ensures step == Step(title, WithRule(Kept(page), key, regex))
  {
    var fields := ScrapeStep(page);
    var arr := new Field[|fields|](i requires 0 <= i < |fields| => fields[i]);
    assert arr[..] == fields;
    EnsureRule(arr, key, regex);
    step := Step(title, arr[..]);
  }

  /**
   * The schema the scraper writes, from the elements of the page before and
   * after the OTP interaction: step 1 gets the Aadhaar pattern, step 2 the
   * PAN pattern, where missing.
   */
  method BuildDocument(page1: seq<Element>, page2: seq<Element>) returns (doc: Document)
    ensures |doc.steps| == 2
    ensures doc.steps[0] == Step("Step 1 – Aadhaar & OTP", WithRule(Kept(page1), "aadhaar", "^\\d{12}$"))
    ensures doc.steps[1] == Step("Step 2 – PAN Validation", WithRule(Kept(page2), "pan", "^[A-Z]{5}[0-9]{4}[A-Z]{1}$"))
  {
    var step1 := BuildStep("Step 1 – Aadhaar & OTP", page1, "aadhaar", "^\\d{12}$");
    var step2 := BuildStep("Step 2 – PAN Validation", page2, "pan", "^[A-Z]{5}[0-9]{4}[A-Z]{1}$");
    doc := Document([step1, step2]);
  }
}
