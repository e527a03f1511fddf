/**
 * The schema document shared by the scraper, the client and the server: an
 * ordered list of steps, each an ordered list of field descriptors.
 */
module Schema {
  import opened Wrappers

  /** One `{ label, value }` entry of a select field. */
  datatype SelectOption = SelectOption(caption: string, value: string)

  /**
   * A field descriptor. `null` in the JSON document is `None`; `caption` is the
   * descriptor's `label` (a reserved word in Dafny) and `inputType` is
   * the descriptor's `type`. `maxlength` holds what `parseInt` produced, so it
   * may be zero or negative.
   */
  datatype Field = Field(
    id: string,
    name: string,
    caption: Option<string>,
    tag: string,
    inputType: string,
    placeholder: Option<string>,
    required: bool,
    pattern: Option<string>,
    maxlength: Option<int>,
    options: Option<seq<SelectOption>>)

  datatype Step = Step(title: string, fields: seq<Field>)

  datatype Document = Document(steps: seq<Step>)

  /**
   * JavaScript's regular expressions, left uninterpreted: whether
   * `new RegExp(p)` succeeds, and what `new RegExp(p).test(s)` answers
   * (an unanchored search).
   */
  datatype RegExp = RegExp(compiles: string -> bool, test: (string, string) -> bool)

  /** `${field.label}`: a missing caption is rendered as the text "null". */
  function LabelText(f: Field): string {
    match f.caption
    case Some(l) => l
    case None => "null"
  }

  /** `field.pattern` is truthy: present and not the empty string. */
  predicate HasPattern(f: Field) {
    f.pattern.Some? && f.pattern.value != ""
  }

  /** `field.maxlength` is truthy: present and not zero. */
  predicate HasMaxLength(f: Field) {
    f.maxlength.Some? && f.maxlength.value != 0
  }

  /** The value stored under `name`, where a missing key reads as "" (`undefined` is falsy). */
  function Lookup(values: map<string, string>, name: string): string {
    if name in values then values[name] else ""
  }

  /** The fields of all steps, in document order. */
  function AllFields(steps: seq<Step>): (r: seq<Field>)
    ensures steps == [] ==> r == []
  {
    if steps == [] then [] else AllFields(steps[..|steps| - 1]) + steps[|steps| - 1].fields
  }

  ghost function Names(fields: seq<Field>): set<string> {
    set i | 0 <= i < |fields| :: fields[i].name
  }

  /** No two fields share a name (the document's intended invariant). */
  ghost predicate UniqueNames(fields: seq<Field>) {
    forall i, j :: 0 <= i < j < |fields| ==> fields[i].name != fields[j].name
  }

  /** A field belongs to the whole document exactly when it belongs to one of its steps. */
  lemma {:induction false} InAllFields(steps: seq<Step>, f: Field)
    ensures f in AllFields(steps) <==> exists k :: 0 <= k < |steps| && f in steps[k].fields
  {
    if steps != [] {
      var init := steps[..|steps| - 1];
      InAllFields(init, f);
      assert forall k :: 0 <= k < |init| ==> init[k] == steps[k];
      if f in AllFields(steps) && f !in AllFields(init) {
        assert f in steps[|steps| - 1].fields;
      }
    }
  }

  lemma NamesSnoc(fields: seq<Field>, f: Field)
    ensures Names(fields + [f]) == Names(fields) + {f.name}
  {
    var g := fields + [f];
    assert g[|fields|] == f;
    assert forall i :: 0 <= i < |fields| ==> g[i] == fields[i];
    forall n | n in Names(fields) ensures n in Names(g) {
      var i :| 0 <= i < |fields| && fields[i].name == n;
      assert g[i].name == n;
    }
  }
}
