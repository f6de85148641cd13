/** Filling a stored template with the deal's stored inputs before showing it: the
    `transformInputsData` filter and the field reconciliation of `buildui`,
    `builduiSignature` and `builduiViewer`. */
module Reconcile {
  import opened Wrappers
  import opened Text
  import opened Json
  import opened Templates

  /** The version the rebuilt template declares. */
  const PdfmeVersion := "5.3.5"

  /** The template handed to the viewer or form. */
  datatype FinalTemplate = FinalTemplate(schemas: seq<seq<Field>>, basePdf: BasePdf, pdfmeVersion: string)

  lemma NatToStringInjectiveAll()
    ensures forall a: nat, b: nat :: NatToString(a) == NatToString(b) ==> a == b
  {
    forall a: nat, b: nat | NatToString(a) == NatToString(b) ensures a == b {
      NatToStringInjective(a, b);
    }
  }

  /** `Object.entries(finance || {})` as a dictionary: an object's own properties, an
      array's or a string's indices; nothing for any other value. */
  function EntriesOf(finance: Value): Record {
    match finance
    case Obj(m) => m
    case Arr(xs) =>
      NatToStringInjectiveAll();
      map i: nat | i < |xs| :: NatToString(i) := xs[i]
    case Str(s) =>
      NatToStringInjectiveAll();
      map i: nat | i < |s| :: NatToString(i) := Str([s[i]])
    case _ => map[]
  }

  /** `transformInputsData(data)`: one object holding the entries whose value is neither
      `null` nor `undefined`. */
  function TransformInputsData(data: Record): (r: seq<Record>)
    ensures |r| == 1
    ensures forall k :: k in r[0] <==> k in data && data[k] != Null && data[k] != Undefined
    ensures forall k :: k in r[0] ==> r[0][k] == data[k]
  {
    [map k | k in data && data[k] != Null && data[k] != Undefined :: data[k]]
  }

  /** Filtering again changes nothing. */
  lemma TransformIdempotent(data: Record)
    ensures TransformInputsData(TransformInputsData(data)[0]) == TransformInputsData(data)
  {
    var once := TransformInputsData(data)[0];
    assert TransformInputsData(once)[0] == once;
  }

  /** `transformedData.length > 0 ? transformedData : [{}]`. */
  function InputsFor(finance: Value): seq<Record> {
    var transformed := TransformInputsData(EntriesOf(finance));
    if |transformed| > 0 then transformed else [map[]]
  }

  /** The `[{}]` fallback is never taken. */
  lemma InputsNeverFallBack(finance: Value)
    ensures InputsFor(finance) == TransformInputsData(EntriesOf(finance))
  {
  }

  /** `inputs.find(input => input[name] !== undefined)`. */
  function FindInput(inputs: seq<Record>, name: string): (r: Option<Record>)
    ensures r.Some? ==> r.value in inputs && Get(r.value, name) != Undefined
    ensures r.None? ==> forall i :: 0 <= i < |inputs| ==> Get(inputs[i], name) == Undefined
    ensures forall j ::
      (0 <= j < |inputs| && Get(inputs[j], name) != Undefined &&
       forall k :: 0 <= k < j ==> Get(inputs[k], name) == Undefined) ==> r == Some(inputs[j])
    decreases |inputs|
  {
    if inputs == [] then None
    else if Get(inputs[0], name) != Undefined then Some(inputs[0])
    else FindInput(inputs[1..], name)
  }

  /** The map callback of `buildui` and `builduiSignature`. */
  function ReconcileField(inputs: seq<Record>, f: Field): Field {
    if f.fieldType == "signature" then f
    else
      var m := FindInput(inputs, f.name);
      f.(content := if m.Some? then Str(ToJsString(Get(m.value, f.name))) else f.content,
         readOnly := Some(true))
  }

  function ReconcileFields(inputs: seq<Record>, fields: seq<Field>): (r: seq<Field>)
    ensures |r| == |fields|
  {
    seq(|fields|, i requires 0 <= i < |fields| => ReconcileField(inputs, fields[i]))
  }

  /** The template `buildui` and `builduiSignature` build from the stored template and the
      stored inputs. */
  function BuildTemplate(stored: SavedDocument, finance: Value): FinalTemplate {
    FinalTemplate([ReconcileFields(InputsFor(finance), stored.schemas)], stored.basePdf, PdfmeVersion)
  }

  /** What the reconciliation does to field i: a signature field is left as it is; any
      other field keeps its name, type and other properties, becomes read-only, and takes
      `String(value)` when the stored inputs define its name, its old content otherwise. */
  lemma BuildTemplateField(stored: SavedDocument, finance: Value, i: nat)
    requires i < |stored.schemas|
    ensures var t, f, data := BuildTemplate(stored, finance), stored.schemas[i], EntriesOf(finance);
      |t.schemas| == 1 && |t.schemas[0]| == |stored.schemas| &&
      t.basePdf == stored.basePdf && t.pdfmeVersion == "5.3.5" &&
      var g := t.schemas[0][i];
      (f.fieldType == "signature" ==> g == f) &&
      (f.fieldType != "signature" ==>
        g.name == f.name && g.fieldType == f.fieldType && g.attrs == f.attrs &&
        g.readOnly == Some(true) &&
        g.content == if f.name in data && data[f.name] != Null && data[f.name] != Undefined
                     then Str(ToJsString(data[f.name])) else f.content)
  {
    assert InputsFor(finance)[1..] == [];
  }

  /** Reconciling the result again with the same inputs changes nothing. */
  lemma ReconcileIdempotent(inputs: seq<Record>, fields: seq<Field>)
    ensures ReconcileFields(inputs, ReconcileFields(inputs, fields)) == ReconcileFields(inputs, fields)
  {
  }

  // The viewer's variant, which reads every value through the nested record at "0".

  /** The test of the viewer's `find`: `input["0"] && input["0"][name] !== undefined`. */
  predicate NestedDefines(input: Record, name: string) {
    Truthy(Get(input, "0")) && Member(Get(input, "0"), name) != Undefined
  }

  /** `inputs.find(input => input["0"] && input["0"][name] !== undefined)`. */
  function FindNested(inputs: seq<Record>, name: string): (r: Option<Record>)
    ensures r.Some? ==>
      r.value in inputs && Truthy(Get(r.value, "0")) && Member(Get(r.value, "0"), name) != Undefined
    ensures r.None? ==> forall i :: 0 <= i < |inputs| ==>
      !Truthy(Get(inputs[i], "0")) || Member(Get(inputs[i], "0"), name) == Undefined
    ensures forall j ::
      (0 <= j < |inputs| && NestedDefines(inputs[j], name) &&
       forall k :: 0 <= k < j ==> !NestedDefines(inputs[k], name)) ==> r == Some(inputs[j])
    decreases |inputs|
  {
    if inputs == [] then None
    else if Truthy(Get(inputs[0], "0")) && Member(Get(inputs[0], "0"), name) != Undefined then Some(inputs[0])
    else FindNested(inputs[1..], name)
  }

  /** The map callback of `builduiViewer`: a matched signature field takes the nested value
      itself, any other matched field its `String`; every field becomes read-only. */
  function ViewerField(inputs: seq<Record>, f: Field): Field {
    var m := FindNested(inputs, f.name);
    if f.fieldType == "signature" && m.Some? then
      f.(content := Member(Get(m.value, "0"), f.name), readOnly := Some(true))
    else
      f.(content := if m.Some? then Str(ToJsString(Member(Get(m.value, "0"), f.name))) else f.content,
         readOnly := Some(true))
  }

  function ViewerFields(inputs: seq<Record>, fields: seq<Field>): (r: seq<Field>)
    ensures |r| == |fields|
  {
    seq(|fields|, i requires 0 <= i < |fields| => ViewerField(inputs, fields[i]))
  }

  function BuildViewerTemplate(stored: SavedDocument, finance: Value): FinalTemplate {
    FinalTemplate([ViewerFields(InputsFor(finance), stored.schemas)], stored.basePdf, PdfmeVersion)
  }

  /** What the viewer does to field i, with `nested` the stored record at "0" (when it is
      truthy): every field becomes read-only and keeps its name, type and other properties;
      when `nested` defines the name (null included) a signature field takes the value and
      any other field its `String`; otherwise the content stays. */
  lemma BuildViewerField(stored: SavedDocument, finance: Value, i: nat)
    requires i < |stored.schemas|
    ensures var t, f, data := BuildViewerTemplate(stored, finance), stored.schemas[i], EntriesOf(finance);
      var nested := if "0" in data then data["0"] else Undefined;
      |t.schemas| == 1 && |t.schemas[0]| == |stored.schemas| &&
      t.basePdf == stored.basePdf && t.pdfmeVersion == "5.3.5" &&
      var g := t.schemas[0][i];
      var matched := Truthy(nested) && Member(nested, f.name) != Undefined;
      g.name == f.name && g.fieldType == f.fieldType && g.attrs == f.attrs &&
      g.readOnly == Some(true) &&
      g.content == (if !matched then f.content
                    else if f.fieldType == "signature" then Member(nested, f.name)
                    else Str(ToJsString(Member(nested, f.name))))
  {
    assert InputsFor(finance)[1..] == [];
  }

  /** Without a record at "0" nothing is filled in, but every field still becomes
      read-only. */
  lemma ViewerWithoutNested(inputs: seq<Record>, fields: seq<Field>)
    requires forall j :: 0 <= j < |inputs| ==> "0" !in inputs[j]
    ensures forall i :: 0 <= i < |fields| ==>
      ViewerFields(inputs, fields)[i] == fields[i].(readOnly := Some(true))
  {
    forall i | 0 <= i < |fields|
      ensures ViewerFields(inputs, fields)[i] == fields[i].(readOnly := Some(true))
    {
      assert FindNested(inputs, fields[i].name).None?;
    }
  }

  /** Showing the result again with the same inputs changes nothing. */
  lemma ViewerIdempotent(inputs: seq<Record>, fields: seq<Field>)
    ensures ViewerFields(inputs, ViewerFields(inputs, fields)) == ViewerFields(inputs, fields)
  {
  }
}
