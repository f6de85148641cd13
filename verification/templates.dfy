/** pdfme templates as the designer, the viewer and the save endpoint exchange them: the
    template a designer holds, the single-page document the server stores, the validation
    both save handlers run and the wrapping the load handler applies. */
module Templates {
  import opened Wrappers
  import opened Json

  /** One schema field. `readOnly` is `None` when the field has no such property; `attrs`
      holds every other property (position, size, font, ...). */
  datatype Field = Field(name: string, fieldType: string, content: Value, readOnly: Option<bool>,
                         attrs: map<string, Value>)

  /** `template.basePdf`: a blank page description (pdfme's `BlankPdf`), PDF data given as a
      string, or missing. */
  datatype BasePdf =
    | Blank(width: int, height: int, padding: seq<int>, staticSchema: Option<seq<Field>>)
    | PdfData(data: string)
    | NoBasePdf

  /** pdfme's `isBlankPdf`. */
  predicate IsBlankPdf(b: BasePdf) {
    b.Blank?
  }

  /** Truthiness of `basePdf`: an object always, a string unless empty. */
  predicate BasePdfTruthy(b: BasePdf) {
    match b
    case Blank(_, _, _, _) => true
    case PdfData(d) => d != ""
    case NoBasePdf => false
  }

  /** A designer's template: one list of fields per page. */
  datatype Template = Template(basePdf: BasePdf, columns: Option<seq<string>>, schemas: seq<seq<Field>>)

  /** The stored document: the first page's fields only. */
  datatype SavedDocument = SavedDocument(basePdf: BasePdf, columns: seq<string>, schemas: seq<Field>)

  /** The field as `JSON.stringify` with the undefined-to-null replacer writes it. */
  function SerializedField(f: Field): Field {
    f.(content := Normalize(f.content), attrs := map k | k in f.attrs :: Normalize(f.attrs[k]))
  }

  function SerializedFields(fs: seq<Field>): (r: seq<Field>)
    ensures |r| == |fs| && forall i :: 0 <= i < |fs| ==> r[i] == SerializedField(fs[i])
  {
    seq(|fs|, i requires 0 <= i < |fs| => SerializedField(fs[i]))
  }

  function SerializedBasePdf(b: BasePdf): BasePdf {
    match b
    case Blank(w, h, p, Some(fs)) => Blank(w, h, p, Some(SerializedFields(fs)))
    case _ => b
  }

  predicate FieldDefined(f: Field) {
    NoUndefined(f.content) && forall k :: k in f.attrs ==> NoUndefined(f.attrs[k])
  }

  predicate FieldsDefined(fs: seq<Field>) {
    forall i :: 0 <= i < |fs| ==> FieldDefined(fs[i])
  }

  predicate BasePdfDefined(b: BasePdf) {
    b.Blank? && b.staticSchema.Some? ==> FieldsDefined(b.staticSchema.value)
  }

  /** The validation and `templateObj` of the save handlers, with the JSON text standing for
      the value it encodes: a template without a truthy `basePdf` or without a first page is
      refused with "Invalid template structure"; otherwise the document holds `basePdf`,
      `columns || []` and the first page, each written with undefined as null. */
  function DocumentPayload(t: Template): (r: Result<SavedDocument, string>)
    ensures r.Failure? <==> !BasePdfTruthy(t.basePdf) || |t.schemas| == 0
    ensures r.Failure? ==> r.error == "Invalid template structure"
    ensures r.Success? ==> FieldsDefined(r.value.schemas) && BasePdfDefined(r.value.basePdf)
    ensures r.Success? ==>
      r.value.basePdf == SerializedBasePdf(t.basePdf) &&
      r.value.columns == (if t.columns.Some? then t.columns.value else []) &&
      r.value.schemas == SerializedFields(t.schemas[0])
  {
    if !BasePdfTruthy(t.basePdf) || |t.schemas| == 0 then Failure("Invalid template structure")
    else
      Success(SavedDocument(SerializedBasePdf(t.basePdf), t.columns.GetOr([]),
                            SerializedFields(t.schemas[0])))
  }

  /** `onLoadTemplateFromDB`: `{ basePdf, columns, schemas: [doc.schemas] }`. */
  function LoadTemplate(doc: SavedDocument): Template {
    Template(doc.basePdf, Some(doc.columns), [doc.schemas])
  }

  lemma SerializedFieldKeeps(f: Field)
    requires FieldDefined(f)
    ensures SerializedField(f) == f
  {
    NormalizeKeepsDefined(f.content);
    forall k | k in f.attrs ensures Normalize(f.attrs[k]) == f.attrs[k] {
      NormalizeKeepsDefined(f.attrs[k]);
    }
    assert (map k | k in f.attrs :: Normalize(f.attrs[k])) == f.attrs;
  }

  lemma SerializedFieldsKeep(fs: seq<Field>)
    requires FieldsDefined(fs)
    ensures SerializedFields(fs) == fs
  {
    forall i | 0 <= i < |fs| ensures SerializedFields(fs)[i] == fs[i] {
      SerializedFieldKeeps(fs[i]);
    }
  }

  /** Saving a one-page template that has columns and no undefined value, then loading the
      stored document, gives the template back. */
  lemma SaveLoadRoundTrip(t: Template)
    requires BasePdfTruthy(t.basePdf) && |t.schemas| == 1 && t.columns.Some?
    requires FieldsDefined(t.schemas[0]) && BasePdfDefined(t.basePdf)
    ensures DocumentPayload(t).Success? && LoadTemplate(DocumentPayload(t).value) == t
  {
    SerializedFieldsKeep(t.schemas[0]);
    if t.basePdf.Blank? && t.basePdf.staticSchema.Some? {
      SerializedFieldsKeep(t.basePdf.staticSchema.value);
    }
  }

  /** In general a save keeps only the first page, and missing columns come back as []. */
  lemma SaveLoadFirstPage(t: Template)
    requires DocumentPayload(t).Success?
    ensures var back := LoadTemplate(DocumentPayload(t).value);
      back.schemas == [SerializedFields(t.schemas[0])] &&
      back.columns == Some(if t.columns.Some? then t.columns.value else []) &&
      back.basePdf == SerializedBasePdf(t.basePdf)
  {
  }

  /** Loading a stored document and saving it again stores the same document. */
  lemma LoadSaveRoundTrip(doc: SavedDocument)
    requires BasePdfTruthy(doc.basePdf) && FieldsDefined(doc.schemas) && BasePdfDefined(doc.basePdf)
    ensures DocumentPayload(LoadTemplate(doc)) == Success(doc)
  {
    SerializedFieldsKeep(doc.schemas);
    if doc.basePdf.Blank? && doc.basePdf.staticSchema.Some? {
      SerializedFieldsKeep(doc.basePdf.staticSchema.value);
    }
  }
}
