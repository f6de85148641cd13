/** The template designer page: saving the designer's template, resetting it, loading a
    stored document into it and the static-schema (header and footer) editing mode. */
module DesignerPage {
  import opened Wrappers
  import opened Json
  import opened Templates
  import opened SaveIntent

  /** The form `onSaveTemplate` posts. */
  function DesignerForm(docName: string, docDept: string, doc: SavedDocument): SaveForm {
    [("name", Text(docName)), ("dept", Text(docDept)), ("document", Document(doc)),
     ("intent", Text("saveDocument"))]
  }

  /** The toast message of a refused switch into static-schema editing. */
  const CannotEditStatic := "The current template cannot edit the static schema."
  /** The message of the ReferenceError the page's call of its font loader throws. */
  const UnboundFontLoader := "getFontsData1 is not defined"

  /** The toast message of a refused switch back. */
  const InvalidBasePdf := "Invalid basePdf format"

  /** The blank page description shown while the static schema is edited: the page size
      with no padding and no static schema. */
  function EditingPage(b: BasePdf): BasePdf
    requires b.Blank?
  {
    Blank(b.width, b.height, [0, 0, 0, 0], None)
  }

  /** The template the designer shows while the static schema of `t` is edited: the static
      schema (or no field) as the only page. */
  function EnterStatic(t: Template): Template
    requires IsBlankPdf(t.basePdf)
  {
    t.(schemas := [t.basePdf.staticSchema.GetOr([])], basePdf := EditingPage(t.basePdf))
  }

  /** The template restored when editing ends: the stashed template with the edited first
      page as its static schema (`undefined` when the edited template has no page). */
  function ExitStatic(original: Template, edited: Template): Template
    requires IsBlankPdf(original.basePdf)
  {
    original.(basePdf := original.basePdf.(staticSchema :=
      if |edited.schemas| > 0 then Some(edited.schemas[0]) else None))
  }

  /** While editing, the static schema is the only page, on a page of the same size without
      padding; the other properties of the template are kept. */
  lemma EnterStaticShape(t: Template)
    requires IsBlankPdf(t.basePdf)
    ensures var e := EnterStatic(t);
      |e.schemas| == 1 &&
      e.schemas[0] == (if t.basePdf.staticSchema.Some? then t.basePdf.staticSchema.value else []) &&
      e.basePdf.Blank? && e.basePdf.width == t.basePdf.width && e.basePdf.height == t.basePdf.height &&
      e.basePdf.padding == [0, 0, 0, 0] && e.basePdf.staticSchema.None? &&
      e.columns == t.columns
  {
  }

  /** Ending the edit brings back the body pages, columns and page description of the
      stashed template, whatever was done to the edited one, with only the static schema
      replaced by the edited page. */
  lemma ExitStaticRestores(original: Template, edited: Template)
    requires IsBlankPdf(original.basePdf) && |edited.schemas| > 0
    ensures var m := ExitStatic(original, edited);
      m.schemas == original.schemas && m.columns == original.columns &&
      m.basePdf == Blank(original.basePdf.width, original.basePdf.height, original.basePdf.padding,
                         Some(edited.schemas[0]))
  {
  }

  /** Entering and leaving without an edit gives the template back, except that a missing
      static schema comes back as an empty one. */
  lemma {:induction false} EnterExitRoundTrip(t: Template)
    requires IsBlankPdf(t.basePdf)
    ensures ExitStatic(t, EnterStatic(t)) ==
      t.(basePdf := t.basePdf.(staticSchema := Some(t.basePdf.staticSchema.GetOr([]))))
    ensures t.basePdf.staticSchema.Some? ==> ExitStatic(t, EnterStatic(t)) == t
  {
    var e := EnterStatic(t);
    assert e.schemas[0] == t.basePdf.staticSchema.GetOr([]);
  }

  /** The designer page's state: the designer's template (`None` before a designer
      exists), the editing flag, the stashed template and whether a template is kept in
      local storage. */
  class DesignerState {
    var designer: Option<Template>
    var editingStaticSchemas: bool
    var originalTemplate: Option<Template>
    ghost var templateStored: bool

    /** Editing happens exactly while a blank-page template is stashed, and only with a
        designer. */
    ghost predicate Valid()
      reads this
    {
      (editingStaticSchemas <==> originalTemplate.Some?) &&
      (originalTemplate.Some? ==> IsBlankPdf(originalTemplate.value.basePdf) && designer.Some?)
    }

    constructor (stored: bool)
      ensures Valid()
      ensures designer.None? && !editingStaticSchemas && originalTemplate.None? && templateStored == stored
    {
      designer := None;
      editingStaticSchemas := false;
      originalTemplate := None;
      templateStored := stored;
    }

    /** `toggleEditingStaticSchemas`. Returns the error toast shown, if any. */
    method ToggleEditingStaticSchemas() returns (notice: Option<string>)
      modifies this
      ensures old(Valid()) ==> Valid()
      ensures templateStored == old(templateStored)
      ensures old(designer).None? ==> notice.None? && unchanged(this)
      ensures old(designer).Some? && !old(editingStaticSchemas) && !IsBlankPdf(old(designer).value.basePdf) ==>
        notice == Some(CannotEditStatic) && unchanged(this)
      ensures old(designer).Some? && !old(editingStaticSchemas) && IsBlankPdf(old(designer).value.basePdf) ==>
        notice.None? && originalTemplate == old(designer) && editingStaticSchemas &&
        designer == Some(EnterStatic(old(designer).value))
      ensures old(designer).Some? && old(editingStaticSchemas) && old(originalTemplate).None? ==>
        notice.None? && unchanged(this)
      ensures (old(designer).Some? && old(editingStaticSchemas) && old(originalTemplate).Some? &&
               !IsBlankPdf(old(originalTemplate).value.basePdf)) ==>
        notice == Some(InvalidBasePdf) && unchanged(this)
      ensures (old(designer).Some? && old(editingStaticSchemas) && old(originalTemplate).Some? &&
               IsBlankPdf(old(originalTemplate).value.basePdf)) ==>
        notice.None? && originalTemplate.None? && !editingStaticSchemas &&
        designer == Some(ExitStatic(old(originalTemplate).value, old(designer).value))
    {
      notice := None;
      if designer.None? {
        return;
      }
      if !editingStaticSchemas {
        var currentTemplate := designer.value;
        if !IsBlankPdf(currentTemplate.basePdf) {
          notice := Some(CannotEditStatic);
          return;
        }
        originalTemplate := Some(currentTemplate);
        var staticSchema := currentTemplate.basePdf.staticSchema.GetOr([]);
        designer := Some(currentTemplate.(schemas := [staticSchema],
                                          basePdf := EditingPage(currentTemplate.basePdf)));
        editingStaticSchemas := true;
      } else {
        var editedTemplate := designer.value;
        if originalTemplate.None? {
          return;
        }
        var merged := originalTemplate.value;
        if !IsBlankPdf(merged.basePdf) {
          notice := Some(InvalidBasePdf);
          return;
        }
        var staticSchema := if |editedTemplate.schemas| > 0 then Some(editedTemplate.schemas[0]) else None;
        merged := merged.(basePdf := merged.basePdf.(staticSchema := staticSchema));
        designer := Some(merged);
        originalTemplate := None;
        editingStaticSchemas := false;
      }
    }

    /** `onSaveTemplate`: validates and posts the designer's template. `post` is the
        server's `response.data`, or the message of the failed request. */
    method OnSaveTemplate(docName: string, docDept: string, post: Result<Value, string>)
      returns (request: Option<SaveForm>, notice: Option<Notice>)
      ensures designer.None? ==> request.None? && notice.None?
      ensures designer.Some? && DocumentPayload(designer.value).Failure? ==>
        request.None? && notice == Some(ToastError(ErrorPrefix + "Invalid template structure"))
      ensures designer.Some? && DocumentPayload(designer.value).Success? ==>
        request == Some(DesignerForm(docName, docDept, DocumentPayload(designer.value).value)) &&
        notice == Some(if post.Failure? then ToastError(ErrorPrefix + post.error)
                       else CompletionNotice(Received(post.value)))
      ensures (notice.Some? && notice.value.ToastSuccess?) <==>
        designer.Some? && DocumentPayload(designer.value).Success? && post.Success? &&
        AcceptedAnswer(post.value)
    {
      request, notice := None, None;
      if designer.None? {
        return;
      }
      var payload := DocumentPayload(designer.value);
      if payload.Failure? {
        notice := Some(ToastError(ErrorPrefix + payload.error));
        return;
      }
      var formData: SaveForm := [];
      formData := formData + [("name", Text(docName))];
      formData := formData + [("dept", Text(docDept))];
      formData := formData + [("document", Document(payload.value))];
      formData := formData + [("intent", Text("saveDocument"))];
      assert formData == DesignerForm(docName, docDept, payload.value);
      request := Some(formData);
      if post.Failure? {
        notice := Some(ToastError(ErrorPrefix + post.error));
        return;
      }
      notice := Some(CompletionNotice(Received(post.value)));
    }

    /** `onResetTemplate`: forgets the stored template and shows `defaultTemplate`, the
        helper's starting template, in the designer if there is one. */
    method OnResetTemplate(defaultTemplate: Template)
      requires Valid()
      modifies this
      ensures Valid()
      ensures !templateStored
      ensures designer == if old(designer).Some? then Some(defaultTemplate) else None
      ensures editingStaticSchemas == old(editingStaticSchemas) && originalTemplate == old(originalTemplate)
    {
      templateStored := false;
      if designer.Some? {
        designer := Some(defaultTemplate);
      }
    }

    /** `onLoadTemplateFromDB` as written. `fetched` is the parsed stored document or the
        message of the failed request or parse. After a successful fetch the page calls
        `getFontsData1`, a name src/routes/Designer.tsx neither declares nor imports, so the
        call throws before any designer is built; the catch only logs. Nothing changes, and
        the result is the message of the error the catch logs. */
    method OnLoadTemplateFromDB(fetched: Result<SavedDocument, string>, hasContainer: bool)
      returns (logged: string)
      ensures fetched.Failure? ==> logged == fetched.error
      ensures fetched.Success? ==> logged == UnboundFontLoader
    {
      if fetched.Failure? {
        return fetched.error;
      }
      var doc := fetched.value;
      var template := LoadTemplate(doc);
      // the font loader is an unbound name: a ReferenceError, caught before `template` is used
      logged := UnboundFontLoader;
    }

    /** `onLoadTemplateFromDB` with the imported `getFontsData` as the font loader and a
        bound `lang` (such as `'en'`) for the designer's options: a fetched document becomes
        a new designer's template, its fields as the only page, once the container exists;
        a failed fetch changes nothing. */
    method OnLoadTemplateFromDBIntended(fetched: Result<SavedDocument, string>, hasContainer: bool)
      requires Valid()
      modifies this
      ensures Valid()
      ensures fetched.Success? && hasContainer ==> designer == Some(LoadTemplate(fetched.value))
      ensures !(fetched.Success? && hasContainer) ==> designer == old(designer)
      ensures editingStaticSchemas == old(editingStaticSchemas) && originalTemplate == old(originalTemplate)
      ensures templateStored == old(templateStored)
    {
      if fetched.Failure? {
        return;
      }
      var doc := fetched.value;
      var template := Template(doc.basePdf, Some(doc.columns), [doc.schemas]);
      if hasContainer {
        designer := Some(template);
      }
    }
  }
}
