/** `onSaveAndComplete` of the document tool and the page title: the route decides which
    intent the save carries and which fields its form holds. */
module SaveIntent {
  import opened Wrappers
  import opened Text
  import opened Json
  import opened Templates

  /** The save intents, in the order the route tests them. */
  datatype Intent =
    | SaveViewCreateClient
    | SaveSignatureClient
    | ClosePdfViewer
    | SaveViewCreate
    | SaveSignatureCreate
    | PdfViewer
  {
    /** Whether the save comes from a client link rather than from staff. */
    predicate IsClient() {
      this == SaveViewCreateClient || this == SaveSignatureClient || this == ClosePdfViewer
    }
  }

  /** The value of the form's `intent` field. */
  function IntentName(i: Intent): string {
    match i
    case SaveViewCreateClient => "saveViewCreateClient"
    case SaveSignatureClient => "saveSignatureClient"
    case ClosePdfViewer => "closePdfViewer"
    case SaveViewCreate => "saveViewCreate"
    case SaveSignatureCreate => "saveSignatureCreate"
    case PdfViewer => "pdfViewer"
  }

  /** The path fragment that selects the intent. */
  function Route(i: Intent): string {
    match i
    case SaveViewCreateClient => "/deal/client"
    case SaveSignatureClient => "/signature/client"
    case ClosePdfViewer => "/viewer/client"
    case SaveViewCreate => "/deal"
    case SaveSignatureCreate => "/signature"
    case PdfViewer => "/viewer"
  }

  /** The order of the tests. */
  const Priority: seq<Intent> :=
    [SaveViewCreateClient, SaveSignatureClient, ClosePdfViewer, SaveViewCreate, SaveSignatureCreate, PdfViewer]

  /** The `if (pathname.includes(...))` chain of `onSaveAndComplete`. */
  function SelectIntent(pathname: string): Option<Intent> {
    if Contains(pathname, "/deal/client") then Some(SaveViewCreateClient)
    else if Contains(pathname, "/signature/client") then Some(SaveSignatureClient)
    else if Contains(pathname, "/viewer/client") then Some(ClosePdfViewer)
    else if Contains(pathname, "/deal") then Some(SaveViewCreate)
    else if Contains(pathname, "/signature") then Some(SaveSignatureCreate)
    else if Contains(pathname, "/viewer") then Some(PdfViewer)
    else None
  }

  /** The intent chosen is the first in the order whose fragment the path contains. */
  lemma {:induction false} SelectIntentFirstMatch(pathname: string, k: nat)
    requires k < |Priority|
    ensures SelectIntent(pathname) == Some(Priority[k]) <==>
      Contains(pathname, Route(Priority[k])) &&
      forall j :: 0 <= j < k ==> !Contains(pathname, Route(Priority[j]))
  {
    assert Priority[0] == SaveViewCreateClient && Priority[1] == SaveSignatureClient;
    assert Priority[2] == ClosePdfViewer && Priority[3] == SaveViewCreate;
    assert Priority[4] == SaveSignatureCreate && Priority[5] == PdfViewer;
  }

  /** No intent, and so no request, exactly when the path contains none of "/deal",
      "/signature" and "/viewer": every client fragment extends one of these. */
  lemma {:induction false} SelectIntentNone(pathname: string)
    ensures SelectIntent(pathname).None? <==>
      !Contains(pathname, "/deal") && !Contains(pathname, "/signature") && !Contains(pathname, "/viewer")
  {
    if Contains(pathname, "/deal/client") {
      assert "/deal/client" == "/deal" + "/client";
      ContainsLonger(pathname, "/deal", "/client");
    }
    if Contains(pathname, "/signature/client") {
      assert "/signature/client" == "/signature" + "/client";
      ContainsLonger(pathname, "/signature", "/client");
    }
    if Contains(pathname, "/viewer/client") {
      assert "/viewer/client" == "/viewer" + "/client";
      ContainsLonger(pathname, "/viewer", "/client");
    }
  }

  /** The page title for each intent. */
  function TitleOf(i: Intent): string {
    match i
    case SaveViewCreateClient => "saveViewCreateReview and Sign: Required signatures are marked red.Client"
    case SaveSignatureClient => "Review and Sign: Required signatures are marked red."
    case ClosePdfViewer => "Document Review"
    case SaveViewCreate => "Review and Send To Client"
    case SaveSignatureCreate => "Review and Send To Client"
    case PdfViewer => "Review and Send To Client"
  }

  /** The `textTitle` chain; `None` is the title left undefined. */
  function TextTitle(pathname: string): Option<string> {
    if Contains(pathname, "/deal/client") then
      Some("saveViewCreateReview and Sign: Required signatures are marked red.Client")
    else if Contains(pathname, "/signature/client") then
      Some("Review and Sign: Required signatures are marked red.")
    else if Contains(pathname, "/viewer/client") then Some("Document Review")
    else if Contains(pathname, "/deal") then Some("Review and Send To Client")
    else if Contains(pathname, "/signature") then Some("Review and Send To Client")
    else if Contains(pathname, "/viewer") then Some("Review and Send To Client")
    else None
  }

  /** The title follows the intent the same path selects. */
  lemma TitleFollowsIntent(pathname: string)
    ensures SelectIntent(pathname).None? <==> TextTitle(pathname).None?
    ensures SelectIntent(pathname).Some? ==> TextTitle(pathname) == Some(TitleOf(SelectIntent(pathname).value))
  {
    var i := SelectIntent(pathname);
    if i.Some? {
      match i.value
      case SaveViewCreateClient =>
      case SaveSignatureClient =>
      case ClosePdfViewer =>
      case SaveViewCreate =>
      case SaveSignatureCreate =>
      case PdfViewer =>
    }
  }

  /** A `FormData` entry's value: text, the stored document written as JSON, or another
      value written as JSON. */
  datatype FormValue = Text(text: string) | Document(doc: SavedDocument) | Json(value: Value)

  type SaveForm = seq<(string, FormValue)>

  function Names(form: SaveForm): seq<string> {
    seq(|form|, i requires 0 <= i < |form| => form[i].0)
  }

  /** The form each intent posts: a client deal or viewer save sends the id and the
      document, a client signature the id, the inputs and the collected metadata, a staff
      save also the document's name and department; the intent comes last. */
  function FormFor(i: Intent, templateId: string, docName: string, docDept: string,
                   doc: SavedDocument, inputs: Value, meta: Value): SaveForm {
    if i == SaveSignatureClient then
      [("id", Text(templateId)), ("inputs", Json(inputs)), ("meta", Json(meta)), ("intent", Text(IntentName(i)))]
    else if i.IsClient() then
      [("id", Text(templateId)), ("document", Document(doc)), ("intent", Text(IntentName(i)))]
    else
      [("name", Text(docName)), ("docDept", Text(docDept)), ("id", Text(templateId)),
       ("document", Document(doc)), ("intent", Text(IntentName(i)))]
  }

  /** The fields each intent sends, and the intent it names. */
  lemma FormFields(i: Intent, templateId: string, docName: string, docDept: string,
                   doc: SavedDocument, inputs: Value, meta: Value)
    ensures var form := FormFor(i, templateId, docName, docDept, doc, inputs, meta);
      Names(form) == (if i == SaveSignatureClient then ["id", "inputs", "meta", "intent"]
                      else if i.IsClient() then ["id", "document", "intent"]
                      else ["name", "docDept", "id", "document", "intent"]) &&
      form[|form| - 1] == ("intent", Text(IntentName(i))) &&
      (i != SaveSignatureClient ==> form[|form| - 2] == ("document", Document(doc)))
  {
  }

  /** A toast shown to the user. */
  datatype Notice = ToastSuccess(message: string) | ToastError(message: string)

  const ErrorPrefix := "Error saving document: "

  /** What the name `response` refers to at the final check: a binding outside every
      branch that no branch assigned, the response a branch received, or no binding at all,
      as at src/routes/PDFTool.tsx:164. */
  datatype ResponseBinding = Unassigned | Received(data: Value) | OutOfScope

  /** A server answer the final check reads as a success: `data.error` can be read (the
      data is neither `null` nor `undefined`) and is falsy. */
  predicate AcceptedAnswer(data: Value) {
    !data.Null? && !data.Undefined? && !Truthy(Member(data, "error"))
  }

  /** The notice of the final check, from the thrown error's message in each failing
      case: `response.data.error` read on an unbound name, on `undefined`, on data that is
      `null` or `undefined`, or on the response's data. */
  function CompletionNotice(response: ResponseBinding): (n: Notice)
    ensures n.ToastSuccess? <==> response.Received? && AcceptedAnswer(response.data)
    ensures n.ToastSuccess? ==> n.message == "Document saved!"
    ensures n.ToastError? ==> ErrorPrefix <= n.message
    ensures response.Received? && response.data.Null? ==>
      n == ToastError(ErrorPrefix + "Cannot read properties of null (reading 'error')")
    ensures response.Received? && response.data.Undefined? ==>
      n == ToastError(ErrorPrefix + "Cannot read properties of undefined (reading 'error')")
  {
    match response
    case OutOfScope => ToastError(ErrorPrefix + "response is not defined")
    case Unassigned => ToastError(ErrorPrefix + "Cannot read properties of undefined (reading 'data')")
    case Received(data) =>
      if data.Null? then ToastError(ErrorPrefix + "Cannot read properties of null (reading 'error')")
      else if data.Undefined? then
        ToastError(ErrorPrefix + "Cannot read properties of undefined (reading 'error')")
      else
        var e := Member(data, "error");
        if Truthy(e) then ToastError(ErrorPrefix + ToJsString(e)) else ToastSuccess("Document saved!")
  }

  /** The same server answer reads as success through a binding in scope and as an error
      through the out-of-scope name. */
  lemma {:induction false} OutOfScopeHidesSuccess()
    ensures CompletionNotice(Received(Obj(map[]))) == ToastSuccess("Document saved!")
    ensures CompletionNotice(OutOfScope) == ToastError(ErrorPrefix + "response is not defined")
  {
    assert Member(Obj(map[]), "error") == Undefined;
  }

  /** `onSaveAndComplete` as written. `currentRef` is the form or viewer's template (`None`
      without a current reference); `inputs` is what it returns for `getInputs()`, `meta`
      the collected browser metadata or the message of the failed lookup, and `post` the
      server's `response.data` or the message of the failed request. Returns the form
      posted, if any, and the toast shown, if any. */
  method OnSaveAndComplete(currentRef: Option<Template>, pathname: string, templateId: string,
                           docName: string, docDept: string, inputs: Value,
                           meta: Result<Value, string>, post: Result<Value, string>)
    returns (request: Option<SaveForm>, notice: Option<Notice>)
    ensures currentRef.None? ==> request.None? && notice.None?
    ensures currentRef.Some? && DocumentPayload(currentRef.value).Failure? ==>
      request.None? && notice == Some(ToastError(ErrorPrefix + "Invalid template structure"))
    ensures currentRef.Some? && DocumentPayload(currentRef.value).Success? ==>
      SentForm(request, DocumentPayload(currentRef.value).value, pathname, templateId, docName, docDept, inputs, meta)
    ensures currentRef.Some? && DocumentPayload(currentRef.value).Success? ==>
      notice == Some(if request.Some? && post.Failure? then ToastError(ErrorPrefix + post.error)
                     else if SelectIntent(pathname) == Some(SaveSignatureClient) && meta.Failure?
                     then ToastError(ErrorPrefix + meta.error)
                     else CompletionNotice(OutOfScope))
    ensures notice.Some? ==> notice.value.ToastError?
  {
    request, notice := None, None;
    if currentRef.None? {
      return;
    }
    var payload := DocumentPayload(currentRef.value);
    if payload.Failure? {
      notice := Some(ToastError(ErrorPrefix + payload.error));
      return;
    }
    var sent;
    sent, notice := SendForIntent(payload.value, pathname, templateId, docName, docDept, inputs, meta, post);
    request := sent;
    if notice.None? {
      // `response` at the final check is not the one the branch declared
      notice := Some(CompletionNotice(OutOfScope));
    }
  }

  /** The form sent for the path: none without a matching route or when the metadata
      lookup of a client signature fails, `FormFor` the selected intent otherwise. */
  ghost predicate SentForm(request: Option<SaveForm>, doc: SavedDocument, pathname: string,
                           templateId: string, docName: string, docDept: string, inputs: Value,
                           meta: Result<Value, string>) {
    match SelectIntent(pathname)
    case None => request.None?
    case Some(i) =>
      if i == SaveSignatureClient && meta.Failure? then request.None?
      else request == Some(FormFor(i, templateId, docName, docDept, doc, inputs,
                                   if meta.Success? then meta.value else Null))
  }

  /** The branch of the chain: builds the selected intent's form one `append` at a time and
      posts it. `notice` is the error toast of a failed lookup or post, `None` when the chain
      went on to the final check. */
  method SendForIntent(doc: SavedDocument, pathname: string, templateId: string, docName: string,
                       docDept: string, inputs: Value, meta: Result<Value, string>,
                       post: Result<Value, string>)
    returns (request: Option<SaveForm>, notice: Option<Notice>)
    ensures SentForm(request, doc, pathname, templateId, docName, docDept, inputs, meta)
    ensures notice == (if request.Some? && post.Failure? then Some(ToastError(ErrorPrefix + post.error))
                       else if SelectIntent(pathname) == Some(SaveSignatureClient) && meta.Failure?
                       then Some(ToastError(ErrorPrefix + meta.error))
                       else None)
  {
    request, notice := None, None;
    var intent := SelectIntent(pathname);
    if intent.None? {
      return;
    }
    var i := intent.value;
    var formData: SaveForm := [];
    if i == SaveSignatureClient {
      if meta.Failure? {
        notice := Some(ToastError(ErrorPrefix + meta.error));
        return;
      }
      formData := formData + [("id", Text(templateId))];
      formData := formData + [("inputs", Json(inputs))];
      formData := formData + [("meta", Json(meta.value))];
    } else if i.IsClient() {
      formData := formData + [("id", Text(templateId))];
      formData := formData + [("document", Document(doc))];
    } else {
      formData := formData + [("name", Text(docName))];
      formData := formData + [("docDept", Text(docDept))];
      formData := formData + [("id", Text(templateId))];
      formData := formData + [("document", Document(doc))];
    }
    formData := formData + [("intent", Text(IntentName(i)))];
    assert formData == FormFor(i, templateId, docName, docDept, doc, inputs,
                               if meta.Success? then meta.value else Null);
    request := Some(formData);
    if post.Failure? {
      notice := Some(ToastError(ErrorPrefix + post.error));
    }
  }

  /** `onSaveAndComplete` with `let response` declared before the chain and assigned by the
      branch that posts: the server's answer decides the toast, and a path that matches no
      route reaches the check with `response` undefined. */
  method OnSaveAndCompleteIntended(currentRef: Option<Template>, pathname: string, templateId: string,
                                   docName: string, docDept: string, inputs: Value,
                                   meta: Result<Value, string>, post: Result<Value, string>)
    returns (request: Option<SaveForm>, notice: Option<Notice>)
    ensures currentRef.None? ==> request.None? && notice.None?
    ensures currentRef.Some? && DocumentPayload(currentRef.value).Failure? ==>
      request.None? && notice == Some(ToastError(ErrorPrefix + "Invalid template structure"))
    ensures currentRef.Some? && DocumentPayload(currentRef.value).Success? ==>
      SentForm(request, DocumentPayload(currentRef.value).value, pathname, templateId, docName, docDept, inputs, meta)
    ensures (notice.Some? && notice.value.ToastSuccess?) <==>
      currentRef.Some? && DocumentPayload(currentRef.value).Success? && request.Some? &&
      post.Success? && AcceptedAnswer(post.value)
    ensures notice.Some? && notice.value.ToastSuccess? ==> notice.value.message == "Document saved!"
  {
    request, notice := None, None;
    if currentRef.None? {
      return;
    }
    var payload := DocumentPayload(currentRef.value);
    if payload.Failure? {
      notice := Some(ToastError(ErrorPrefix + payload.error));
      return;
    }
    var sent;
    sent, notice := SendForIntent(payload.value, pathname, templateId, docName, docDept, inputs, meta, post);
    request := sent;
    if notice.None? {
      var response := if request.Some? then Received(post.value) else Unassigned;
      notice := Some(CompletionNotice(response));
    }
  }
}
