# crm-pdf: label orders, document templates and saves

This project models the logic inside the crm-pdf front end, a React application around the
pdfme PDF designer and viewer. It covers four parts:

- **The label maker.**
  - "Add to order" fills a list of label pages, 30 labels of five keys each per page
    (`1qrcode`, `1title`, `1free1`, `1free2`, `1free3`, `2qrcode`, ...).
  - The aggregation counts the ordered units per dealer id.
  - Printing splits the inputs into groups of 30 and joins the generated PDF buffers.
- **The document tool and the viewer.**
  - Before a stored template is shown, it is filled from the deal's stored inputs.
  - `formatDataWithCommas` repairs the missing commas of a JSON text.
  - Saving picks a server intent from the page's route and posts a form for it.
- **The designer.**
  - Saving a template posts it as a one-page document; loading a stored document wraps its
    fields back into a one-page template.
  - Reset puts back the starting template.
  - The static-schema mode edits the header and footer fields of a blank-page template.
- **Shared JavaScript semantics.**
  - Truthiness, `String(v)`, `Object.keys` order on a page object and `String.prototype`
    `split`, `join`, `trim` and `includes`.
  - The undefined-to-null replacer passed to `JSON.stringify`.

Modules:

| module | file | models |
|---|---|---|
| `Wrappers` | wrappers.dfy | `Option` and `Result` |
| `Text` | text.dfy | decimal index strings, key prefixes, split/join/trim/includes |
| `Json` | json.dfy | JavaScript values, truthiness, `String(v)`, undefined→null |
| `LabelPages` | label_pages.dfy | a label page as an ordered list of properties; the page layout of an order |
| `LabelOrder` | label_order.dfy | the order state (`quantities`, `selectedProducts`) and `handleAddToOrder` |
| `LabelAggregate` | label_aggregate.dfy | `aggregateProducts` |
| `LabelPrint` | label_print.dfy | `paginateData`, the buffer `reduce`, `GeneratePDFWInputs` |
| `Templates` | templates.dfy | templates, stored documents, the save validation and payload, the load wrapping |
| `Reconcile` | reconcile.dfy | `transformInputsData` and the field reconciliation of `buildui`, `builduiSignature` and `builduiViewer` |
| `CommaFormat` | comma_format.dfy | `formatDataWithCommas` |
| `SaveIntent` | save_intent.dfy | the route-to-intent chain, the title chain and `onSaveAndComplete` |
| `DesignerPage` | designer.dfy | `onSaveTemplate`, `onResetTemplate`, `onLoadTemplateFromDB` and `toggleEditingStaticSchemas` |

How the state is represented:

- **A page object.** `handleAddToOrder` writes page objects, and `aggregateProducts` reads
  them back through `Object.keys`. A page is therefore a list of `(key, value)` pairs in
  insertion order, not a map.
- **The order state.** `OrderState` keeps a ghost list of every label ordered. Its
  invariant is that `selectedProducts` is always the layout of that list: pages of 30
  labels, the labels of a page numbered from 1.

## Model

| member | source | states |
|---|---|---|
| LabelOrder.UnitCount | src/routes/LabelMaker.tsx:282-284 | The number of units `quantities[id] \|\| 1` asks for. A missing entry, NaN and 0 give 1. A negative quantity gives none, because `Array.from` with a negative length is empty. Any other quantity is the count asked for. `HandleAddToOrder` refuses a count above 2^32 - 1. |
| LabelOrder.WriteUnit | src/routes/LabelMaker.tsx:304-312 | The five assignments at index `keys / 5 + 1` append exactly the unit's label to the page. The result is the page of the labels already there plus the new one. |
| LabelOrder.PlaceUnit | src/routes/LabelMaker.tsx:296-313 | One `forEach` step. It opens a page only when there is none or the last one holds 30 labels. The page list after the step is the layout of the earlier labels followed by the unit's label. |
| LabelOrder.OrderState.constructor | src/routes/LabelMaker.tsx:274-275 | The order starts with no quantities and no pages. |
| LabelOrder.OrderState.HandleQuantityChange | src/routes/LabelMaker.tsx:277-279 | Only that product's quantity changes; the pages stay as they are. |
| LabelOrder.OrderState.HandleAddToOrder | src/routes/LabelMaker.tsx:281-316 | A count above 2^32 - 1 makes `Array.from` throw "Invalid array length" (a RangeError) and leaves the pages and labels unchanged. Otherwise exactly `UnitCount` copies of the product's label are appended after the labels already ordered. Nothing ordered before is removed or rewritten, the pages stay the layout of all labels, and the quantities are unchanged. |
| LabelOrder.AddedUnitAt | src/routes/LabelMaker.tsx:297-312 | Added unit u is the label numbered g = (labels before) + u. It sits on page g / 30, at index g % 30 + 1, and each of its keys holds that label's field. |
| LabelOrder.AddedUnitFields | src/routes/LabelMaker.tsx:307-312 | The unit's keys hold, in order: the dealer id (`qrcode`), the name (`title`), the brand (`free1`), "$" followed by the price (`free2`) and the location (`free3`). |
| LabelOrder.FortyFiveUnits | src/routes/LabelMaker.tsx:297-303 | 45 units on an empty order make two pages: 150 keys and 75 keys. |
| LabelPages.PutSpec | src/routes/LabelMaker.tsx:307-312 | A property assignment appends a new key and keeps the order of an existing one. The key reads back the new value, and every other key reads as before. |
| LabelPages.WriteLabel | src/routes/LabelMaker.tsx:304-312 | The five assignments on the page of labels 1..n give the page of labels 1..n+1. |
| LabelPages.KeyedPageSize | src/routes/LabelMaker.tsx:299-306 | A page with n labels has 5n keys, so `keys / 5` counts its labels. |
| LabelPages.LayoutShape | src/routes/LabelMaker.tsx:297-312 | The layout of L labels has ceil(L/30) pages. Each page's key count is a positive multiple of 5, at most 150. Every page but the last has exactly 150 keys. Key `j` + suffix exists on a page exactly when 1 <= j <= its label count. |
| LabelPages.LayoutSnocNewPage | src/routes/LabelMaker.tsx:297-303 | When there is no page or the last one is full, one more label adds a new page holding only that label. |
| LabelPages.LayoutSnocSamePage | src/routes/LabelMaker.tsx:297-312 | Otherwise, one more label extends the last page and no other. |
| LabelPages.LayoutGet | src/routes/LabelMaker.tsx:304-312 | Key `j` + suffix of page i holds that field of label 30i + j - 1 of the order. |
| LabelPages.LayoutFind | src/routes/LabelMaker.tsx:304-312 | Label g of the order is on page g / 30 at index g % 30 + 1. |
| LabelPages.LayoutExtend | src/routes/LabelMaker.tsx:295-313 | Appending labels keeps every key already present, with the same value. |
| LabelPages.ChunksShape | src/routes/LabelMaker.tsx:858-864 | Groups of size k: ceil(n/k) groups, none empty, each of at most k elements, all but the last of exactly k. |
| LabelPages.ChunksFlatten | src/routes/LabelMaker.tsx:858-864 | The groups joined in order give the data back. |
| LabelAggregate.PrefixOf | src/routes/LabelMaker.tsx:337 | `key.match(/^[^a-zA-Z]+/)[0]`. It succeeds exactly when the key is non-empty and does not start with a letter, and the result is the key's leading run of non-letters. |
| LabelAggregate.UniquePrefixes | src/routes/LabelMaker.tsx:336-338 | The distinct prefixes of a page's keys in first-seen order. It fails (the TypeError of `null[0]`) when a key has none. |
| LabelAggregate.AggregateProducts | src/routes/LabelMaker.tsx:331-365 | The nested loops compute the fold `AggregateFrom` over all pages. |
| LabelAggregate.TallyAt | src/routes/LabelMaker.tsx:347-359 | Counting labels one by one gives a row for an id exactly when the id is non-empty and occurs. The count adds the id's occurrences, and a new row takes its fields from the first label with that id. |
| LabelAggregate.AggregateLayout | src/routes/LabelMaker.tsx:331-365 | On the pages of an order, the aggregation never fails and equals counting the order's labels one by one. |
| LabelAggregate.AggregateOrder | src/routes/LabelMaker.tsx:334-361 | There is exactly one row per distinct non-empty dealer id. Its count is the number of labels carrying the id, and its name, location, brand and price come from the first such label in page and index order. |
| LabelAggregate.AggregateThrows | src/routes/LabelMaker.tsx:336-338 | The aggregation throws exactly when some key of some page has no leading non-letter prefix. |
| LabelAggregate.OneProductOrder | src/routes/LabelMaker.tsx:281-365 | Ordering q > 0 units of one product with a dealer id aggregates to a single row with count q. |
| LabelPrint.Paginate | src/routes/LabelMaker.tsx:858-864 | The loop of `paginateData` gives ceil(n/k) non-empty groups. Each has at most k items, all but the last have exactly k, and their concatenation is the data. |
| LabelPrint.CombineConcatenates | src/routes/LabelMaker.tsx:886-889 | The `reduce` gives the buffers one after another, in order. |
| LabelPrint.CombinedLength | src/routes/LabelMaker.tsx:886-889 | The combined length is the sum of the buffer lengths. |
| LabelPrint.RenderFromSpec | src/routes/LabelMaker.tsx:876-884 | Rendering fails exactly when the generator fails on some group. Otherwise there is one buffer per group, in order. |
| LabelPrint.GeneratePdfWithInputs | src/routes/LabelMaker.tsx:849-896 | Without a reference it throws "Invalid reference for PDF generation". If the generator fails on a group of 30 it throws "Failed to generate PDF". Otherwise it returns the concatenation of the groups' buffers. |
| Json.Normalize | src/routes/PDFTool.tsx:77 | The replacer writes `undefined` as `null` at every depth. An array keeps its length and an object its keys, each element or property normalized in place. Every other value is kept, so no `undefined` is left. |
| Json.NormalizeKeepsDefined | src/routes/PDFTool.tsx:77 | A value without `undefined` is written unchanged. |
| Templates.DocumentPayload | src/routes/PDFTool.tsx:69-77 | The save is refused with "Invalid template structure" exactly when `basePdf` is falsy or there is no first page. Otherwise the document holds `basePdf`, `columns \|\| []` and the first page, with no `undefined` left. |
| Templates.SaveLoadRoundTrip | src/routes/Designer.tsx:174-178 | Loading what a save stored gives back a one-page template that has columns and no `undefined`. |
| Templates.SaveLoadFirstPage | src/routes/Designer.tsx:174-178 | In general a save keeps only the first page, and missing columns come back as `[]`. |
| Templates.LoadSaveRoundTrip | src/routes/Designer.tsx:279-283 | Saving a loaded document stores the same document. |
| Reconcile.TransformInputsData | src/routes/PDFTool.tsx:193-202 | A list of exactly one record. It keeps exactly the entries that are neither null nor undefined, with unchanged values. |
| Reconcile.TransformIdempotent | src/routes/viewer.tsx:86-95 | Filtering twice equals filtering once. |
| Reconcile.InputsNeverFallBack | src/routes/PDFTool.tsx:440-441 | The `[{}]` fallback is never taken. |
| Reconcile.FindInput | src/routes/PDFTool.tsx:445 | `find` returns the first input that defines the name, or nothing when none does. |
| Reconcile.BuildTemplateField | src/routes/PDFTool.tsx:443-456 | The result has one page with as many fields as the stored template, its `basePdf` and version "5.3.5". A signature field is unchanged. Any other field keeps its name, type and other properties and becomes read-only. Its content is `String(value)` when the stored inputs define the name with a value other than null or undefined, and the old content otherwise. |
| Reconcile.ReconcileIdempotent | src/routes/PDFTool.tsx:495-508 | Reconciling twice with the same inputs equals reconciling once. |
| Reconcile.FindNested | src/routes/viewer.tsx:239 | The viewer's `find` returns the first input with a truthy record at "0" that defines the name (null included), or nothing when none does. |
| Reconcile.BuildViewerField | src/routes/viewer.tsx:238-261 | The result has one page, `basePdf` copied and version "5.3.5". Every field keeps its name, type and other properties and becomes read-only. A matched signature field takes the nested value itself, and a matched other field takes its `String`. An unmatched field keeps its content. |
| Reconcile.ViewerWithoutNested | src/routes/viewer.tsx:239-251 | Without any record at "0", every content stays and every field still becomes read-only. |
| Reconcile.ViewerIdempotent | src/routes/viewer.tsx:238-251 | Running the viewer's reconciliation twice equals running it once. |
| CommaFormat.FormatDataWithCommas | src/routes/PDFTool.tsx:171-192 | The in-place loop returns "" for "". Otherwise it returns the lines, each with "," appended exactly when it is not skipped, joined by newlines. |
| CommaFormat.FormatLines | src/routes/PDFTool.tsx:177-191 | The result has as many lines as the input. A skipped line is unchanged, and any other line gains exactly one trailing comma. |
| CommaFormat.FormattedLinesSkipped | src/routes/viewer.tsx:70-82 | Every line of a formatted text is skipped when it is formatted again. |
| CommaFormat.FormatIdempotent | src/routes/viewer.tsx:64-85 | Formatting twice equals formatting once. |
| CommaFormat.FormatKeepsComplete | src/routes/viewer.tsx:64-85 | A text none of whose lines needs a comma comes back unchanged. |
| SaveIntent.SelectIntentFirstMatch | src/routes/PDFTool.tsx:80-162 | The intent is the first of saveViewCreateClient, saveSignatureClient, closePdfViewer, saveViewCreate, saveSignatureCreate, pdfViewer whose route fragment the path contains (both directions). |
| SaveIntent.SelectIntentNone | src/routes/PDFTool.tsx:80-162 | No intent is chosen, and so no request is sent, exactly when the path contains none of "/deal", "/signature" and "/viewer". |
| SaveIntent.TitleFollowsIntent | src/routes/PDFTool.tsx:420-434 | The title chain gives a title exactly when the intent chain gives an intent, and the title is the one for that intent. |
| SaveIntent.FormFields | src/routes/PDFTool.tsx:83-161 | The fields sent, in order: id, inputs, meta, intent for a client signature; id, document, intent for a client deal or viewer; name, docDept, id, document, intent for staff. The last field names the intent. |
| SaveIntent.CompletionNotice | src/routes/PDFTool.tsx:164-168 | The final check shows "Document saved!" exactly when `response` is a received answer that is neither `null` nor `undefined` and whose `error` is falsy. Reading `error` on `null` or `undefined` data throws, and its message is shown. Every other case shows a toast starting with "Error saving document: ". |
| SaveIntent.OutOfScopeHidesSuccess | src/routes/PDFTool.tsx:164 | An answer without an error reads as success through a binding in scope, but as "response is not defined" through the name at line 164. |
| SaveIntent.SendForIntent | src/routes/PDFTool.tsx:80-162 | The branch posts the intent's form, or nothing when no route matches or the metadata lookup of a client signature fails. It gives the error toast of a failed lookup or post. |
| SaveIntent.OnSaveAndComplete | src/routes/PDFTool.tsx:64-170 | As written. No reference means no request and no toast. An invalid template means no request and "Invalid template structure". A valid one means the form of the selected intent, and a toast that is always an error, "response is not defined" unless the lookup or the post failed. |
| SaveIntent.OnSaveAndCompleteIntended | src/routes/PDFTool.tsx:64-170 | With `response` in scope, the same requests are sent. "Document saved!" is shown exactly when a request was sent, it succeeded, and its answer is neither `null` nor `undefined` and has a falsy `error`. |
| DesignerPage.EnterStaticShape | src/routes/Designer.tsx:237-247 | While editing, the only page is the static schema (or `[]`). The page description is `{width, height, padding [0,0,0,0]}` without a static schema, and the columns are kept. |
| DesignerPage.ExitStaticRestores | src/routes/Designer.tsx:250-262 | Ending the edit restores the stashed template's pages, columns and page description, with the edited first page as the static schema. |
| DesignerPage.EnterExitRoundTrip | src/routes/Designer.tsx:237-262 | Entering and leaving without an edit gives the template back, except that a missing static schema comes back as `[]`. |
| DesignerPage.DesignerState.constructor | src/routes/Designer.tsx:55-56 | The page starts with no designer, not editing, and with nothing stashed. |
| DesignerPage.DesignerState.ToggleEditingStaticSchemas | src/routes/Designer.tsx:217-264 | Without a designer, nothing happens. A non-blank page gives an error toast and no change. Entering stashes the template, shows `EnterStatic` of it and sets the flag. Exiting with no stash changes nothing, and a non-blank stash gives "Invalid basePdf format". Otherwise exiting shows `ExitStatic`, clears the stash and the flag. The invariant (editing exactly while a blank-page template is stashed) is preserved. |
| DesignerPage.DesignerState.OnSaveTemplate | src/routes/Designer.tsx:164-210 | Without a designer, nothing happens. An invalid template gives no request and "Invalid template structure". Otherwise it posts name, dept, document and intent "saveDocument". "Document saved!" is shown exactly when the post succeeds with an answer that is neither `null` nor `undefined` and has a falsy `error`. |
| DesignerPage.DesignerState.OnResetTemplate | src/routes/Designer.tsx:211-216 | Forgets the stored template and shows the starting template when a designer exists. The editing state is unchanged. |
| DesignerPage.DesignerState.OnLoadTemplateFromDB | src/routes/Designer.tsx:266-325 | As written. A failed fetch logs its error. A fetched document reaches the call of `getFontsData1` (line 294), a name the page never declares or imports. The ReferenceError is logged by the catch, and the designer, stash and flag are left unchanged. |
| DesignerPage.DesignerState.OnLoadTemplateFromDBIntended | src/routes/Designer.tsx:266-321 | With `getFontsData` as the font loader and `lang` bound, a fetched document becomes the designer's template `{basePdf, columns, [doc.schemas]}` once the container exists. A failed fetch changes nothing, and the editing state is kept. |

## Left out

- Every HTTP call is a parameter or a result, never performed. This covers the save posts,
  the template and input fetches, and the ipify/ipapi lookups behind the client-signature
  metadata (`meta`).
- pdfme is not part of this model. Its `generate` is a parameter, and `getTemplate`,
  `getInputs` and the designer, form and viewer objects are plain values.
- Fonts, plugins, the opened blob and `window.open` are left out.
- `getTemplate()` of the helper module is not part of this model. `OnResetTemplate` takes
  its result as a parameter.
- The barcode scanner, keyboard shortcuts, JSX rendering, date formatting and
  `localStorage` reads are left out. Only the removal of the stored template is kept, as a
  ghost flag.
- Numbers are integers. JSON text itself is not modelled: a stored document is the value
  the text encodes, and only the undefined-to-null replacer is modelled.
- Property reads on strings, arrays, numbers and booleans (a string's characters, array
  indices through `input["0"]`) read as `undefined`. Keys inherited from
  `Object.prototype` (`"toString"`, ...) are not modelled. Reads on `null` and `undefined`
  throw; this is modelled where the code reaches them, in `SaveIntent.CompletionNotice`.
- LabelPages.Get: a key missing from a page reads as `""`, where JavaScript reads
  `undefined`. Both are falsy, so every truthiness test agrees. On a page the order never
  builds, an aggregated row's fields would hold `undefined` in the source and `""` here.
- LabelAggregate.AggregateProducts: it returns the map `productMap`, not
  `Object.values(productMap)`. JavaScript lists integer-like dealer ids first in numeric
  order, so no output order is claimed.
- LabelOrder.OrderState.HandleAddToOrder: the update is written as a new page list. Two
  things are not modelled:
  - The source copies the page list but writes into the last page object itself, which is
    shared with the previous state.
  - Under `React.StrictMode` (src/index.tsx:50), React calls the state updater twice in
    development. Because of that sharing, the labels would then be written twice.
- LabelPrint.Paginate requires a positive group size. With size 0 or less and non-empty
  data, the source loop never ends. The size used is always 30.
- LabelPrint.GeneratePdfWithInputs: `new Uint8Array(pdf.buffer)` copies the whole
  underlying buffer, and the generator's output stands for it. That the joined bytes form
  a valid PDF is not claimed.
- Reconcile.EntriesOf: `Object.entries` is modelled for objects, arrays and strings.
  Other values have no entries.
- The code is followed where the description of the behaviour differs: unmatched
  non-signature fields also become read-only.

## Findings

| source | as written | input that shows it | evidently intended | confidence | as-written member | corrected member |
|---|---|---|---|---|---|---|
| src/routes/PDFTool.tsx:164 | `response` is declared with `const` inside each branch (lines 87-161), so the name at line 164 is unbound. After a valid template every save ends in the error toast "Error saving document: response is not defined", even when the post succeeded. | A valid one-page template on `/deal` whose post answers `{}` | Read the answer of the branch's post: "Document saved!" unless it carries an `error` | high (not executed) | SaveIntent.OnSaveAndComplete, SaveIntent.OutOfScopeHidesSuccess | SaveIntent.OnSaveAndCompleteIntended |
| src/routes/Designer.tsx:294 | `onLoadTemplateFromDB` calls `getFontsData1()`, which is declared nowhere in the file and not imported (imports at lines 6-17). The ReferenceError is caught at line 323 and only logged, so a fetched document never reaches the designer. `lang` at line 301 is unbound as well. Inside the `.then` callback it would throw as an unhandled rejection that the catch never sees, so renaming the loader alone is not enough. | Any stored document that fetches and parses | Load fonts with the imported `getFontsData`, bind `lang` (for example `'en'`, as at line 113), and install `{basePdf, columns, [doc.schemas]}` as the designer's template | high (not executed) | DesignerPage.DesignerState.OnLoadTemplateFromDB | DesignerPage.DesignerState.OnLoadTemplateFromDBIntended |
