/** Printing the order: `GeneratePDFWInputs` splits the order's pages into groups of 30,
    renders each group with the PDF generator and joins the resulting byte arrays. */
module LabelPrint {
  import opened Wrappers
  import opened LabelPages

  /** Inputs per generated document. */
  const InputsPerDocument: nat := 30

  /** `paginateData(data, itemsPerPage)`: `data.slice(i, i + itemsPerPage)` for
      i = 0, itemsPerPage, ... while i < data.length. With itemsPerPage <= 0 and non-empty
      data the loop never ends, so a positive group size is required. */
  method Paginate<T>(data: seq<T>, itemsPerPage: nat) returns (pages: seq<seq<T>>)
    requires itemsPerPage > 0
    ensures pages == Chunks(data, itemsPerPage)
    ensures |pages| == (|data| + itemsPerPage - 1) / itemsPerPage
    ensures forall i :: 0 <= i < |pages| ==> 0 < |pages[i]| <= itemsPerPage
    ensures forall i :: 0 <= i < |pages| - 1 ==> |pages[i]| == itemsPerPage
    ensures Flatten(pages) == data
  {
    pages := [];
    var i := 0;
    while i < |data|
      invariant pages + Chunks(data[if i <= |data| then i else |data|..], itemsPerPage)
        == Chunks(data, itemsPerPage)
    {
      var rest := data[i..];
      var end := if i + itemsPerPage <= |data| then i + itemsPerPage else |data|;
      if |rest| <= itemsPerPage {
        assert data[i..end] == rest;
        assert data[end..] == [];
      } else {
        assert rest[..itemsPerPage] == data[i..end];
        assert rest[itemsPerPage..] == data[end..];
      }
      pages := pages + [data[i..end]];
      i := i + itemsPerPage;
    }
    assert data[|data|..] == [];
    ChunksShape(data, itemsPerPage);
    ChunksFlatten(data, itemsPerPage);
  }

  /** `buffers.reduce((acc, buf) => acc.concat(Array.from(buf)), acc)`. */
  function CombineFrom(acc: seq<bv8>, buffers: seq<seq<bv8>>): seq<bv8>
    decreases |buffers|
  {
    if buffers == [] then acc else CombineFrom(acc + buffers[0], buffers[1..])
  }

  function TotalLength(buffers: seq<seq<bv8>>): nat
    decreases |buffers|
  {
    if buffers == [] then 0 else |buffers[0]| + TotalLength(buffers[1..])
  }

  /** The combined buffer is the buffers one after another, in order. */
  lemma {:induction false} CombineConcatenates(acc: seq<bv8>, buffers: seq<seq<bv8>>)
    ensures CombineFrom(acc, buffers) == acc + Flatten(buffers)
    decreases |buffers|
  {
    if buffers != [] {
      CombineConcatenates(acc + buffers[0], buffers[1..]);
      assert acc + buffers[0] + Flatten(buffers[1..]) == acc + Flatten(buffers);
    }
  }

  /** Its length is the sum of theirs. */
  lemma {:induction false} CombinedLength(buffers: seq<seq<bv8>>)
    ensures |CombineFrom([], buffers)| == TotalLength(buffers)
  {
    CombineConcatenates([], buffers);
    FlattenLength(buffers);
  }

  lemma {:induction false} FlattenLength(buffers: seq<seq<bv8>>)
    ensures |Flatten(buffers)| == TotalLength(buffers)
    decreases |buffers|
  {
    if buffers != [] {
      FlattenLength(buffers[1..]);
    }
  }

  /** The buffers `acc` followed by every group rendered in order, or `None` at the first
      group the generator fails on. */
  function RenderFrom(acc: seq<seq<bv8>>, groups: seq<seq<Page>>,
                      generate: seq<Page> -> Option<seq<bv8>>): Option<seq<seq<bv8>>>
    decreases |groups|
  {
    if groups == [] then Some(acc)
    else match generate(groups[0])
      case None => None
      case Some(b) => RenderFrom(acc + [b], groups[1..], generate)
  }

  /** Rendering fails exactly when the generator fails on some group; otherwise there is one
      buffer per group, the generator's output for it. */
  lemma {:induction false} RenderFromSpec(acc: seq<seq<bv8>>, groups: seq<seq<Page>>,
                                          generate: seq<Page> -> Option<seq<bv8>>)
    ensures RenderFrom(acc, groups, generate).None? <==>
      exists i :: 0 <= i < |groups| && generate(groups[i]).None?
    ensures RenderFrom(acc, groups, generate).Some? ==>
      var bs := RenderFrom(acc, groups, generate).value;
      |bs| == |acc| + |groups| && bs[..|acc|] == acc &&
      forall i :: 0 <= i < |groups| ==> Some(bs[|acc| + i]) == generate(groups[i])
    decreases |groups|
  {
    if groups != [] {
      match generate(groups[0])
      case None =>
      case Some(b) =>
        RenderFromSpec(acc + [b], groups[1..], generate);
        if exists i :: 0 <= i < |groups| && generate(groups[i]).None? {
          var i :| 0 <= i < |groups| && generate(groups[i]).None?;
          assert groups[1..][i - 1] == groups[i];
        }
        if exists i :: 0 <= i < |groups[1..]| && generate(groups[1..][i]).None? {
          var i :| 0 <= i < |groups[1..]| && generate(groups[1..][i]).None?;
          assert groups[i + 1] == groups[1..][i];
        }
        if RenderFrom(acc, groups, generate).Some? {
          var bs := RenderFrom(acc, groups, generate).value;
          assert bs[..|acc| + 1][..|acc|] == bs[..|acc|];
          forall i | 0 <= i < |groups| ensures Some(bs[|acc| + i]) == generate(groups[i]) {
            if i > 0 {
              assert groups[1..][i - 1] == groups[i];
            }
          }
        }
    }
  }

  /** `GeneratePDFWInputs(inputs, currentRef)`, returning the bytes it opens. The generator
      is a parameter; `hasReference` says whether `currentRef` is set. Without it the call
      throws before anything is generated; a failing generator makes it throw "Failed to
      generate PDF". */
  method GeneratePdfWithInputs(inputs: seq<Page>, hasReference: bool,
                               generate: seq<Page> -> Option<seq<bv8>>)
    returns (r: Result<seq<bv8>, string>)
    ensures !hasReference ==> r == Failure("Invalid reference for PDF generation")
    ensures hasReference && RenderFrom([], Chunks(inputs, InputsPerDocument), generate).None? ==>
      r == Failure("Failed to generate PDF")
    ensures hasReference && RenderFrom([], Chunks(inputs, InputsPerDocument), generate).Some? ==>
      r == Success(Flatten(RenderFrom([], Chunks(inputs, InputsPerDocument), generate).value))
  {
    if !hasReference {
      return Failure("Invalid reference for PDF generation");
    }
    var pages := Paginate(inputs, InputsPerDocument);
    var pdfBuffers: seq<seq<bv8>> := [];
    var i := 0;
    assert pages[0..] == pages;
    while i < |pages|
      invariant 0 <= i <= |pages|
      invariant RenderFrom(pdfBuffers, pages[i..], generate) == RenderFrom([], pages, generate)
    {
      assert pages[i..][1..] == pages[i + 1..];
      var pdf := generate(pages[i]);
      if pdf.None? {
        return Failure("Failed to generate PDF");
      }
      pdfBuffers := pdfBuffers + [pdf.value];
      i := i + 1;
    }
    assert pages[i..] == [];
    assert RenderFrom([], pages, generate) == Some(pdfBuffers);
    CombineConcatenates([], pdfBuffers);
    assert [] + Flatten(pdfBuffers) == Flatten(pdfBuffers);
    return Success(CombineFrom([], pdfBuffers));
  }
}
