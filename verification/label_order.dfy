/** The label maker's order: the quantity typed for each search result and the list of
    label pages that "add to order" fills, 30 labels of five keys per page. */
module LabelOrder {
  import opened Wrappers
  import opened Text
  import opened LabelPages

  /** A search result row. `price` is the text the template literal `$${price}` prints
      after the dollar sign. */
  datatype Product = Product(id: string, name: string, price: string, location: string,
                             dealerId: string, brand: string)

  /** The label printed for one unit of a product. */
  function LabelOf(p: Product): Label {
    Label(p.dealerId, p.name, p.brand, "$" + p.price, p.location)
  }

  function Repeat<T>(x: T, n: nat): (r: seq<T>)
    ensures |r| == n && forall i :: 0 <= i < n ==> r[i] == x
  {
    seq(n, _ => x)
  }

  /** The number of units `quantities[product.id] || 1` asks for. A quantity is what
      `parseInt` gives: an integer, or NaN (`None`). A missing entry, NaN and 0 are falsy
      and become 1; `Array.from({ length })` turns a negative length into an empty array. */
  function UnitCount(quantities: map<string, Option<int>>, id: string): (n: nat)
    ensures id !in quantities || quantities[id] == None || quantities[id] == Some(0) ==> n == 1
    ensures id in quantities && quantities[id].Some? && quantities[id].value != 0 ==>
      n == if quantities[id].value < 0 then 0 else quantities[id].value
  {
    if id in quantities && quantities[id].Some? && quantities[id].value != 0 then
      var v := quantities[id].value;
      if v < 0 then 0 else v
    else 1
  }

  /** The longest array `new Array(len)` can make, 2^32 - 1; `Array.from` asked for a longer
      one throws a RangeError with the message below. */
  const MaxArrayLength: nat := 0xFFFF_FFFF
  const InvalidArrayLength := "Invalid array length"

  /** The five assignments of one unit at `baseIndex`, the index after the last label of
      the page: they append the unit's label to the page. */
  method WriteUnit(page: Page, baseIndex: nat, newProduct: Product, ghost onPage: seq<Label>)
    returns (written: Page)
    requires page == KeyedPage(onPage) && baseIndex == |onPage| + 1
    ensures written == page + LabelEntries(baseIndex, LabelOf(newProduct))
    ensures written == KeyedPage(onPage + [LabelOf(newProduct)])
  {
    written := Put(page, Key(baseIndex, QrCode), newProduct.dealerId);
    written := Put(written, Key(baseIndex, Title), newProduct.name);
    written := Put(written, Key(baseIndex, Free1), newProduct.brand);
    written := Put(written, Key(baseIndex, Free2), "$" + newProduct.price);
    written := Put(written, Key(baseIndex, Free3), newProduct.location);
    WriteLabel(onPage, LabelOf(newProduct));
    KeyedPageSnoc(onPage, LabelOf(newProduct));
  }

  /** One iteration of the `forEach` of `handleAddToOrder`: open a new page when there is
      none or the last one holds 30 labels, then write the unit at index `keys / 5 + 1` of
      the last page. On the page list of `placed` this gives the page list of `placed`
      followed by the unit's label. */
  method PlaceUnit(pages: seq<Page>, newProduct: Product, ghost placed: seq<Label>)
    returns (updated: seq<Page>)
    requires pages == Layout(placed)
    ensures updated == Layout(placed + [LabelOf(newProduct)])
  {
    var l := LabelOf(newProduct);
    updated := pages;
    ghost var onPage: seq<Label>;
    if |updated| == 0 || |updated[|updated| - 1]| / KeysPerLabel >= ItemsPerPage {
      LayoutSnocNewPage(placed, l);
      updated := updated + [[]];
      onPage := [];
    } else {
      LayoutSnocSamePage(placed, l);
      var c := Chunks(placed, ItemsPerPage);
      onPage := c[|c| - 1];
    }
    var currentPage := |updated| - 1;
    KeyedPageSize(onPage);
    var baseIndex := |updated[currentPage]| / KeysPerLabel + 1;
    var page := WriteUnit(updated[currentPage], baseIndex, newProduct, onPage);
    updated := updated[currentPage := page];
  }

  /** The state `handleAddToOrder` and `handleQuantityChange` work on. The ghost `labels`
      lists every unit ever added, in order; the pages are always their layout. */
  class OrderState {
    var quantities: map<string, Option<int>>
    var selectedProducts: seq<Page>
    ghost var labels: seq<Label>

    ghost predicate Valid()
      reads this
    {
      selectedProducts == Layout(labels)
    }

    constructor ()
      ensures Valid()
      ensures quantities == map[] && selectedProducts == [] && labels == []
    {
      quantities := map[];
      selectedProducts := [];
      labels := [];
    }

    /** `setQuantities(prev => ({ ...prev, [id]: quantity }))`. */
    method HandleQuantityChange(id: string, quantity: Option<int>)
      modifies this
      ensures quantities == old(quantities)[id := quantity]
      ensures selectedProducts == old(selectedProducts) && labels == old(labels)
    {
      quantities := quantities[id := quantity];
    }

    /** Adds `UnitCount` copies of the product's label after the labels already ordered;
        nothing already in the order changes. A count above `MaxArrayLength` makes
        `Array.from` throw before the state is touched. */
    method HandleAddToOrder(product: Product) returns (error: Option<string>)
      requires Valid()
      modifies this
      ensures Valid()
      ensures UnitCount(old(quantities), product.id) > MaxArrayLength ==>
        error == Some(InvalidArrayLength) && labels == old(labels) &&
        selectedProducts == old(selectedProducts)
      ensures UnitCount(old(quantities), product.id) <= MaxArrayLength ==>
        error.None? &&
        labels == old(labels) + Repeat(LabelOf(product), UnitCount(old(quantities), product.id))
      ensures quantities == old(quantities)
    {
      error := None;
      var quantity := UnitCount(quantities, product.id);
      if quantity > MaxArrayLength {
        return Some(InvalidArrayLength);
      }
      var newProducts := Repeat(product, quantity);
      var updatedProducts := selectedProducts;
      ghost var placed := labels;
      var k := 0;
      while k < |newProducts|
        invariant 0 <= k <= quantity
        invariant placed == labels + Repeat(LabelOf(product), k)
        invariant updatedProducts == Layout(placed)
        invariant labels == old(labels) && quantities == old(quantities)
      {
        updatedProducts := PlaceUnit(updatedProducts, newProducts[k], placed);
        placed := placed + [LabelOf(product)];
        assert Repeat(LabelOf(product), k + 1) == Repeat(LabelOf(product), k) + [LabelOf(product)];
        k := k + 1;
      }
      selectedProducts := updatedProducts;
      labels := placed;
    }
  }

  /** After adding `q` units of a product to `labels`, unit u (the label numbered
      g = |labels| + u overall) sits on page g / 30 at index g % 30 + 1. */
  lemma AddedUnitAt(labels: seq<Label>, p: Product, q: nat, u: nat, s: string)
    requires u < q && s in Suffixes
    ensures var pages, g := Layout(labels + Repeat(LabelOf(p), q)), |labels| + u;
      g / ItemsPerPage < |pages| &&
      g % ItemsPerPage + 1 <= |pages[g / ItemsPerPage]| / KeysPerLabel &&
      Get(pages[g / ItemsPerPage], Key(g % ItemsPerPage + 1, s)) == Field(LabelOf(p), s)
  {
    var all := labels + Repeat(LabelOf(p), q);
    assert all[|labels| + u] == LabelOf(p);
    LayoutFind(all, |labels| + u, s);
  }

  /** The five keys of that unit hold the dealer id, the name, the brand, the price after
      a dollar sign and the location. */
  lemma AddedUnitFields(labels: seq<Label>, p: Product, q: nat, u: nat)
    requires u < q
    ensures var pages, g := Layout(labels + Repeat(LabelOf(p), q)), |labels| + u;
      g / ItemsPerPage < |pages| &&
      var page, j := pages[g / ItemsPerPage], g % ItemsPerPage + 1;
      Get(page, Key(j, QrCode)) == p.dealerId && Get(page, Key(j, Title)) == p.name &&
      Get(page, Key(j, Free1)) == p.brand && Get(page, Key(j, Free2)) == "$" + p.price &&
      Get(page, Key(j, Free3)) == p.location
  {
    AddedUnitAt(labels, p, q, u, QrCode);
    AddedUnitAt(labels, p, q, u, Title);
    AddedUnitAt(labels, p, q, u, Free1);
    AddedUnitAt(labels, p, q, u, Free2);
    AddedUnitAt(labels, p, q, u, Free3);
  }

  /** Ordering 45 units of one product on an empty order fills one page with 30 labels
      (150 keys) and puts the other 15 (75 keys) on a second page. */
  lemma FortyFiveUnits(p: Product)
    ensures var pages := Layout([] + Repeat(LabelOf(p), 45));
      |pages| == 2 && |pages[0]| == 150 && |pages[1]| == 75
  {
    var all := [] + Repeat(LabelOf(p), 45);
    LayoutShape(all);
    var c := Chunks(all, ItemsPerPage);
    assert c == [all[..30]] + Chunks(all[30..], ItemsPerPage);
    assert Chunks(all[30..], ItemsPerPage) == [all[30..]];
    KeyedPageSize(c[1]);
  }
}
