/** The label order's storage: a page is a plain object whose own properties are label
    keys `${i}qrcode`, `${i}title`, `${i}free1`, `${i}free2`, `${i}free3`, kept in the
    order they were first assigned (the order `Object.keys` reports for such keys). */
module LabelPages {
  import opened Text

  /** An object's own string properties in insertion order. */
  type Page = seq<(string, string)>

  function KeysOf(p: Page): seq<string> {
    seq(|p|, i requires 0 <= i < |p| => p[i].0)
  }

  /** `page[k]`; a missing key reads as the empty string, which is falsy like `undefined`. */
  function Get(p: Page, k: string): string {
    if p == [] then "" else if p[0].0 == k then p[0].1 else Get(p[1..], k)
  }

  /** `page[k] = v`: an existing property keeps its place, a new one goes last. */
  function Put(p: Page, k: string, v: string): Page {
    if p == [] then [(k, v)]
    else if p[0].0 == k then [(k, v)] + p[1..]
    else [p[0]] + Put(p[1..], k, v)
  }

  /** Assigning a new key appends it; assigning an existing one keeps the key order; the
      assigned key reads back the new value and every other key reads as before. */
  lemma {:induction false} PutSpec(p: Page, k: string, v: string)
    ensures k !in KeysOf(p) ==> Put(p, k, v) == p + [(k, v)]
    ensures k in KeysOf(p) ==> KeysOf(Put(p, k, v)) == KeysOf(p)
    ensures Get(Put(p, k, v), k) == v
    ensures forall k' :: k' != k ==> Get(Put(p, k, v), k') == Get(p, k')
  {
    if p != [] {
      assert KeysOf(p) == [p[0].0] + KeysOf(p[1..]);
      if p[0].0 == k {
        assert KeysOf([(k, v)] + p[1..]) == KeysOf(p);
      } else {
        PutSpec(p[1..], k, v);
        assert KeysOf(Put(p, k, v)) == [p[0].0] + KeysOf(Put(p[1..], k, v));
      }
    }
  }

  lemma {:induction false} KeysOfAppend(p: Page, q: Page)
    ensures KeysOf(p + q) == KeysOf(p) + KeysOf(q)
  {
  }

  lemma {:induction false} GetAppend(p: Page, q: Page, k: string)
    ensures Get(p + q, k) == if k in KeysOf(p) then Get(p, k) else Get(q, k)
  {
    if p != [] {
      assert (p + q)[1..] == p[1..] + q;
      assert KeysOf(p) == [p[0].0] + KeysOf(p[1..]);
      GetAppend(p[1..], q, k);
    } else {
      assert p + q == q;
    }
  }

  const ItemsPerPage: nat := 30
  const KeysPerLabel: nat := 5

  const QrCode := "qrcode"
  const Title := "title"
  const Free1 := "free1"
  const Free2 := "free2"
  const Free3 := "free3"

  /** The five key suffixes of one label, in the order the order buffer writes them. */
  const Suffixes: seq<string> := [QrCode, Title, Free1, Free2, Free3]

  predicate StartsWithLetter(s: string) {
    |s| > 0 && IsAsciiLetter(s[0])
  }

  /** The template literal `${i}${suffix}`. */
  function Key(i: nat, suffix: string): string {
    NatToString(i) + suffix
  }

  /** A key determines its index and its suffix. */
  lemma KeyParse(a: nat, s1: string, b: nat, s2: string)
    requires StartsWithLetter(s1) && StartsWithLetter(s2)
    requires Key(a, s1) == Key(b, s2)
    ensures a == b && s1 == s2
  {
    LeadingNonLettersOfKey(NatToString(a), s1);
    LeadingNonLettersOfKey(NatToString(b), s2);
    NatToStringInjective(a, b);
    var n := |NatToString(a)|;
    assert s1 == Key(a, s1)[n..] == Key(b, s2)[n..] == s2;
  }

  /** One printed label. */
  datatype Label = Label(qrcode: string, title: string, free1: string, free2: string, free3: string)

  /** The value a label stores under a suffix. */
  function Field(l: Label, suffix: string): string {
    if suffix == QrCode then l.qrcode
    else if suffix == Title then l.title
    else if suffix == Free1 then l.free1
    else if suffix == Free2 then l.free2
    else l.free3
  }

  /** The five properties of label number `i`, in assignment order. */
  function LabelEntries(i: nat, l: Label): Page {
    [(Key(i, QrCode), l.qrcode), (Key(i, Title), l.title), (Key(i, Free1), l.free1),
     (Key(i, Free2), l.free2), (Key(i, Free3), l.free3)]
  }

  /** The page object that holds `labels` as labels 1, 2, ..., |labels|. */
  function KeyedPage(labels: seq<Label>): Page
    decreases |labels|
  {
    if labels == [] then []
    else KeyedPage(labels[..|labels| - 1]) + LabelEntries(|labels|, labels[|labels| - 1])
  }

  lemma KeyedPageSnoc(labels: seq<Label>, l: Label)
    ensures KeyedPage(labels + [l]) == KeyedPage(labels) + LabelEntries(|labels| + 1, l)
  {
    assert (labels + [l])[..|labels|] == labels;
  }

  /** A page of n labels has 5n keys. */
  lemma {:induction false} KeyedPageSize(labels: seq<Label>)
    ensures |KeyedPage(labels)| == KeysPerLabel * |labels|
    decreases |labels|
  {
    if labels != [] {
      KeyedPageSize(labels[..|labels| - 1]);
    }
  }

  /** Every key of a page of n labels has an index in 1..n. */
  lemma {:induction false} KeyIndexInRange(labels: seq<Label>, m: nat, s: string)
    requires StartsWithLetter(s)
    requires Key(m, s) in KeysOf(KeyedPage(labels))
    ensures 1 <= m <= |labels|
    decreases |labels|
  {
    var n := |labels|;
    if n > 0 {
      var init := labels[..n - 1];
      KeysOfAppend(KeyedPage(init), LabelEntries(n, labels[n - 1]));
      if Key(m, s) in KeysOf(KeyedPage(init)) {
        KeyIndexInRange(init, m, s);
      } else {
        var e := KeysOf(LabelEntries(n, labels[n - 1]));
        assert Key(m, s) in e;
        var t :| 0 <= t < 5 && e[t] == Key(m, s);
        KeyParse(m, s, n, Suffixes[t]);
      }
    }
  }

  /** Every index 1..n carries all five keys. */
  lemma {:induction false} KeyPresent(labels: seq<Label>, j: nat, s: string)
    requires 1 <= j <= |labels| && s in Suffixes
    ensures Key(j, s) in KeysOf(KeyedPage(labels))
    decreases |labels|
  {
    var n := |labels|;
    var init := labels[..n - 1];
    KeysOfAppend(KeyedPage(init), LabelEntries(n, labels[n - 1]));
    if j < n {
      KeyPresent(init, j, s);
    } else {
      assert KeysOf(LabelEntries(n, labels[n - 1]))[Suffix(s)] == Key(j, s);
    }
  }

  function Suffix(s: string): (t: nat)
    requires s in Suffixes
    ensures t < 5 && Suffixes[t] == s
  {
    if s == QrCode then 0 else if s == Title then 1 else if s == Free1 then 2
    else if s == Free2 then 3 else 4
  }

  /** Reading a key of label i returns what label i stores under that suffix. */
  lemma {:induction false} GetKeyed(labels: seq<Label>, j: nat, s: string)
    requires 1 <= j <= |labels| && s in Suffixes
    ensures Get(KeyedPage(labels), Key(j, s)) == Field(labels[j - 1], s)
    decreases |labels|
  {
    var n := |labels|;
    var init, l := labels[..n - 1], labels[n - 1];
    GetAppend(KeyedPage(init), LabelEntries(n, l), Key(j, s));
    if j < n {
      KeyPresent(init, j, s);
      GetKeyed(init, j, s);
    } else {
      if Key(j, s) in KeysOf(KeyedPage(init)) {
        KeyIndexInRange(init, j, s);
      }
      GetOwnLabel(n, l, s);
    }
  }

  /** The first property named k decides what `page[k]` reads. */
  lemma {:induction false} GetAt(p: Page, k: string, t: nat)
    requires t < |p| && p[t].0 == k
    requires forall i :: 0 <= i < t ==> p[i].0 != k
    ensures Get(p, k) == p[t].1
  {
    if t > 0 {
      GetAt(p[1..], k, t - 1);
    }
  }

  /** The five keys of label j read back its five fields. */
  lemma ReadKeyed(labels: seq<Label>, j: nat)
    requires 1 <= j <= |labels|
    ensures var p, d, l := KeyedPage(labels), NatToString(j), labels[j - 1];
      Get(p, d + QrCode) == l.qrcode && Get(p, d + Title) == l.title &&
      Get(p, d + Free1) == l.free1 && Get(p, d + Free2) == l.free2 && Get(p, d + Free3) == l.free3
  {
    GetKeyed(labels, j, QrCode);
    GetKeyed(labels, j, Title);
    GetKeyed(labels, j, Free1);
    GetKeyed(labels, j, Free2);
    GetKeyed(labels, j, Free3);
  }

  lemma GetOwnLabel(n: nat, l: Label, s: string)
    requires s in Suffixes
    ensures Get(LabelEntries(n, l), Key(n, s)) == Field(l, s)
  {
    var e := LabelEntries(n, l);
    forall t | 0 <= t < Suffix(s) ensures e[t].0 != Key(n, s) {
      if e[t].0 == Key(n, s) {
        KeyParse(n, Suffixes[t], n, s);
      }
    }
    GetAt(e, Key(n, s), Suffix(s));
  }

  /** `data.slice(i, i + k)` for i = 0, k, 2k, ...: consecutive groups of k, the last
      possibly shorter. */
  function Chunks<T>(s: seq<T>, k: nat): seq<seq<T>>
    requires k > 0
    decreases |s|
  {
    if s == [] then []
    else if |s| <= k then [s]
    else [s[..k]] + Chunks(s[k..], k)
  }

  function Flatten<T>(ss: seq<seq<T>>): seq<T> {
    if ss == [] then [] else ss[0] + Flatten(ss[1..])
  }

  lemma {:induction false} FlattenSnoc<T>(ss: seq<seq<T>>, s: seq<T>)
    ensures Flatten(ss + [s]) == Flatten(ss) + s
  {
    if ss != [] {
      assert (ss + [s])[1..] == ss[1..] + [s];
      FlattenSnoc(ss[1..], s);
    } else {
      assert [s][1..] == [];
    }
  }

  /** The groups put back together are the input. */
  lemma {:induction false} ChunksFlatten<T>(s: seq<T>, k: nat)
    requires k > 0
    ensures Flatten(Chunks(s, k)) == s
    decreases |s|
  {
    if |s| > k {
      ChunksFlatten(s[k..], k);
      assert s[..k] + s[k..] == s;
    } else if s != [] {
      assert [s][1..] == [];
    }
  }

  lemma DivUnique(n: int, k: int, q: int, r: int)
    requires k > 0 && 0 <= r < k && n == q * k + r
    ensures n / k == q
  {
    var d := n / k - q;
    assert d * k == r - n % k;
    MulBounded(d, k);
  }

  lemma MulBounded(d: int, k: int)
    requires k > 0 && -k < d * k < k
    ensures d == 0
  {
    if d >= 1 {
      MulAtLeast(d, k);
    } else if d <= -1 {
      MulAtLeast(-d, k);
    }
  }

  lemma MulAtLeast(d: int, k: int)
    requires d >= 1 && k > 0
    ensures d * k >= k
  {
  }

  /** There are ceil(|s| / k) groups; none is empty, every one but the last has exactly k
      elements and the last at most k. */
  lemma {:induction false} ChunksShape<T>(s: seq<T>, k: nat)
    requires k > 0
    ensures |Chunks(s, k)| == (|s| + k - 1) / k
    ensures forall i :: 0 <= i < |Chunks(s, k)| ==> 0 < |Chunks(s, k)[i]| <= k
    ensures forall i :: 0 <= i < |Chunks(s, k)| - 1 ==> |Chunks(s, k)[i]| == k
    decreases |s|
  {
    if |s| > k {
      var rest := s[k..];
      ChunksShape(rest, k);
      var b := |rest| + k - 1;
      DivUnique(b + k, k, b / k + 1, b % k);
      assert |s| + k - 1 == b + k;
      var c := Chunks(s, k);
      assert c == [s[..k]] + Chunks(rest, k);
    } else if s != [] {
      DivUnique(|s| + k - 1, k, 1, |s| - 1);
    } else {
      DivUnique(k - 1, k, 0, k - 1);
    }
  }

  /** Adding one element opens a new group when there is none or the last one is full,
      and otherwise extends the last group. */
  lemma {:induction false} ChunksSnoc<T>(s: seq<T>, x: T, k: nat)
    requires k > 0
    ensures var c := Chunks(s, k);
      (c == [] || |c[|c| - 1]| >= k) ==> Chunks(s + [x], k) == c + [[x]]
    ensures var c := Chunks(s, k);
      !(c == [] || |c[|c| - 1]| >= k) ==> Chunks(s + [x], k) == c[..|c| - 1] + [c[|c| - 1] + [x]]
    decreases |s|
  {
    var c := Chunks(s, k);
    if s == [] {
      assert s + [x] == [x];
    } else if |s| < k {
      assert c == [s];
      assert Chunks(s + [x], k) == [s + [x]];
    } else if |s| == k {
      assert c == [s];
      assert (s + [x])[..k] == s && (s + [x])[k..] == [x];
    } else {
      var rest := s[k..];
      var c' := Chunks(rest, k);
      assert c == [s[..k]] + c';
      assert rest != [] && c' != [];
      assert c[|c| - 1] == c'[|c'| - 1];
      assert (s + [x])[..k] == s[..k];
      assert (s + [x])[k..] == rest + [x];
      assert Chunks(s + [x], k) == [s[..k]] + Chunks(rest + [x], k);
      ChunksSnoc(rest, x, k);
      if |c'[|c'| - 1]| >= k {
        assert [s[..k]] + (c' + [[x]]) == c + [[x]];
      } else {
        assert c[..|c| - 1] == [s[..k]] + c'[..|c'| - 1];
      }
    }
  }

  /** The order buffer's page list for a sequence of labels: groups of 30, each written
      as a keyed page. */
  function Layout(labels: seq<Label>): seq<Page> {
    var cs := Chunks(labels, ItemsPerPage);
    seq(|cs|, i requires 0 <= i < |cs| => KeyedPage(cs[i]))
  }

  /** Group i holds the elements k*i up to k*i + k (or the end). */
  lemma {:induction false} ChunkAt<T>(s: seq<T>, k: nat, i: nat)
    requires k > 0 && i < |Chunks(s, k)|
    ensures k * i < |s|
    ensures Chunks(s, k)[i] == s[k * i .. if k * i + k <= |s| then k * i + k else |s|]
    decreases i
  {
    if i > 0 {
      assert |s| > k;
      var rest := s[k..];
      ChunkAt(rest, k, i - 1);
      var lo := k * (i - 1);
      assert k * i == lo + k;
      var hi := if lo + k <= |rest| then lo + k else |rest|;
      assert Chunks(s, k)[i] == Chunks(rest, k)[i - 1] == rest[lo..hi];
      assert rest[lo..hi] == s[k * i .. k + hi];
    }
  }

  /** Writing one more label when there is no page or the last holds 30 labels (150 keys):
      it goes on a new page of its own. */
  lemma LayoutSnocNewPage(labels: seq<Label>, l: Label)
    requires var pages := Layout(labels);
      pages == [] || |pages[|pages| - 1]| / KeysPerLabel >= ItemsPerPage
    ensures Layout(labels + [l]) == Layout(labels) + [KeyedPage([l])]
  {
    var c := Chunks(labels, ItemsPerPage);
    if c != [] {
      KeyedPageSize(c[|c| - 1]);
    }
    ChunksSnoc(labels, l, ItemsPerPage);
    var c' := c + [[l]];
    assert Chunks(labels + [l], ItemsPerPage) == c';
    forall i | 0 <= i < |c'| ensures Layout(labels + [l])[i] == (Layout(labels) + [KeyedPage([l])])[i] {
      if i < |c| {
        assert c'[i] == c[i];
      }
    }
  }

  /** Otherwise the label joins the last page. */
  lemma LayoutSnocSamePage(labels: seq<Label>, l: Label)
    requires var pages := Layout(labels);
      !(pages == [] || |pages[|pages| - 1]| / KeysPerLabel >= ItemsPerPage)
    ensures var pages, c := Layout(labels), Chunks(labels, ItemsPerPage);
      |c| == |pages| > 0 && |pages[|pages| - 1]| == KeysPerLabel * |c[|c| - 1]| &&
      Layout(labels + [l]) == pages[|pages| - 1 := KeyedPage(c[|c| - 1] + [l])]
  {
    var c := Chunks(labels, ItemsPerPage);
    var pages := Layout(labels);
    KeyedPageSize(c[|c| - 1]);
    ChunksSnoc(labels, l, ItemsPerPage);
    var c' := c[..|c| - 1] + [c[|c| - 1] + [l]];
    assert Chunks(labels + [l], ItemsPerPage) == c';
    var want := pages[|pages| - 1 := KeyedPage(c[|c| - 1] + [l])];
    forall i | 0 <= i < |c'| ensures Layout(labels + [l])[i] == want[i] {
      if i < |c| - 1 {
        assert c'[i] == c[i];
      }
    }
  }

  /** `e` holds keys that differ from each other and from every key of `p`. */
  predicate FreshEntries(p: Page, e: Page) {
    (forall u :: 0 <= u < |e| ==> e[u].0 !in KeysOf(p)) &&
    (forall u, v :: 0 <= u < v < |e| ==> e[u].0 != e[v].0)
  }

  /** Assigning the entries of `e` one by one to `p` appends them in order. */
  lemma PutFreshPrefix(p: Page, e: Page, t: nat)
    requires FreshEntries(p, e) && t < |e|
    ensures Put(p + e[..t], e[t].0, e[t].1) == p + e[..t + 1]
  {
    KeysOfAppend(p, e[..t]);
    assert e[t].0 !in KeysOf(e[..t]) by {
      forall u | 0 <= u < t ensures KeysOf(e[..t])[u] != e[t].0 {
        assert KeysOf(e[..t])[u] == e[u].0;
      }
    }
    PutSpec(p + e[..t], e[t].0, e[t].1);
    assert e[..t + 1] == e[..t] + [e[t]];
  }

  /** Entry t of label i is its key and value for suffix t. */
  lemma LabelEntryAt(i: nat, l: Label, t: nat)
    requires t < 5
    ensures LabelEntries(i, l)[t].0 == Key(i, Suffixes[t])
  {
  }

  /** A label's keys are absent from the page of the labels before it. */
  lemma LabelKeyFresh(c: seq<Label>, t: nat)
    requires t < 5
    ensures Key(|c| + 1, Suffixes[t]) !in KeysOf(KeyedPage(c))
  {
    assert StartsWithLetter(Suffixes[t]);
    if Key(|c| + 1, Suffixes[t]) in KeysOf(KeyedPage(c)) {
      KeyIndexInRange(c, |c| + 1, Suffixes[t]);
    }
  }

  /** The five keys of one label differ from each other. */
  lemma LabelKeysDistinct(i: nat, u: nat, t: nat)
    requires u < t < 5
    ensures Key(i, Suffixes[u]) != Key(i, Suffixes[t])
  {
    assert StartsWithLetter(Suffixes[u]) && StartsWithLetter(Suffixes[t]);
    assert Suffixes[u] != Suffixes[t];
    if Key(i, Suffixes[u]) == Key(i, Suffixes[t]) {
      KeyParse(i, Suffixes[u], i, Suffixes[t]);
    }
  }

  /** The five keys of one label differ from each other and from the keys of the labels
      before it. */
  lemma FreshLabelKeys(c: seq<Label>, l: Label)
    ensures FreshEntries(KeyedPage(c), LabelEntries(|c| + 1, l))
  {
    var i := |c| + 1;
    var e := LabelEntries(i, l);
    forall t | 0 <= t < 5 ensures e[t].0 !in KeysOf(KeyedPage(c)) {
      LabelEntryAt(i, l, t);
      LabelKeyFresh(c, t);
    }
    forall u, t | 0 <= u < t < 5 ensures e[u].0 != e[t].0 {
      LabelEntryAt(i, l, u);
      LabelEntryAt(i, l, t);
      LabelKeysDistinct(i, u, t);
    }
  }

  /** Five assignments of fresh, distinct keys append the five entries in order. */
  lemma PutFive(p: Page, e: Page)
    requires |e| == 5 && FreshEntries(p, e)
    ensures Put(Put(Put(Put(Put(p, e[0].0, e[0].1), e[1].0, e[1].1), e[2].0, e[2].1),
      e[3].0, e[3].1), e[4].0, e[4].1) == p + e
  {
    assert p == p + e[..0];
    PutFreshPrefix(p, e, 0);
    PutFreshPrefix(p, e, 1);
    PutFreshPrefix(p, e, 2);
    PutFreshPrefix(p, e, 3);
    PutFreshPrefix(p, e, 4);
    assert e[..5] == e;
  }

  /** The five assignments of `handleAddToOrder` on a page of n labels, at index n + 1,
      append label n + 1. */
  lemma WriteLabel(c: seq<Label>, l: Label)
    ensures var i := |c| + 1;
      Put(Put(Put(Put(Put(KeyedPage(c), Key(i, QrCode), l.qrcode), Key(i, Title), l.title),
        Key(i, Free1), l.free1), Key(i, Free2), l.free2), Key(i, Free3), l.free3)
      == KeyedPage(c + [l])
  {
    FreshLabelKeys(c, l);
    PutFive(KeyedPage(c), LabelEntries(|c| + 1, l));
    KeyedPageSnoc(c, l);
  }

  /** Page capacity and key structure: a layout has ceil(n / 30) pages; each page holds
      1 to 30 labels and five keys per label; every page but the last is full; the keys of
      a page are exactly the five suffixes at indices 1..(its label count). */
  lemma LayoutShape(labels: seq<Label>)
    ensures |Layout(labels)| == (|labels| + ItemsPerPage - 1) / ItemsPerPage
    ensures forall i :: 0 <= i < |Layout(labels)| ==>
      |Layout(labels)[i]| % KeysPerLabel == 0 &&
      KeysPerLabel <= |Layout(labels)[i]| <= KeysPerLabel * ItemsPerPage
    ensures forall i :: 0 <= i < |Layout(labels)| - 1 ==>
      |Layout(labels)[i]| == KeysPerLabel * ItemsPerPage
    ensures forall i, j: nat, s :: 0 <= i < |Layout(labels)| && s in Suffixes ==>
      (Key(j, s) in KeysOf(Layout(labels)[i]) <==> 1 <= j <= |Layout(labels)[i]| / KeysPerLabel)
  {
    var c := Chunks(labels, ItemsPerPage);
    ChunksShape(labels, ItemsPerPage);
    forall i | 0 <= i < |c| ensures |Layout(labels)[i]| == KeysPerLabel * |c[i]| {
      KeyedPageSize(c[i]);
    }
    forall i, j: nat, s | 0 <= i < |c| && s in Suffixes
      ensures Key(j, s) in KeysOf(Layout(labels)[i]) <==> 1 <= j <= |Layout(labels)[i]| / KeysPerLabel
    {
      assert |Layout(labels)[i]| / KeysPerLabel == |c[i]|;
      if 1 <= j <= |c[i]| {
        KeyPresent(c[i], j, s);
      }
      if Key(j, s) in KeysOf(KeyedPage(c[i])) {
        KeyIndexInRange(c[i], j, s);
      }
    }
  }

  /** Label number j of page i stores the fields of label 30*i + j - 1 of the sequence. */
  lemma LayoutGet(labels: seq<Label>, i: nat, j: nat, s: string)
    requires i < |Layout(labels)| && 1 <= j <= |Layout(labels)[i]| / KeysPerLabel
    requires s in Suffixes
    ensures ItemsPerPage * i + j - 1 < |labels|
    ensures Get(Layout(labels)[i], Key(j, s)) == Field(labels[ItemsPerPage * i + j - 1], s)
  {
    var c := Chunks(labels, ItemsPerPage);
    KeyedPageSize(c[i]);
    ChunkAt(labels, ItemsPerPage, i);
    GetKeyed(c[i], j, s);
  }

  /** Label g of the sequence is label g % 30 + 1 of page g / 30. */
  lemma LayoutFind(labels: seq<Label>, g: nat, s: string)
    requires g < |labels| && s in Suffixes
    ensures g / ItemsPerPage < |Layout(labels)|
    ensures g % ItemsPerPage + 1 <= |Layout(labels)[g / ItemsPerPage]| / KeysPerLabel
    ensures Get(Layout(labels)[g / ItemsPerPage], Key(g % ItemsPerPage + 1, s)) == Field(labels[g], s)
  {
    var c := Chunks(labels, ItemsPerPage);
    var i, j := g / ItemsPerPage, g % ItemsPerPage + 1;
    ChunksShape(labels, ItemsPerPage);
    DivUnique(|labels| + ItemsPerPage - 1, ItemsPerPage, (|labels| - 1) / ItemsPerPage + 1,
      (|labels| - 1) % ItemsPerPage);
    assert i < |c|;
    ChunkAt(labels, ItemsPerPage, i);
    KeyedPageSize(c[i]);
    assert j <= |c[i]|;
    LayoutGet(labels, i, j, s);
  }

  /** Adding labels after `a` never removes or rewrites a label already on a page. */
  lemma LayoutExtend(a: seq<Label>, b: seq<Label>, i: nat, j: nat, s: string)
    requires i < |Layout(a)| && 1 <= j <= |Layout(a)[i]| / KeysPerLabel && s in Suffixes
    ensures i < |Layout(a + b)| && j <= |Layout(a + b)[i]| / KeysPerLabel
    ensures Get(Layout(a + b)[i], Key(j, s)) == Get(Layout(a)[i], Key(j, s))
  {
    LayoutShape(a);
    LayoutGet(a, i, j, s);
    var g := ItemsPerPage * i + j - 1;
    assert g / ItemsPerPage == i && g % ItemsPerPage + 1 == j;
    assert (a + b)[g] == a[g];
    LayoutFind(a + b, g, s);
  }
}
