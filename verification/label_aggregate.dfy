/** `aggregateProducts`: the order's pages folded back into one row per dealer id with a
    count, as the order table shows it. */
module LabelAggregate {
  import opened Wrappers
  import opened Text
  import opened LabelPages
  import opened LabelOrder

  /** One row of the aggregated order. */
  datatype Aggregated = Aggregated(name: string, location: string, brand: string,
                                   price: string, dealerId: string, count: nat)

  /** `key.match(/^[^a-zA-Z]+/)[0]`; `None` where the match is null and indexing it throws a
      TypeError. */
  function PrefixOf(key: string): (r: Option<string>)
    ensures r.Some? <==> |key| > 0 && !IsAsciiLetter(key[0])
    ensures r.Some? ==> r.value == LeadingNonLetters(key) && r.value <= key
  {
    var p := LeadingNonLetters(key);
    if p == [] then None else Some(p)
  }

  /** `Array.from(new Set(keys.map(prefixOf)))` continued from the prefixes `seen` so far:
      the distinct prefixes in order of first occurrence, or `None` when a key has none. */
  function PrefixesFrom(seen: seq<string>, keys: seq<string>): Option<seq<string>>
    decreases |keys|
  {
    if keys == [] then Some(seen)
    else match PrefixOf(keys[0])
      case None => None
      case Some(p) => PrefixesFrom(if p in seen then seen else seen + [p], keys[1..])
  }

  /** The row a label opens the first time its dealer id is seen. */
  function RecordOf(l: Label, count: nat): Aggregated {
    Aggregated(l.title, l.free3, l.free1, l.free2, l.qrcode, count)
  }

  /** The body of `prefixes.forEach`: a label with a falsy (empty) dealer id is skipped; a
      dealer id seen before gets one more count; a new one opens a row from this label. */
  function Visit(m: map<string, Aggregated>, page: Page, prefix: string): map<string, Aggregated> {
    var dealerId := Get(page, prefix + QrCode);
    if dealerId == "" then m
    else if dealerId in m then m[dealerId := m[dealerId].(count := m[dealerId].count + 1)]
    else m[dealerId := Aggregated(Get(page, prefix + Title), Get(page, prefix + Free3),
      Get(page, prefix + Free1), Get(page, prefix + Free2), dealerId, 1)]
  }

  function VisitAll(m: map<string, Aggregated>, page: Page, prefixes: seq<string>): map<string, Aggregated>
    decreases |prefixes|
  {
    if prefixes == [] then m else VisitAll(Visit(m, page, prefixes[0]), page, prefixes[1..])
  }

  /** `products.forEach(...)` continued from the rows `m`; `None` when a key throws. */
  function AggregateFrom(m: map<string, Aggregated>, pages: seq<Page>): Option<map<string, Aggregated>>
    decreases |pages|
  {
    if pages == [] then Some(m)
    else match PrefixesFrom([], KeysOf(pages[0]))
      case None => None
      case Some(ps) => AggregateFrom(VisitAll(m, pages[0], ps), pages[1..])
  }

  /** The distinct label prefixes of one page, in order of first occurrence. The source maps
      every key before building the set; a missing match throws either way, so checking
      each key as it is met gives the same outcome. */
  method UniquePrefixes(page: Page) returns (r: Option<seq<string>>)
    ensures r == PrefixesFrom([], KeysOf(page))
  {
    var keys := KeysOf(page);
    var seen: seq<string> := [];
    var j := 0;
    while j < |keys|
      invariant 0 <= j <= |keys|
      invariant PrefixesFrom(seen, keys[j..]) == PrefixesFrom([], keys)
    {
      assert keys[j..][1..] == keys[j + 1..];
      var prefix := LeadingNonLetters(keys[j]);
      if prefix == [] {
        return None;
      }
      if prefix !in seen {
        seen := seen + [prefix];
      }
      j := j + 1;
    }
    return Some(seen);
  }

  /** `aggregateProducts(products)`, with the rows keyed by dealer id. */
  method AggregateProducts(products: seq<Page>) returns (r: Option<map<string, Aggregated>>)
    ensures r == AggregateFrom(map[], products)
  {
    var productMap: map<string, Aggregated> := map[];
    var i := 0;
    while i < |products|
      invariant 0 <= i <= |products|
      invariant AggregateFrom(productMap, products[i..]) == AggregateFrom(map[], products)
    {
      var page := products[i];
      assert products[i..][1..] == products[i + 1..];
      var prefixes := UniquePrefixes(page);
      if prefixes.None? {
        return None;
      }
      var ps := prefixes.value;
      ghost var before := productMap;
      var j := 0;
      while j < |ps|
        invariant 0 <= j <= |ps|
        invariant VisitAll(productMap, page, ps[j..]) == VisitAll(before, page, ps)
      {
        assert ps[j..][1..] == ps[j + 1..];
        var prefix := ps[j];
        ghost var m0 := productMap;
        var dealerId := Get(page, prefix + QrCode);
        if dealerId != "" {
          if dealerId !in productMap {
            productMap := productMap[dealerId := Aggregated(Get(page, prefix + Title),
              Get(page, prefix + Free3), Get(page, prefix + Free1), Get(page, prefix + Free2),
              dealerId, 0)];
          }
          productMap := productMap[dealerId := productMap[dealerId].(count := productMap[dealerId].count + 1)];
        }
        assert productMap == Visit(m0, page, prefix);
        j := j + 1;
      }
      i := i + 1;
    }
    return Some(productMap);
  }

  // The same fold over the labels themselves, and what it computes.

  function TallyOne(m: map<string, Aggregated>, l: Label): map<string, Aggregated> {
    if l.qrcode == "" then m
    else if l.qrcode in m then m[l.qrcode := m[l.qrcode].(count := m[l.qrcode].count + 1)]
    else m[l.qrcode := RecordOf(l, 1)]
  }

  function Tally(m: map<string, Aggregated>, labels: seq<Label>): map<string, Aggregated>
    decreases |labels|
  {
    if labels == [] then m else Tally(TallyOne(m, labels[0]), labels[1..])
  }

  predicate HasId(labels: seq<Label>, id: string) {
    exists j :: 0 <= j < |labels| && labels[j].qrcode == id
  }

  /** How many labels carry the dealer id. */
  function Occurrences(labels: seq<Label>, id: string): nat
    decreases |labels|
  {
    if labels == [] then 0
    else (if labels[0].qrcode == id then 1 else 0) + Occurrences(labels[1..], id)
  }

  /** The position of the first label with the dealer id. */
  function FirstWith(labels: seq<Label>, id: string): (j: nat)
    requires HasId(labels, id)
    ensures j < |labels| && labels[j].qrcode == id
    ensures forall i :: 0 <= i < j ==> labels[i].qrcode != id
    decreases |labels|
  {
    if labels[0].qrcode == id then 0
    else
      assert HasId(labels[1..], id) by {
        var j :| 0 <= j < |labels| && labels[j].qrcode == id;
        assert labels[1..][j - 1] == labels[j];
      }
      1 + FirstWith(labels[1..], id)
  }

  /** What the fold does to one dealer id: a row exists exactly for the ids already there
      and the non-empty ids of the labels; an existing row gains one count per label; a new
      row takes its fields from the first label with the id and counts all of them. */
  lemma {:induction false} TallyAt(m: map<string, Aggregated>, labels: seq<Label>, id: string)
    requires "" !in m
    ensures "" !in Tally(m, labels)
    ensures id in Tally(m, labels) <==> id in m || (id != "" && HasId(labels, id))
    ensures id in m ==>
      Tally(m, labels)[id] == m[id].(count := m[id].count + Occurrences(labels, id))
    ensures id !in m && id != "" && HasId(labels, id) ==>
      Tally(m, labels)[id] == RecordOf(labels[FirstWith(labels, id)], Occurrences(labels, id))
    decreases |labels|
  {
    if labels != [] {
      var l, rest := labels[0], labels[1..];
      var m' := TallyOne(m, l);
      TallyAt(m', rest, id);
      assert HasId(labels, id) <==> l.qrcode == id || HasId(rest, id) by {
        if HasId(rest, id) {
          var j :| 0 <= j < |rest| && rest[j].qrcode == id;
          assert labels[j + 1] == rest[j];
        }
        if HasId(labels, id) && l.qrcode != id {
          var j :| 0 <= j < |labels| && labels[j].qrcode == id;
          assert rest[j - 1] == labels[j];
        }
      }
      if id !in m && id != "" && HasId(labels, id) && l.qrcode != id {
        assert FirstWith(labels, id) == 1 + FirstWith(rest, id);
      }
    }
  }

  lemma {:induction false} TallyAppend(m: map<string, Aggregated>, a: seq<Label>, b: seq<Label>)
    ensures Tally(m, a + b) == Tally(Tally(m, a), b)
    decreases |a|
  {
    if a != [] {
      assert (a + b)[1..] == a[1..] + b;
      TallyAppend(TallyOne(m, a[0]), a[1..], b);
    } else {
      assert a + b == b;
    }
  }

  // The keyed pages of the order read back as their labels.

  /** The prefixes of labels 1..n: "1", "2", ..., n in decimal. */
  function Indices(n: nat): (r: seq<string>)
    ensures |r| == n
  {
    seq(n, i requires 0 <= i => NatToString(i + 1))
  }

  lemma PrefixOfKey(i: nat, s: string)
    requires StartsWithLetter(s)
    ensures PrefixOf(Key(i, s)) == Some(NatToString(i))
  {
    LeadingNonLettersOfKey(NatToString(i), s);
  }

  lemma {:induction false} PrefixesAppend(seen: seq<string>, a: seq<string>, b: seq<string>)
    ensures PrefixesFrom(seen, a + b) ==
      match PrefixesFrom(seen, a)
      case None => None
      case Some(s) => PrefixesFrom(s, b)
    decreases |a|
  {
    if a != [] {
      assert (a + b)[1..] == a[1..] + b;
      assert (a + b)[0] == a[0];
      match PrefixOf(a[0])
      case None =>
      case Some(p) =>
        PrefixesAppend(if p in seen then seen else seen + [p], a[1..], b);
    } else {
      assert a + b == b;
    }
  }

  /** Keys that all have a prefix already seen add nothing. */
  lemma {:induction false} PrefixesSeen(seen: seq<string>, keys: seq<string>, d: string)
    requires d in seen
    requires forall k :: k in keys ==> PrefixOf(k) == Some(d)
    ensures PrefixesFrom(seen, keys) == Some(seen)
    decreases |keys|
  {
    if keys != [] {
      assert keys[0] in keys;
      assert forall k :: k in keys[1..] ==> k in keys;
      PrefixesSeen(seen, keys[1..], d);
    }
  }

  /** The five keys of label i add its prefix. */
  lemma LabelPrefixes(seen: seq<string>, i: nat, l: Label)
    requires NatToString(i) !in seen
    ensures PrefixesFrom(seen, KeysOf(LabelEntries(i, l))) == Some(seen + [NatToString(i)])
  {
    var ks := KeysOf(LabelEntries(i, l));
    var d := NatToString(i);
    forall t | 0 <= t < 5 ensures PrefixOf(ks[t]) == Some(d) {
      assert ks[t] == Key(i, Suffixes[t]);
      assert StartsWithLetter(Suffixes[t]);
      PrefixOfKey(i, Suffixes[t]);
    }
    forall k | k in ks[1..] ensures PrefixOf(k) == Some(d) {
      var t :| 0 <= t < 4 && ks[1..][t] == k;
      assert k == ks[t + 1];
    }
    PrefixesSeen(seen + [d], ks[1..], d);
  }

  /** The prefix of label n is new after those of labels 1..n-1. */
  lemma IndicesSnoc(n: nat)
    requires n > 0
    ensures NatToString(n) !in Indices(n - 1)
    ensures Indices(n) == Indices(n - 1) + [NatToString(n)]
  {
    if NatToString(n) in Indices(n - 1) {
      var j :| 0 <= j < n - 1 && Indices(n - 1)[j] == NatToString(n);
      NatToStringInjective(j + 1, n);
    }
  }

  /** The distinct prefixes of a keyed page of n labels are "1", ..., n in order. */
  lemma {:induction false} KeyedPagePrefixes(labels: seq<Label>)
    ensures PrefixesFrom([], KeysOf(KeyedPage(labels))) == Some(Indices(|labels|))
    decreases |labels|
  {
    var n := |labels|;
    if n > 0 {
      var init, l := labels[..n - 1], labels[n - 1];
      var p, e := KeyedPage(init), LabelEntries(n, l);
      assert KeyedPage(labels) == p + e;
      KeyedPagePrefixes(init);
      KeysOfAppend(p, e);
      PrefixesAppend([], KeysOf(p), KeysOf(e));
      IndicesSnoc(n);
      LabelPrefixes(Indices(n - 1), n, l);
    } else {
      assert KeysOf(KeyedPage(labels)) == [];
    }
  }

  /** Visiting label j's prefix on a keyed page tallies label j. */
  lemma VisitKeyed(m: map<string, Aggregated>, labels: seq<Label>, j: nat)
    requires 1 <= j <= |labels|
    ensures Visit(m, KeyedPage(labels), NatToString(j)) == TallyOne(m, labels[j - 1])
  {
    ReadKeyed(labels, j);
  }

  lemma {:induction false} VisitAllKeyed(m: map<string, Aggregated>, labels: seq<Label>, a: nat)
    requires a <= |labels|
    ensures VisitAll(m, KeyedPage(labels), Indices(|labels|)[a..]) == Tally(m, labels[a..])
    decreases |labels| - a
  {
    if a < |labels| {
      var ps := Indices(|labels|)[a..];
      assert ps[0] == NatToString(a + 1);
      assert ps[1..] == Indices(|labels|)[a + 1..];
      assert labels[a..][1..] == labels[a + 1..];
      VisitKeyed(m, labels, a + 1);
      VisitAllKeyed(TallyOne(m, labels[a]), labels, a + 1);
    }
  }

  /** Aggregating keyed pages tallies their labels, page after page. */
  lemma {:induction false} AggregateKeyed(m: map<string, Aggregated>, pages: seq<Page>, cs: seq<seq<Label>>)
    requires |pages| == |cs| && forall i :: 0 <= i < |cs| ==> pages[i] == KeyedPage(cs[i])
    ensures AggregateFrom(m, pages) == Some(Tally(m, Flatten(cs)))
    decreases |cs|
  {
    if cs != [] {
      KeyedPagePrefixes(cs[0]);
      VisitAllKeyed(m, cs[0], 0);
      assert Indices(|cs[0]|)[0..] == Indices(|cs[0]|) && cs[0][0..] == cs[0];
      AggregateKeyed(VisitAll(m, pages[0], Indices(|cs[0]|)), pages[1..], cs[1..]);
      TallyAppend(m, cs[0], Flatten(cs[1..]));
    }
  }

  /** The aggregate of the order's pages never throws and is the tally of its labels. */
  lemma AggregateLayout(labels: seq<Label>)
    ensures AggregateFrom(map[], Layout(labels)) == Some(Tally(map[], labels))
  {
    var cs := Chunks(labels, ItemsPerPage);
    AggregateKeyed(map[], Layout(labels), cs);
    ChunksFlatten(labels, ItemsPerPage);
  }

  /** On the order's pages the aggregate has one row per distinct non-empty dealer id; its
      count is the number of labels with that id and its other fields come from the first
      of them. */
  lemma AggregateOrder(labels: seq<Label>, id: string)
    ensures var r := AggregateFrom(map[], Layout(labels));
      r.Some? &&
      (id in r.value <==> id != "" && HasId(labels, id)) &&
      (id in r.value ==> r.value[id] == RecordOf(labels[FirstWith(labels, id)], Occurrences(labels, id)))
  {
    AggregateLayout(labels);
    TallyAt(map[], labels, id);
  }

  /** A page key the regex cannot match makes `aggregateProducts` throw, and only then. */
  lemma {:induction false} AggregateThrows(m: map<string, Aggregated>, pages: seq<Page>)
    ensures AggregateFrom(m, pages).None? <==>
      exists i, k :: 0 <= i < |pages| && k in KeysOf(pages[i]) && PrefixOf(k).None?
    decreases |pages|
  {
    if pages != [] {
      PrefixesThrow([], KeysOf(pages[0]));
      match PrefixesFrom([], KeysOf(pages[0]))
      case None =>
        var k :| k in KeysOf(pages[0]) && PrefixOf(k).None?;
        assert 0 < |pages| && k in KeysOf(pages[0]) && PrefixOf(k).None?;
      case Some(ps) =>
        AggregateThrows(VisitAll(m, pages[0], ps), pages[1..]);
        if exists i, k :: 0 <= i < |pages| && k in KeysOf(pages[i]) && PrefixOf(k).None? {
          var i, k :| 0 <= i < |pages| && k in KeysOf(pages[i]) && PrefixOf(k).None?;
          assert i > 0;
          assert k in KeysOf(pages[1..][i - 1]);
        }
        if exists i, k :: 0 <= i < |pages[1..]| && k in KeysOf(pages[1..][i]) && PrefixOf(k).None? {
          var i, k :| 0 <= i < |pages[1..]| && k in KeysOf(pages[1..][i]) && PrefixOf(k).None?;
          assert k in KeysOf(pages[i + 1]);
        }
    }
  }

  lemma {:induction false} PrefixesThrow(seen: seq<string>, keys: seq<string>)
    ensures PrefixesFrom(seen, keys).None? <==> exists k :: k in keys && PrefixOf(k).None?
    decreases |keys|
  {
    if keys != [] {
      assert keys[0] in keys;
      match PrefixOf(keys[0])
      case None =>
      case Some(p) =>
        PrefixesThrow(if p in seen then seen else seen + [p], keys[1..]);
        assert forall k :: k in keys ==> k == keys[0] || k in keys[1..];
        assert forall k :: k in keys[1..] ==> k in keys;
    }
  }

  lemma {:induction false} OccurrencesRepeat(l: Label, n: nat)
    ensures Occurrences(Repeat(l, n), l.qrcode) == n
    decreases n
  {
    if n > 0 {
      assert Repeat(l, n)[1..] == Repeat(l, n - 1);
      OccurrencesRepeat(l, n - 1);
    }
  }

  /** Ordering q > 0 units of one product with a dealer id on an empty order shows one row:
      that product's fields with count q. */
  lemma OneProductOrder(p: Product, q: nat)
    requires q > 0 && p.dealerId != ""
    ensures AggregateFrom(map[], Layout([] + Repeat(LabelOf(p), q)))
      == Some(map[p.dealerId := RecordOf(LabelOf(p), q)])
  {
    var labels := [] + Repeat(LabelOf(p), q);
    var want := map[p.dealerId := RecordOf(LabelOf(p), q)];
    AggregateLayout(labels);
    var r := Tally(map[], labels);
    forall id ensures id in r <==> id in want {
      TallyAt(map[], labels, id);
      assert labels[0].qrcode == p.dealerId;
    }
    TallyAt(map[], labels, p.dealerId);
    assert FirstWith(labels, p.dealerId) < |labels|;
    OccurrencesRepeat(LabelOf(p), q);
    assert labels == Repeat(LabelOf(p), q);
    assert r == want;
  }
}
