/**
 Verified advisory catalogs keyed by CVE and product identity (cve_advisory_catalog.py).
 Field values come in normalized; `Malformed` is a value the normalizers reject.
 */
module AdvisoryCatalog {
  import opened Wrappers
  import opened StableSort
  import TextOrder
  import VersionRange

  datatype Text = Missing | Malformed | Text(value: string)

  datatype RawEntry = RawEntry(
    cve: Text, vendor: Text, product: Text, ecosystem: Text, package: Text,
    ranges: Option<seq<string>>) // `None` when the list is absent, empty, too long or holds a malformed range

  datatype Identity = Cpe(vendor: string, product: string) | Package(ecosystem: string, name: string)

  datatype Entry = Entry(cve: string, identity: Identity, ranges: seq<string>, authoritative: bool)

  datatype Key = Key(cve: string, identity: Identity)

  datatype Catalog = Catalog(
    schemaKnown: bool,
    name: string,
    authority: string,
    verified: bool,
    digest: string,
    entries: seq<Entry>)

  const MAX_ENTRIES := 20000

  function KeyOf(e: Entry): Key {
    Key(e.cve, e.identity)
  }

  // ---------------------------------------------------------------- building a catalog

  /** One entry; `None` stands for every error it can raise. */
  function ParseEntry(raw: RawEntry, verified: bool): Option<Entry> {
    if !raw.cve.Text? || raw.vendor.Malformed? || raw.product.Malformed?
       || raw.ecosystem.Malformed? || raw.package.Malformed? then None
    else if raw.vendor.Missing? != raw.product.Missing? || raw.ecosystem.Missing? != raw.package.Missing? then None
    else if raw.vendor.Text? == raw.ecosystem.Text? then None // exactly one identity kind
    else if raw.ranges == None then None
    else
      var identity := if raw.vendor.Text? then Cpe(raw.vendor.value, raw.product.value)
                      else Package(raw.ecosystem.value, raw.package.value);
      Some(Entry(raw.cve.value, identity, VersionRange.Distinct(raw.ranges.value), verified))
  }

  /** All entries in document order, if every one of them is well formed. */
  function ParseAll(raw: seq<RawEntry>, verified: bool): Option<seq<Entry>> {
    if raw == [] then Some([])
    else
      match (ParseAll(raw[..|raw| - 1], verified), ParseEntry(raw[|raw| - 1], verified))
      case (Some(before), Some(e)) => Some(before + [e])
      case _ => None
  }

  /** No key comes with two different entries. */
  ghost predicate ConflictFree(entries: seq<Entry>) {
    forall a, b | a in entries && b in entries && KeyOf(a) == KeyOf(b) :: a == b
  }

  ghost predicate Acceptable(raw: seq<RawEntry>, declared: Option<int>, verified: bool) {
    && |raw| <= MAX_ENTRIES
    && (declared == None || declared.value == |raw|)
    && ParseAll(raw, verified).Some?
    && ConflictFree(ParseAll(raw, verified).value)
  }

  ghost predicate DistinctKeys(entries: seq<Entry>) {
    forall i, j | 0 <= i < j < |entries| :: KeyOf(entries[i]) != KeyOf(entries[j])
  }

  ghost predicate SameMembers(a: seq<Entry>, b: seq<Entry>) {
    forall e :: e in a <==> e in b
  }

  /** `(cve, kind, vendor or ecosystem, product or name)`; the kind "cpe" comes before "package". */
  function SortKey(e: Entry): (string, int, string, string) {
    match e.identity
    case Cpe(v, p) => (e.cve, 0, v, p)
    case Package(s, n) => (e.cve, 1, s, n)
  }

  predicate ByKey(a: Entry, b: Entry) {
    var x, y := SortKey(a), SortKey(b);
    if x.0 != y.0 then TextOrder.Leq(x.0, y.0)
    else if x.1 != y.1 then x.1 < y.1
    else if x.2 != y.2 then TextOrder.Leq(x.2, y.2)
    else TextOrder.Leq(x.3, y.3)
  }

  lemma ByKeyOrder()
    ensures TotalPreorder(ByKey)
  {
    forall a: Entry, b: Entry ensures ByKey(a, b) || ByKey(b, a) {
      var x, y := SortKey(a), SortKey(b);
      TextOrder.Total(x.0, y.0);
      TextOrder.Total(x.2, y.2);
      TextOrder.Total(x.3, y.3);
    }
    forall a: Entry, b: Entry, c: Entry | ByKey(a, b) && ByKey(b, c) ensures ByKey(a, c) {
      var x, y, z := SortKey(a), SortKey(b), SortKey(c);
      LeqChain(x.0, y.0, z.0);
      LeqChain(x.2, y.2, z.2);
      LeqChain(x.3, y.3, z.3);
    }
  }

  lemma LeqChain(a: string, b: string, c: string)
    ensures TextOrder.Leq(a, b) && TextOrder.Leq(b, c) ==> TextOrder.Leq(a, c)
    ensures TextOrder.Leq(a, b) && TextOrder.Leq(b, a) ==> a == b
    ensures TextOrder.Leq(b, c) && TextOrder.Leq(c, b) ==> b == c
  {
    if TextOrder.Leq(a, b) && TextOrder.Leq(b, c) { TextOrder.Transitive(a, b, c); }
    if TextOrder.Leq(a, b) && TextOrder.Leq(b, a) { TextOrder.Antisymmetric(a, b); }
    if TextOrder.Leq(b, c) && TextOrder.Leq(c, b) { TextOrder.Antisymmetric(b, c); }
  }

  /** What filing under keys has kept of the entries read so far. */
  ghost predicate Filed(byKey: map<Key, Entry>, order: seq<Entry>, read: seq<Entry>) {
    && ConflictFree(read) && SameMembers(order, read) && DistinctKeys(order)
    && (forall e | e in order :: KeyOf(e) in byKey)
    && (forall k | k in byKey :: byKey[k] in order && KeyOf(byKey[k]) == k)
  }

  lemma FileConflict(byKey: map<Key, Entry>, order: seq<Entry>, read: seq<Entry>, e: Entry)
    requires Filed(byKey, order, read) && KeyOf(e) in byKey && byKey[KeyOf(e)] != e
    ensures forall all | read + [e] <= all :: !ConflictFree(all)
  {
    var x := byKey[KeyOf(e)];
    forall all | read + [e] <= all ensures !ConflictFree(all) {
      var i :| 0 <= i < |read| && read[i] == x;
      assert all[i] == (read + [e])[i] && all[|read|] == (read + [e])[|read|];
    }
  }

  lemma FileNew(byKey: map<Key, Entry>, order: seq<Entry>, read: seq<Entry>, e: Entry)
    requires Filed(byKey, order, read) && KeyOf(e) !in byKey
    ensures Filed(byKey[KeyOf(e) := e], order + [e], read + [e])
  {
    assert forall x | x in read :: x in order;
  }

  lemma {:induction false} ParsePrefix(raw: seq<RawEntry>, verified: bool, n: nat)
    requires n <= |raw| && ParseAll(raw, verified).Some?
    ensures ParseAll(raw[..n], verified).Some? && ParseAll(raw[..n], verified).value <= ParseAll(raw, verified).value
  {
    if n < |raw| {
      ParsePrefix(raw[..|raw| - 1], verified, n);
      assert raw[..|raw| - 1][..n] == raw[..n];
    } else {
      assert raw[..n] == raw;
    }
  }

  /** The entries `build_cve_advisory_catalog` returns; `None` stands for `CveAdvisoryCatalogError`. */
  method BuildEntries(raw: seq<RawEntry>, declared: Option<int>, verified: bool) returns (result: Option<seq<Entry>>)
    ensures result.Some? <==> Acceptable(raw, declared, verified)
    ensures result.Some? ==>
      && SameMembers(result.value, ParseAll(raw, verified).value)
      && DistinctKeys(result.value)
      && Ordered(result.value, ByKey)
  {
    if |raw| > MAX_ENTRIES || (declared.Some? && declared.value != |raw|) { return None; }
    var byKey: map<Key, Entry> := map[];
    var order: seq<Entry> := [];
    ghost var read: seq<Entry> := [];
    for n := 0 to |raw|
      invariant ParseAll(raw[..n], verified) == Some(read)
      invariant Filed(byKey, order, read)
    {
      assert raw[..n + 1][..n] == raw[..n];
      if ParseAll(raw, verified).Some? { ParsePrefix(raw, verified, n + 1); }
      var parsed := ParseEntry(raw[n], verified);
      if parsed == None { return None; }
      var e := parsed.value;
      if KeyOf(e) in byKey && byKey[KeyOf(e)] != e {
        FileConflict(byKey, order, read, e);
        return None;
      }
      if KeyOf(e) in byKey {
      } else {
        FileNew(byKey, order, read, e);
        byKey := byKey[KeyOf(e) := e];
        order := order + [e];
      }
      read := read + [e];
    }
    assert raw[..|raw|] == raw;
    SortedEntries(order);
    return Some(Sort(order, ByKey));
  }

  lemma SortedEntries(order: seq<Entry>)
    requires DistinctKeys(order)
    ensures var r := Sort(order, ByKey); SameMembers(r, order) && DistinctKeys(r) && Ordered(r, ByKey)
  {
    var r := Sort(order, ByKey);
    ByKeyOrder();
    SortOrders(order, ByKey);
    SortKeepsMembers(order, ByKey);
    SortPermutes(order, ByKey);
    forall i, j | 0 <= i < j < |r| ensures KeyOf(r[i]) != KeyOf(r[j]) {
      TwiceInside(r, i, j);
      AtMostOnce(order, r[i]);
      assert r[i] in order && r[j] in order;
    }
  }

  lemma TwiceInside(r: seq<Entry>, i: nat, j: nat)
    requires i < j < |r|
    ensures r[i] == r[j] ==> multiset(r)[r[i]] >= 2
  {
    assert r == r[..j] + r[j..];
    assert r[..j][i] == r[i] && r[j..][0] == r[j];
    assert r[i] in multiset(r[..j]) && r[j] in multiset(r[j..]);
  }

  lemma {:induction false} AtMostOnce(s: seq<Entry>, x: Entry)
    requires DistinctKeys(s)
    ensures multiset(s)[x] <= 1
  {
    if s != [] {
      AtMostOnce(s[1..], x);
      assert s == [s[0]] + s[1..];
      if s[0] == x {
        assert x !in s[1..];
        assert x !in multiset(s[1..]);
      }
    }
  }

  // ---------------------------------------------------------------- finding advisories

  datatype Product = Product(vendor: Text, product: Text, ecosystem: Text, package: Text)

  predicate Lists(e: Entry, cve: string, p: Product) {
    && e.authoritative
    && e.cve == cve
    && match e.identity
       case Cpe(v, n) => p.vendor == Text(v) && p.product == Text(n)
       case Package(s, n) => p.ecosystem == Text(s) && p.package == Text(n)
  }

  predicate Searchable(c: Catalog, p: Product) {
    && c.schemaKnown && c.verified
    && !p.vendor.Malformed? && !p.product.Malformed? && !p.ecosystem.Malformed? && !p.package.Malformed?
    && p.vendor.Missing? == p.product.Missing? && p.ecosystem.Missing? == p.package.Missing?
  }

  function Matching(entries: seq<Entry>, cve: string, p: Product): seq<Entry> {
    if entries == [] then []
    else Matching(entries[..|entries| - 1], cve, p)
         + if Lists(entries[|entries| - 1], cve, p) then [entries[|entries| - 1]] else []
  }

  lemma {:induction false} MatchingExactly(entries: seq<Entry>, cve: string, p: Product)
    ensures forall e :: e in Matching(entries, cve, p) <==> e in entries && Lists(e, cve, p)
    ensures DistinctKeys(entries) ==> DistinctKeys(Matching(entries, cve, p))
  {
    if entries != [] {
      var n := |entries| - 1;
      assert entries == entries[..n] + [entries[n]];
      MatchingExactly(entries[..n], cve, p);
      if DistinctKeys(entries) {
        forall x | x in entries[..n] ensures KeyOf(x) != KeyOf(entries[n]) {}
      }
    }
  }

  /** `find_verified_cve_advisories`: the matches, CPE identities first. */
  method FindVerified(c: Catalog, cve: string, p: Product) returns (matches: seq<Entry>)
    ensures matches == Found(c, cve, p)
  {
    if !c.schemaKnown || !c.verified { return []; }
    if p.vendor.Malformed? || p.product.Malformed? || p.ecosystem.Malformed? || p.package.Malformed? { return []; }
    if p.vendor.Missing? != p.product.Missing? || p.ecosystem.Missing? != p.package.Missing? { return []; }
    matches := [];
    for i := 0 to |c.entries|
      invariant matches == Matching(c.entries[..i], cve, p)
    {
      assert c.entries[..i + 1][..i] == c.entries[..i];
      if Lists(c.entries[i], cve, p) { matches := matches + [c.entries[i]]; }
    }
    assert c.entries[..|c.entries|] == c.entries;
    matches := Sort(matches, ByKey);
  }

  function Found(c: Catalog, cve: string, p: Product): seq<Entry> {
    if !Searchable(c, p) then [] else Sort(Matching(c.entries, cve, p), ByKey)
  }

  lemma FoundExactly(c: Catalog, cve: string, p: Product)
    ensures forall e :: e in Found(c, cve, p) <==> Searchable(c, p) && e in c.entries && Lists(e, cve, p)
  {
    MatchingExactly(c.entries, cve, p);
    SortKeepsMembers(Matching(c.entries, cve, p), ByKey);
  }

  predicate CpeThenPackage(a: Entry, b: Entry) {
    a.identity.Cpe? && b.identity.Package?
  }

  ghost predicate CpeBeforePackage(r: seq<Entry>) {
    forall i, j | 0 <= i < j < |r| :: CpeThenPackage(r[i], r[j])
  }

  lemma PairAt(r: seq<Entry>, i: nat, j: nat)
    requires CpeBeforePackage(r) && i < j < |r|
    ensures CpeThenPackage(r[i], r[j])
  {
  }

  lemma AtMostTwo(r: seq<Entry>)
    requires CpeBeforePackage(r)
    ensures |r| <= 2
  {
    if |r| > 2 {
      PairAt(r, 0, 1);
      PairAt(r, 1, 2);
    }
  }

  /** A catalog with distinct keys yields at most one CPE and one package advisory for a product. */
  lemma AtMostOnePerKind(c: Catalog, cve: string, p: Product)
    requires DistinctKeys(c.entries)
    ensures |Found(c, cve, p)| <= 2 && CpeBeforePackage(Found(c, cve, p))
  {
    if Searchable(c, p) {
      MatchingExactly(c.entries, cve, p);
      SortedEntries(Matching(c.entries, cve, p));
      FoundExactly(c, cve, p);
      KindsOf(Found(c, cve, p), cve, p);
    }
  }

  lemma KindsOf(r: seq<Entry>, cve: string, p: Product)
    requires DistinctKeys(r) && Ordered(r, ByKey) && forall e | e in r :: Lists(e, cve, p)
    ensures CpeBeforePackage(r) && |r| <= 2
  {
    forall i, j | 0 <= i < j < |r| ensures CpeThenPackage(r[i], r[j]) {
      assert ByKey(r[i], r[j]);
      DifferentKinds(r[i], r[j], cve, p);
    }
    AtMostTwo(r);
  }

  lemma DifferentKinds(a: Entry, b: Entry, cve: string, p: Product)
    requires Lists(a, cve, p) && Lists(b, cve, p) && KeyOf(a) != KeyOf(b) && ByKey(a, b)
    ensures CpeThenPackage(a, b)
  {
  }
}
