/** The report cache of the web application: the staleness rule, the site map
    (every site crossed with every product), the per-(site, product) chart
    dataset, and the three request handlers that decide between serving a
    stored artifact and rebuilding it. Flask routing, JSON-to-HTML tables and
    the chart renderer's internals are outside the model; the renderer is a
    function parameter. */
module App {
  import opened Common
  import opened Seqs
  import opened Strings
  import opened Store

  /** Time to live of a chart and its dataset, and of the site map. */
  const ChartTtlMinutes := 5
  const SiteMapTtlMinutes := 9

  /** `static/charts/__site_products_map.json` */
  const SiteMapJson := ChartFile("__site_products_map.json")

  // ---------------------------------------------------------------------
  // Staleness

  /** `is_file_older_than_minutes`: a missing file is never old; an existing
      one is old when its age is strictly more than `minutes` minutes. */
  function IsFileOlderThanMinutes(fs: FileSystem, p: Path, now: int, minutes: int): (r: bool)
    ensures p !in fs ==> !r
    ensures p in fs ==> (r <==> now - fs[p].mtime > minutes * 60)
  {
    if p !in fs then false
    else
      var age := now - fs[p].mtime;
      age > minutes * 60
  }

  /** A file at exactly the threshold age is still fresh; one second later it
      is old; and once old, it stays old as time goes on. */
  lemma StalenessBoundary(fs: FileSystem, p: Path, now: int, later: int, minutes: int)
    requires p in fs
    ensures now - fs[p].mtime == minutes * 60 ==> !IsFileOlderThanMinutes(fs, p, now, minutes)
    ensures now - fs[p].mtime == minutes * 60 + 1 ==> IsFileOlderThanMinutes(fs, p, now, minutes)
    ensures now <= later && IsFileOlderThanMinutes(fs, p, now, minutes) ==> IsFileOlderThanMinutes(fs, p, later, minutes)
  {
  }

  /** The regeneration test both handlers apply: the artifact is missing or
      older than its time to live. */
  predicate MustRebuild(fs: FileSystem, p: Path, now: int, minutes: int) {
    p !in fs || IsFileOlderThanMinutes(fs, p, now, minutes)
  }

  // ---------------------------------------------------------------------
  // Site map: sorted distinct sites x sorted distinct products

  /** The buckets of one site, in the order of `products`. */
  function Row(site: string, products: seq<string>): (r: seq<Bucket>)
    ensures |r| == |products|
  {
    if products == [] then []
    else Row(site, products[..|products| - 1]) + [Bucket(site, products[|products| - 1])]
  }

  /** Every site paired with every product, site-major. */
  function Cross(sites: seq<string>, products: seq<string>): seq<Bucket> {
    if sites == [] then []
    else Cross(sites[..|sites| - 1], products) + Row(sites[|sites| - 1], products)
  }

  lemma {:induction false} RowMember(site: string, products: seq<string>, b: Bucket)
    ensures b in Row(site, products) <==> b.siteName == site && b.productName in products
  {
    if products != [] {
      var n := |products| - 1;
      RowMember(site, products[..n], b);
      assert products == products[..n] + [products[n]];
    }
  }

  /** A pair is in the cross product exactly when its site is one of the
      sites and its product one of the products. */
  lemma {:induction false} CrossMember(sites: seq<string>, products: seq<string>, b: Bucket)
    ensures b in Cross(sites, products) <==> b.siteName in sites && b.productName in products
  {
    if sites != [] {
      var n := |sites| - 1;
      CrossMember(sites[..n], products, b);
      RowMember(sites[n], products, b);
      assert sites == sites[..n] + [sites[n]];
    }
  }

  lemma {:induction false} CrossLength(sites: seq<string>, products: seq<string>)
    ensures |Cross(sites, products)| == |sites| * |products|
  {
    if sites != [] {
      var n := |sites| - 1;
      CrossLength(sites[..n], products);
      assert |Cross(sites, products)| == n * |products| + |products|;
    }
  }

  /** Site first, then product, both in Python's string order. */
  predicate BucketLess(a: Bucket, b: Bucket) {
    LexLess(a.siteName, b.siteName) || (a.siteName == b.siteName && LexLess(a.productName, b.productName))
  }

  ghost predicate BucketsSorted(s: seq<Bucket>) {
    forall i, j :: 0 <= i < j < |s| ==> BucketLess(s[i], s[j])
  }

  lemma BucketsSortedNoDup(s: seq<Bucket>)
    requires BucketsSorted(s)
    ensures NoDup(s)
  {
    forall i, j | 0 <= i < j < |s| ensures s[i] != s[j] {
      LexLessIrreflexive(s[i].siteName);
      LexLessIrreflexive(s[i].productName);
    }
  }

  lemma {:induction false} CrossSorted(sites: seq<string>, products: seq<string>)
    requires StrictlySorted(sites) && StrictlySorted(products)
    ensures BucketsSorted(Cross(sites, products))
  {
    if sites != [] {
      var n := |sites| - 1;
      var head, row := Cross(sites[..n], products), Row(sites[n], products);
      CrossSorted(sites[..n], products);
      assert BucketsSorted(row) by {
        forall i, j | 0 <= i < j < |row| ensures BucketLess(row[i], row[j]) {
          RowAt(sites[n], products, i);
          RowAt(sites[n], products, j);
        }
      }
      forall i, j | 0 <= i < |head| && 0 <= j < |row| ensures BucketLess(head[i], row[j]) {
        CrossMember(sites[..n], products, head[i]);
        RowAt(sites[n], products, j);
        var k :| 0 <= k < n && sites[..n][k] == head[i].siteName;
      }
      var c := head + row;
      forall i, j | 0 <= i < j < |c| ensures BucketLess(c[i], c[j]) {
        if j < |head| {
        } else if i < |head| {
          assert c[j] == row[j - |head|];
        } else {
          assert c[i] == row[i - |head|] && c[j] == row[j - |head|];
        }
      }
    }
  }

  lemma {:induction false} RowAt(site: string, products: seq<string>, j: nat)
    requires j < |products|
    ensures Row(site, products)[j] == Bucket(site, products[j])
  {
    if j < |products| - 1 {
      RowAt(site, products[..|products| - 1], j);
    }
  }

  /** The index of (sites[i], products[j]) in the cross product: site-major. */
  lemma {:induction false} CrossAt(sites: seq<string>, products: seq<string>, i: nat, j: nat)
    requires i < |sites| && j < |products|
    ensures i * |products| + j < |Cross(sites, products)|
    ensures Cross(sites, products)[i * |products| + j] == Bucket(sites[i], products[j])
  {
    var n := |sites| - 1;
    var head, row := Cross(sites[..n], products), Row(sites[n], products);
    assert Cross(sites, products) == head + row;
    CrossLength(sites[..n], products);
    if i < n {
      CrossAt(sites[..n], products, i, j);
    } else {
      RowAt(sites[n], products, j);
      assert i * |products| == |head|;
    }
  }

  /** The site names of the inventory, in inventory order. */
  function SiteNames(inv: seq<Device>): (r: seq<string>)
    ensures |r| == |inv|
  {
    seq(|inv|, i requires 0 <= i < |inv| => inv[i].siteName)
  }

  function ProductNames(inv: seq<Device>): (r: seq<string>)
    ensures |r| == |inv|
  {
    seq(|inv|, i requires 0 <= i < |inv| => inv[i].productName)
  }

  /** The site map built from an inventory. */
  function SiteMapOf(inv: seq<Device>): seq<Bucket> {
    Cross(SortDistinct(SiteNames(inv)), SortDistinct(ProductNames(inv)))
  }

  /** The map holds a pair exactly when some device has that site and some
      (possibly other) device has that product: pairs no device has are
      included. */
  lemma SiteMapMembership(inv: seq<Device>, b: Bucket)
    ensures b in SiteMapOf(inv) <==>
      (exists d :: d in inv && d.siteName == b.siteName) &&
      (exists d :: d in inv && d.productName == b.productName)
  {
    var sites, products := SiteNames(inv), ProductNames(inv);
    CrossMember(SortDistinct(sites), SortDistinct(products), b);
    if b.siteName in sites {
      var i :| 0 <= i < |inv| && sites[i] == b.siteName;
      assert inv[i] in inv;
    }
    if b.productName in products {
      var i :| 0 <= i < |inv| && products[i] == b.productName;
      assert inv[i] in inv;
    }
    if exists d :: d in inv && d.siteName == b.siteName {
      var d :| d in inv && d.siteName == b.siteName;
      var i :| 0 <= i < |inv| && inv[i] == d;
      assert sites[i] == b.siteName;
    }
    if exists d :: d in inv && d.productName == b.productName {
      var d :| d in inv && d.productName == b.productName;
      var i :| 0 <= i < |inv| && inv[i] == d;
      assert products[i] == b.productName;
    }
  }

  /** For any two devices, the site of one paired with the product of the
      other is in the map. */
  lemma SiteMapIncludesUnobservedPairs(inv: seq<Device>, d1: Device, d2: Device)
    requires d1 in inv && d2 in inv
    ensures Bucket(d1.siteName, d2.productName) in SiteMapOf(inv)
  {
    SiteMapMembership(inv, Bucket(d1.siteName, d2.productName));
  }

  /** The map is sorted site-major with no repeated pair, and has
      (number of distinct sites) x (number of distinct products) entries. */
  lemma SiteMapShape(inv: seq<Device>)
    ensures BucketsSorted(SiteMapOf(inv))
    ensures NoDup(SiteMapOf(inv))
    ensures |SiteMapOf(inv)| == |SortDistinct(SiteNames(inv))| * |SortDistinct(ProductNames(inv))|
  {
    CrossSorted(SortDistinct(SiteNames(inv)), SortDistinct(ProductNames(inv)));
    BucketsSortedNoDup(SiteMapOf(inv));
    CrossLength(SortDistinct(SiteNames(inv)), SortDistinct(ProductNames(inv)));
  }

  /** The loop that copies each record's site and product into two lists. */
  method CollectNames(inv: seq<Device>) returns (sites: seq<string>, products: seq<string>)
    ensures |sites| == |products| == |inv|
    ensures forall i :: 0 <= i < |inv| ==> sites[i] == inv[i].siteName && products[i] == inv[i].productName
  {
    sites, products := [], [];
    for i := 0 to |inv|
      invariant |sites| == |products| == i
      invariant forall k :: 0 <= k < i ==> sites[k] == inv[k].siteName && products[k] == inv[k].productName
    {
      sites := sites + [inv[i].siteName];
      products := products + [inv[i].productName];
    }
  }

  lemma RowStep(seen: seq<Bucket>, site: string, products: seq<string>, j: nat)
    requires j < |products|
    ensures seen + Row(site, products[..j + 1]) == seen + Row(site, products[..j]) + [Bucket(site, products[j])]
  {
    assert products[..j + 1][..j] == products[..j];
  }

  lemma CrossStep(sites: seq<string>, products: seq<string>, i: nat)
    requires i < |sites|
    ensures Cross(sites[..i + 1], products) == Cross(sites[..i], products) + Row(sites[i], products)
  {
    assert sites[..i + 1][..i] == sites[..i];
  }

  /** The inner loop: the pairs of one site, each appended unless it is
      already in the list. */
  method AddRow(list: seq<Bucket>, ghost seen: seq<Bucket>, site: string, products: seq<string>)
    returns (list': seq<Bucket>)
    requires list == Dedup(seen)
    ensures list' == Dedup(seen + Row(site, products))
  {
    list' := list;
    assert seen + Row(site, products[..0]) == seen;
    for j := 0 to |products|
      invariant list' == Dedup(seen + Row(site, products[..j]))
    {
      var k := Bucket(site, products[j]);
      RowStep(seen, site, products, j);
      DedupSnoc(seen + Row(site, products[..j]), k);
      if k !in list' {
        list' := list' + [k];
      }
    }
    assert products[..|products|] == products;
  }

  /** The nested loops that append each (site, product) pair unless it is
      already in the list. */
  method CrossProduct(sites: seq<string>, products: seq<string>) returns (list: seq<Bucket>)
    ensures list == Dedup(Cross(sites, products))
  {
    list := [];
    for i := 0 to |sites|
      invariant list == Dedup(Cross(sites[..i], products))
    {
      CrossStep(sites, products, i);
      list := AddRow(list, Cross(sites[..i], products), sites[i], products);
    }
    assert sites[..|sites|] == sites;
  }

  /** `create_chart_site_map`. Without `justMapList` it returns the stored
      map as it is and writes nothing; with it, it rebuilds the map from
      `devices.json`, stores it at `mapPath` and returns it. */
  method CreateChartSiteMap(fs: FileSystem, mapPath: Path, now: int, justMapList: bool)
    returns (r: Result<seq<Bucket>, IoError>, fs': FileSystem)
    ensures !justMapList ==> r == ReadSiteMap(fs, mapPath) && fs' == fs
    ensures justMapList && ReadInventory(fs).Failure? ==> r == Failure(ReadInventory(fs).error) && fs' == fs
    ensures justMapList && ReadInventory(fs).Success? ==>
      var m := SiteMapOf(ReadInventory(fs).value);
      r == Success(m) && fs' == fs[mapPath := File(SiteMap(m), now)]
  {
    if !justMapList {
      return ReadSiteMap(fs, mapPath), fs;
    }
    var servers := ReadInventory(fs);
    if servers.Failure? {
      return Failure(servers.error), fs;
    }
    var inv := servers.value;
    var sites, products := CollectNames(inv);
    assert sites == SiteNames(inv) && products == ProductNames(inv);
    var sortedSites, sortedProducts := SortDistinct(sites), SortDistinct(products);
    var list := CrossProduct(sortedSites, sortedProducts);
    SiteMapShape(inv);
    DedupOfDistinct(Cross(sortedSites, sortedProducts));
    r, fs' := Success(list), fs[mapPath := File(SiteMap(list), now)];
  }

  // ---------------------------------------------------------------------
  // Chart dataset for one (site, product) pair

  predicate InBucket(d: Device, site: string, product: string) {
    d.siteName == site && d.productName == product
  }

  /** The inventory records of one bucket, in inventory order. */
  function Matching(inv: seq<Device>, site: string, product: string): seq<Device> {
    if inv == [] then []
    else
      var d := inv[|inv| - 1];
      Matching(inv[..|inv| - 1], site, product) + (if InBucket(d, site, product) then [d] else [])
  }

  lemma {:induction false} MatchingMember(inv: seq<Device>, site: string, product: string, d: Device)
    ensures d in Matching(inv, site, product) <==> d in inv && InBucket(d, site, product)
  {
    if inv != [] {
      var n := |inv| - 1;
      MatchingMember(inv[..n], site, product, d);
      assert inv == inv[..n] + [inv[n]];
    }
  }

  lemma {:induction false} MatchingIsSubseq(inv: seq<Device>, site: string, product: string)
    ensures IsSubseq(Matching(inv, site, product), inv)
  {
    if inv != [] {
      var n := |inv| - 1;
      var head := Matching(inv[..n], site, product);
      MatchingIsSubseq(inv[..n], site, product);
      SubseqExtend(head, inv[..n], inv[n]);
      assert inv == inv[..n] + [inv[n]];
      if InBucket(inv[n], site, product) {
        assert Matching(inv, site, product) == head + [inv[n]];
      } else {
        assert Matching(inv, site, product) == head;
      }
    }
  }

  /** Reading one device's file for the chart: `{device_info.device_name:
      statistics}`. The file is looked up under the requested site; a missing
      file, a file that is not a JSON object, or a file without "device_info"
      raises. */
  function DeviceEntry(fs: FileSystem, site: string, d: Device): (r: Result<Entry, IoError>)
    ensures r.Success? <==> DevicePath(site, d.deviceName) in fs && fs[DevicePath(site, d.deviceName)].content.DeviceHistory?
    ensures r.Success? ==>
      r.value == Entry(fs[DevicePath(site, d.deviceName)].content.deviceInfo.deviceName,
                       fs[DevicePath(site, d.deviceName)].content.statistics)
    ensures DevicePath(site, d.deviceName) !in fs ==> r == Failure(NotFound(DevicePath(site, d.deviceName)))
    ensures DevicePath(site, d.deviceName) in fs && fs[DevicePath(site, d.deviceName)].content.DeviceStub? ==>
      r == Failure(MissingKey(DevicePath(site, d.deviceName), "device_info"))
    ensures r.Failure? && r.error.Malformed? ==> r.error.path == DevicePath(site, d.deviceName)
  {
    var p := DevicePath(site, d.deviceName);
    if p !in fs then Failure(NotFound(p))
    else match fs[p].content
      case DeviceHistory(info, stats) => Success(Entry(info.deviceName, stats))
      case DeviceStub(_) => Failure(MissingKey(p, "device_info"))
      case _ => Failure(Malformed(p))
  }

  /** The entries of the devices `ds`, in order, or the error of the first
      device whose file cannot be read. */
  function Entries(fs: FileSystem, site: string, ds: seq<Device>): Result<seq<Entry>, IoError> {
    if ds == [] then Success([])
    else match Entries(fs, site, ds[..|ds| - 1])
      case Failure(e) => Failure(e)
      case Success(es) =>
        match DeviceEntry(fs, site, ds[|ds| - 1])
        case Failure(e) => Failure(e)
        case Success(x) => Success(es + [x])
  }

  /** On success there is one entry per device, in the devices' order. */
  lemma {:induction false} EntriesSuccess(fs: FileSystem, site: string, ds: seq<Device>)
    requires Entries(fs, site, ds).Success?
    ensures |Entries(fs, site, ds).value| == |ds|
    ensures forall k :: 0 <= k < |ds| ==> DeviceEntry(fs, site, ds[k]) == Success(Entries(fs, site, ds).value[k])
  {
    if ds != [] {
      EntriesSuccess(fs, site, ds[..|ds| - 1]);
    }
  }

  /** On failure the error is that of the first device whose file cannot be
      read. */
  lemma {:induction false} EntriesFailure(fs: FileSystem, site: string, ds: seq<Device>) returns (k: nat)
    requires Entries(fs, site, ds).Failure?
    ensures k < |ds|
    ensures DeviceEntry(fs, site, ds[k]) == Failure(Entries(fs, site, ds).error)
    ensures forall m :: 0 <= m < k ==> DeviceEntry(fs, site, ds[m]).Success?
  {
    var n := |ds| - 1;
    var prev := Entries(fs, site, ds[..n]);
    if prev.Failure? {
      k := EntriesFailure(fs, site, ds[..n]);
      assert ds[..n][k] == ds[k];
      forall m | 0 <= m < k ensures DeviceEntry(fs, site, ds[m]).Success? {
        assert ds[..n][m] == ds[m];
      }
    } else {
      k := n;
      EntriesSuccess(fs, site, ds[..n]);
      forall m | 0 <= m < n ensures DeviceEntry(fs, site, ds[m]).Success? {
        assert ds[..n][m] == ds[m];
      }
    }
  }

  /** The dataset of one bucket: the entries of its devices in inventory
      order, exact duplicates dropped; or the first read error. */
  function Aggregated(fs: FileSystem, inv: seq<Device>, site: string, product: string): Result<seq<Entry>, IoError> {
    match Entries(fs, site, Matching(inv, site, product))
    case Success(es) => Success(Dedup(es))
    case Failure(e) => Failure(e)
  }

  /** A successful dataset holds exactly the entries read from the files of
      the bucket's devices (other devices contribute nothing), each once. */
  lemma AggregatedContents(fs: FileSystem, inv: seq<Device>, site: string, product: string, x: Entry)
    requires Aggregated(fs, inv, site, product).Success?
    ensures NoDup(Aggregated(fs, inv, site, product).value)
    ensures x in Aggregated(fs, inv, site, product).value <==>
      exists d :: d in inv && InBucket(d, site, product) && DeviceEntry(fs, site, d) == Success(x)
  {
    var ds := Matching(inv, site, product);
    var es := Entries(fs, site, ds).value;
    EntriesSuccess(fs, site, ds);
    if x in Dedup(es) {
      var k :| 0 <= k < |es| && es[k] == x;
      MatchingMember(inv, site, product, ds[k]);
    }
    if exists d :: d in inv && InBucket(d, site, product) && DeviceEntry(fs, site, d) == Success(x) {
      var d :| d in inv && InBucket(d, site, product) && DeviceEntry(fs, site, d) == Success(x);
      MatchingMember(inv, site, product, d);
      var k :| 0 <= k < |ds| && ds[k] == d;
      assert es[k] == x;
    }
  }

  /** The dataset keeps inventory order: when entry `i` comes before entry
      `j`, the first selected device yielding entry `i` comes before the first
      one yielding entry `j` (the `k`-th entry read is that of the `k`-th
      selected device, by `EntriesSuccess`). */
  lemma AggregatedOrder(fs: FileSystem, inv: seq<Device>, site: string, product: string, i: nat, j: nat)
    requires Aggregated(fs, inv, site, product).Success?
    requires i < j < |Aggregated(fs, inv, site, product).value|
    ensures var es := Entries(fs, site, Matching(inv, site, product)).value;
      var dataset := Aggregated(fs, inv, site, product).value;
      dataset[i] in es && dataset[j] in es &&
      FirstIndex(es, dataset[i]) < FirstIndex(es, dataset[j])
  {
    var es := Entries(fs, site, Matching(inv, site, product)).value;
    DedupKeepsFirstOccurrenceOrder(es, i, j);
  }

  /** The dataset fails exactly when some device of the bucket has a file
      that cannot be read; such a device aborts the request rather than being
      skipped. */
  lemma AggregatedFails(fs: FileSystem, inv: seq<Device>, site: string, product: string)
    ensures Aggregated(fs, inv, site, product).Failure? <==>
      exists d :: d in inv && InBucket(d, site, product) && DeviceEntry(fs, site, d).Failure?
  {
    var ds := Matching(inv, site, product);
    if Entries(fs, site, ds).Failure? {
      var k := EntriesFailure(fs, site, ds);
      MatchingMember(inv, site, product, ds[k]);
    } else {
      EntriesSuccess(fs, site, ds);
      forall d | d in inv && InBucket(d, site, product) ensures DeviceEntry(fs, site, d).Success? {
        MatchingMember(inv, site, product, d);
      }
    }
  }

  /** The loop over the inventory that reads each matching device's file and
      appends its entry unless an equal entry is already there. */
  method CollectSiteProductStats(fs: FileSystem, inv: seq<Device>, site: string, product: string)
    returns (r: Result<seq<Entry>, IoError>)
    ensures r == Aggregated(fs, inv, site, product)
  {
    var stats: seq<Entry> := [];
    var i := 0;
    while i < |inv|
      invariant 0 <= i <= |inv|
      invariant Entries(fs, site, Matching(inv[..i], site, product)).Success?
      invariant stats == Dedup(Entries(fs, site, Matching(inv[..i], site, product)).value)
    {
      var item := inv[i];
      assert inv[..i + 1][..i] == inv[..i];
      assert Matching(inv[..i + 1], site, product)
        == Matching(inv[..i], site, product) + (if InBucket(item, site, product) then [item] else []);
      ghost var matched := Matching(inv[..i], site, product);
      if item.siteName == site && item.productName == product {
        assert (matched + [item])[..|matched|] == matched;
        var entry := DeviceEntry(fs, site, item);
        if entry.Failure? {
          MatchingPrefix(fs, inv, site, product, i + 1);
          return Failure(entry.error);
        }
        ghost var before := Entries(fs, site, Matching(inv[..i], site, product)).value;
        assert (before + [entry.value])[..|before|] == before;
        if entry.value !in stats {
          stats := stats + [entry.value];
        }
      } else {
        assert matched + [] == matched;
      }
      i := i + 1;
    }
    assert inv[..i] == inv;
    r := Success(stats);
  }

  lemma {:induction false} MatchingAppend(a: seq<Device>, b: seq<Device>, site: string, product: string)
    ensures Matching(a + b, site, product) == Matching(a, site, product) + Matching(b, site, product)
  {
    if b != [] {
      var n := |b| - 1;
      MatchingAppend(a, b[..n], site, product);
      assert (a + b)[..|a + b| - 1] == a + b[..n];
      assert (a + b)[|a + b| - 1] == b[n];
      var tail := if InBucket(b[n], site, product) then [b[n]] else [];
      assert Matching(a + b, site, product) == Matching(a + b[..n], site, product) + tail;
      assert Matching(b, site, product) == Matching(b[..n], site, product) + tail;
    } else {
      assert a + b == a;
    }
  }

  lemma {:induction false} EntriesKeepFailure(fs: FileSystem, site: string, a: seq<Device>, b: seq<Device>)
    requires Entries(fs, site, a).Failure?
    ensures Entries(fs, site, a + b) == Entries(fs, site, a)
  {
    if b != [] {
      var n := |b| - 1;
      EntriesKeepFailure(fs, site, a, b[..n]);
      assert a + b != [];
      assert (a + b)[..|a + b| - 1] == a + b[..n];
    } else {
      assert a + b == a;
    }
  }

  /** Once the devices of a prefix of the inventory fail, the whole
      inventory fails with the same error. */
  lemma MatchingPrefix(fs: FileSystem, inv: seq<Device>, site: string, product: string, n: nat)
    requires n <= |inv|
    requires Entries(fs, site, Matching(inv[..n], site, product)).Failure?
    ensures Entries(fs, site, Matching(inv, site, product)) == Entries(fs, site, Matching(inv[..n], site, product))
  {
    assert inv == inv[..n] + inv[n..];
    MatchingAppend(inv[..n], inv[n..], site, product);
    EntriesKeepFailure(fs, site, Matching(inv[..n], site, product), Matching(inv[n..], site, product));
  }

  // ---------------------------------------------------------------------
  // fetch_chart

  /** Reply of `/v1/fetch_chart`: the 404 usage message, the chart's path and
      HTML, or an exception raised while handling the request (HTTP 500). */
  datatype ChartReply = ChartUsage | Chart(chartPath: Path, html: string) | ChartCrash(error: IoError)

  /** The argument checks of `fetch_chart`: `site_name` present and not
      empty, `product_name` present, not empty and not "undefined". */
  function ChartArgs(siteArg: Option<string>, productArg: Option<string>): (r: Option<(string, string)>)
    ensures r.Some? <==> siteArg.Some? && siteArg.value != "" &&
                         productArg.Some? && productArg.value != "" && productArg.value != "undefined"
    ensures r.Some? ==> r.value == (siteArg.value, productArg.value)
  {
    if siteArg.None? || siteArg.value == "" then None
    else if productArg.None? || productArg.value == "" || productArg.value == "undefined" then None
    else Some((siteArg.value, productArg.value))
  }

  /** `static/charts/<site>__<product>.html` and `.json` */
  function ChartHtmlPath(site: string, product: string): Path {
    ChartFile(site + "__" + product + ".html")
  }

  function ChartJsonPath(site: string, product: string): Path {
    ChartFile(site + "__" + product + ".json")
  }

  /** What `open(p).read()` of the chart page gives the reply. */
  function ServeChart(fs: FileSystem, p: Path): (r: ChartReply)
    ensures r.Chart? <==> ReadText(fs, p).Success?
    ensures r.Chart? ==> r == Chart(p, ReadText(fs, p).value)
    ensures r.ChartCrash? ==> r.error == ReadText(fs, p).error
  {
    match ReadText(fs, p)
    case Success(html) => Chart(p, html)
    case Failure(e) => ChartCrash(e)
  }

  /** `create_report_from_file(json_path, html_path)`: renders the dataset
      stored at `src` into an HTML page at `dst`. Only its interface is
      modelled; `render` stands for its drawing. */
  method CreateReportFromFile(fs: FileSystem, src: Path, dst: Path, now: int, render: seq<Entry> -> string)
    returns (r: Result<FileSystem, IoError>)
    ensures src in fs && fs[src].content.Dataset? ==>
      r == Success(fs[dst := File(Text(render(fs[src].content.entries)), now)])
    ensures src !in fs ==> r == Failure(NotFound(src))
    ensures src in fs && !fs[src].content.Dataset? ==> r == Failure(Malformed(src))
  {
    if src !in fs {
      return Failure(NotFound(src));
    }
    match fs[src].content
    case Dataset(entries) =>
      r := Success(fs[dst := File(Text(render(entries)), now)]);
    case _ =>
      r := Failure(Malformed(src));
  }

  /** `fetch_chart`. Bad arguments are answered with the usage message before
      any file is touched. Otherwise the chart page and its dataset are
      rebuilt exactly when either of them is missing or older than five
      minutes; when neither is, only the stored page is read and nothing is
      written. A rebuild reads `devices.json` and the file of every device of
      the bucket, stores the dataset at `<site>__<product>.json`, renders that
      same file into the page, and serves the new page; a file that cannot be
      read aborts the request with nothing written. */
  method FetchChart(fs: FileSystem, now: int, siteArg: Option<string>, productArg: Option<string>,
                    render: seq<Entry> -> string)
    returns (reply: ChartReply, fs': FileSystem)
    ensures ChartArgs(siteArg, productArg).None? ==> reply == ChartUsage && fs' == fs
    ensures ChartArgs(siteArg, productArg).Some? ==>
      var (site, product) := ChartArgs(siteArg, productArg).value;
      var html, json := ChartHtmlPath(site, product), ChartJsonPath(site, product);
      var rebuild := MustRebuild(fs, html, now, ChartTtlMinutes) || MustRebuild(fs, json, now, ChartTtlMinutes);
      && (!rebuild ==> fs' == fs && reply == ServeChart(fs, html))
      && (rebuild && ReadInventory(fs).Failure? ==> fs' == fs && reply == ChartCrash(ReadInventory(fs).error))
      && (rebuild && ReadInventory(fs).Success? ==>
            var data := Aggregated(fs, ReadInventory(fs).value, site, product);
            && (data.Failure? ==> fs' == fs && reply == ChartCrash(data.error))
            && (data.Success? ==>
                  && fs' == fs[json := File(Dataset(data.value), now)][html := File(Text(render(data.value)), now)]
                  && reply == Chart(html, render(data.value))))
  {
    var args := ChartArgs(siteArg, productArg);
    if args.None? {
      return ChartUsage, fs;
    }
    var (site, product) := args.value;
    var chartHtml, chartJson := ChartHtmlPath(site, product), ChartJsonPath(site, product);

    var regen := false;
    if chartHtml !in fs {
      regen := true;
    } else if IsFileOlderThanMinutes(fs, chartHtml, now, ChartTtlMinutes) {
      regen := true;
    }
    if chartJson !in fs {
      regen := true;
    } else if IsFileOlderThanMinutes(fs, chartJson, now, ChartTtlMinutes) {
      regen := true;
    }

    fs' := fs;
    if regen {
      var servers := ReadInventory(fs);
      if servers.Failure? {
        return ChartCrash(servers.error), fs;
      }
      var stats := CollectSiteProductStats(fs, servers.value, site, product);
      if stats.Failure? {
        return ChartCrash(stats.error), fs;
      }
      var siteProductJson := ChartFile(site + "__" + product + ".json");
      fs' := fs'[siteProductJson := File(Dataset(stats.value), now)];
      var rendered := CreateReportFromFile(fs', chartJson, chartHtml, now, render);
      match rendered
      case Success(written) => fs' := written;
      case Failure(_) => assert false;
    }
    reply := ServeChart(fs', chartHtml);
  }

  // ---------------------------------------------------------------------
  // fetch_performance_charts

  /** The menu label of one bucket: `f'{site_name.upper()} : {product_name}'`;
      `upper` stands for Python's `str.upper`. */
  function OptionLabel(upper: string -> string, b: Bucket): string {
    upper(b.siteName) + " : " + b.productName
  }

  function Labels(upper: string -> string, buckets: seq<Bucket>): (r: seq<string>)
    ensures |r| == |buckets|
  {
    seq(|buckets|, i requires 0 <= i < |buckets| => OptionLabel(upper, buckets[i]))
  }

  /** The menu entries: the distinct labels of the map, sorted. */
  function MenuOptions(upper: string -> string, buckets: seq<Bucket>): seq<string> {
    SortDistinct(Labels(upper, buckets))
  }

  /** `<option selected value="NONE">---------- Select Chart ----------</option>` */
  const NoneLine := "<option selected " + "value=\"NONE\">" + "---------- " + "Select Chart" + " ----------" + "</option>"

  function OptionLine(option: string): string {
    "<option value=\"" + option + "\">" + option + "</option>"
  }

  function OptionLines(options: seq<string>): (r: seq<string>)
    ensures |r| == |options|
  {
    seq(|options|, i requires 0 <= i < |options| => OptionLine(options[i]))
  }

  /** The `map_list` HTML: the NONE line, then one line per option, each
      line ended by a newline. */
  function MenuHtml(options: seq<string>): string {
    Terminated([NoneLine] + OptionLines(options), '\n')
  }

  /** The loop that collects each bucket's label unless already present,
      followed by `sorted`. */
  method UniqueOptions(upper: string -> string, buckets: seq<Bucket>) returns (options: seq<string>)
    ensures options == MenuOptions(upper, buckets)
  {
    var unique: seq<string> := [];
    var i := 0;
    while i < |buckets|
      invariant 0 <= i <= |buckets|
      invariant unique == Dedup(Labels(upper, buckets[..i]))
    {
      var item := buckets[i];
      var option := upper(item.siteName) + " : " + item.productName;
      ghost var before := Labels(upper, buckets[..i]);
      assert Labels(upper, buckets[..i + 1]) == before + [option];
      assert (before + [option])[..|before|] == before;
      if option !in unique {
        unique := unique + [option];
      }
      i := i + 1;
    }
    assert buckets[..i] == buckets;
    options := SortDistinct(unique);
    SortDistinctOfDedup(Labels(upper, buckets));
  }

  /** The loop that appends one `<option>` line per menu entry. */
  method RenderMenu(options: seq<string>) returns (html: string)
    ensures html == MenuHtml(options)
  {
    html := NoneLine + "\n";
    assert html == Terminated([NoneLine], '\n');
    var i := 0;
    while i < |options|
      invariant 0 <= i <= |options|
      invariant html == Terminated([NoneLine] + OptionLines(options[..i]), '\n')
    {
      var optStr := "<option value=\"" + options[i] + "\">" + options[i] + "</option>\n";
      TerminatedAppend([NoneLine] + OptionLines(options[..i]), OptionLine(options[i]), '\n');
      assert [NoneLine] + OptionLines(options[..i + 1]) == [NoneLine] + OptionLines(options[..i]) + [OptionLine(options[i])];
      html := html + optStr;
      i := i + 1;
    }
    assert options[..i] == options;
  }

  /** The menu holds each label of the map once, in sorted order. */
  lemma MenuOptionsSpec(upper: string -> string, buckets: seq<Bucket>, option: string)
    ensures StrictlySorted(MenuOptions(upper, buckets))
    ensures option in MenuOptions(upper, buckets) <==> exists b :: b in buckets && option == OptionLabel(upper, b)
  {
    var labels := Labels(upper, buckets);
    if option in labels {
      var i :| 0 <= i < |labels| && labels[i] == option;
      assert buckets[i] in buckets;
    }
    if exists b :: b in buckets && option == OptionLabel(upper, b) {
      var b :| b in buckets && option == OptionLabel(upper, b);
      var i :| 0 <= i < |buckets| && buckets[i] == b;
      assert labels[i] == option;
    }
  }

  lemma OptionLineSingle(option: string)
    requires '\n' !in option
    ensures '\n' !in OptionLine(option)
  {
    var open, mid, close := "<option value=\"", "\">", "</option>";
    assert '\n' !in open && '\n' !in mid && '\n' !in close;
    assert OptionLine(option) == open + option + mid + option + close;
  }

  /** Read line by line, the menu is one NONE line followed by one line per
      option in the given order, provided no option contains a line break
      (nothing in the handler rules one out: a site or product name, or the
      upper-cased form of a site name, with a line break would break the
      menu's lines). */
  lemma MenuHtmlLines(options: seq<string>)
    requires forall i :: 0 <= i < |options| ==> '\n' !in options[i]
    ensures Split(MenuHtml(options), '\n') == [NoneLine] + OptionLines(options) + [""]
    ensures MenuHtml(options)[..|NoneLine| + 1] == NoneLine + "\n"
  {
    var lines := [NoneLine] + OptionLines(options);
    assert '\n' !in NoneLine;
    forall i | 0 <= i < |lines| ensures '\n' !in lines[i] {
      if i > 0 {
        OptionLineSingle(options[i - 1]);
      }
    }
    SplitTerminated(lines, '\n');
    assert lines[1..] == OptionLines(options);
  }

  /** `fetch_performance_charts`. The site map is rebuilt from `devices.json`
      exactly when it is missing or older than nine minutes, otherwise the
      stored one is read; the reply is the menu of that map. */
  method FetchPerformanceCharts(fs: FileSystem, now: int, upper: string -> string)
    returns (reply: Result<string, IoError>, fs': FileSystem)
    ensures !MustRebuild(fs, SiteMapJson, now, SiteMapTtlMinutes) ==>
      fs' == fs &&
      reply == match ReadSiteMap(fs, SiteMapJson)
               case Success(m) => Success(MenuHtml(MenuOptions(upper, m)))
               case Failure(e) => Failure(e)
    ensures MustRebuild(fs, SiteMapJson, now, SiteMapTtlMinutes) && ReadInventory(fs).Failure? ==>
      fs' == fs && reply == Failure(ReadInventory(fs).error)
    ensures MustRebuild(fs, SiteMapJson, now, SiteMapTtlMinutes) && ReadInventory(fs).Success? ==>
      var m := SiteMapOf(ReadInventory(fs).value);
      fs' == fs[SiteMapJson := File(SiteMap(m), now)] && reply == Success(MenuHtml(MenuOptions(upper, m)))
  {
    var regenFile := false;
    if SiteMapJson !in fs {
      regenFile := true;
    } else if IsFileOlderThanMinutes(fs, SiteMapJson, now, SiteMapTtlMinutes) {
      regenFile := true;
    }

    var siteProductMap: Result<seq<Bucket>, IoError>;
    if regenFile {
      siteProductMap, fs' := CreateChartSiteMap(fs, SiteMapJson, now, true);
    } else {
      siteProductMap, fs' := ReadSiteMap(fs, SiteMapJson), fs;
    }
    if siteProductMap.Failure? {
      return Failure(siteProductMap.error), fs';
    }
    var options := UniqueOptions(upper, siteProductMap.value);
    var html := RenderMenu(options);
    reply := Success(html);
  }

  // ---------------------------------------------------------------------
  // fetch_json

  /** Reply of `/v1/fetch_json`: the 404 usage message (HTTP 404), the
      loaded JSON, the "not available" message (api_code 404 but HTTP 200, as
      the handler returns no status), or an exception raised (HTTP 500). */
  datatype JsonReply = JsonUsage | JsonData(data: Content) | JsonNotAvailable | JsonCrash(error: IoError)

  predicate EndsWith(s: string, suffix: string) {
    |suffix| <= |s| && s[|s| - |suffix|..] == suffix
  }

  /** `fetch_json`: a missing or empty `file` argument is answered before any
      file is touched; a name whose lower-cased form does not end in ".json"
      is refused; otherwise `static/json/<file>` is loaded. `lower` stands for
      Python's `str.lower`. */
  function FetchJson(fs: FileSystem, fileArg: Option<string>, lower: string -> string): (r: JsonReply)
    ensures fileArg.None? || fileArg.value == "" ==> r == JsonUsage
    ensures fileArg.Some? && fileArg.value != "" && !EndsWith(lower(fileArg.value), ".json") ==> r == JsonNotAvailable
    ensures fileArg.Some? && fileArg.value != "" && EndsWith(lower(fileArg.value), ".json") ==>
      var p := JsonFile(fileArg.value);
      && (p !in fs ==> r == JsonCrash(NotFound(p)))
      && (p in fs && fs[p].content.Text? ==> r == JsonCrash(Malformed(p)))
      && (p in fs && !fs[p].content.Text? ==> r == JsonData(fs[p].content))
  {
    if fileArg.None? || fileArg.value == "" then JsonUsage
    else
      var name := fileArg.value;
      var p := JsonFile(name);
      if EndsWith(lower(name), ".json") then
        if p !in fs then JsonCrash(NotFound(p))
        else match fs[p].content
          case Text(_) => JsonCrash(Malformed(p))
          case data => JsonData(data)
      else JsonNotAvailable
  }
}
