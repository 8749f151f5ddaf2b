/** `create_fake_servers`, the inventory builder shared (line for line) by
    both data generators: a site id from the hyphen-separated site name,
    device names from site id, vendor prefix, environment and a zero-padded
    counter, one record per (site, product, counter, environment), and a
    stub file per device that does not have one yet. */
module FakeFleet {
  import opened Common
  import opened Seqs
  import opened Strings
  import opened Store
  import opened DeviceUpdates

  /** A site name of five hyphen-joined parts. */
  function SiteName(a: string, b: string, c: string, d: string, e: string): string {
    a + "-" + b + "-" + c + "-" + d + "-" + e
  }

  const SiteOptions: seq<string> := [
    "na-us-north-east-01", "na-us-north-east-02", "na-us-north-west-01", "na-us-north-west-02",
    "em-uk-north-east-01", "em-uk-north-east-02", "ap-sg-north-west-01", "ap-sg-north-west-02",
    "ap-jp-north-west-01", "ap-jp-north-west-02"
  ]

  /** (product name, device prefix), in the order of the source's dict. */
  const ProductVendors: seq<(string, string)> := [
    ("Dell PowerScale", "ps"), ("Dell PowerEdge", "pe"), ("NetApp SolidFire", "sf"),
    ("NetApp ONTAP", "ot"), ("NetApp StorageGRID", "sg"), ("VAST Data", "vd"),
    ("Pure FlashBlade", "pf"), ("Qumulo", "qu"), ("MinIO", "mi")
  ]

  const Envs: seq<string> := ["pr"]

  const DevicesPerProduct: nat := 4

  /** `split[0] + split[1] + split[2][0] + split[3][0] + split[4]` of
      `site.split('-')`; `None` where that indexing would raise. */
  function SiteId(site: string): Option<string> {
    var parts := Split(site, '-');
    if |parts| >= 5 && parts[2] != [] && parts[3] != [] then
      Some(parts[0] + parts[1] + [parts[2][0]] + [parts[3][0]] + parts[4])
    else None
  }

  /** A site name of five hyphen-separated parts yields the first two parts
      whole, the initials of the next two, and the fifth whole. */
  lemma SiteIdOfFiveParts(a: string, b: string, c: string, d: string, e: string)
    requires '-' !in a && '-' !in b && '-' !in c && '-' !in d && '-' !in e
    requires c != [] && d != []
    ensures SiteId(SiteName(a, b, c, d, e)) == Some(a + b + [c[0]] + [d[0]] + e)
  {
    var parts := [a, b, c, d, e];
    assert Join(parts[4..], '-') == e;
    assert Join(parts[3..], '-') == d + "-" + e by { assert parts[3..][1..] == parts[4..]; }
    assert Join(parts[2..], '-') == c + "-" + d + "-" + e by { assert parts[2..][1..] == parts[3..]; }
    assert Join(parts[1..], '-') == b + "-" + c + "-" + d + "-" + e by { assert parts[1..][1..] == parts[2..]; }
    assert Join(parts, '-') == a + "-" + b + "-" + c + "-" + d + "-" + e;
    SplitJoin(parts, '-');
  }

  /** The first site of the table has the id "nausne01". */
  lemma SiteIdExample()
    ensures SiteId(SiteOptions[0]) == Some("na" + "us" + "n" + "e" + "01")
  {
    assert SiteOptions[0] == SiteName("na", "us", "north", "east", "01");
    SiteIdOfFiveParts("na", "us", "north", "east", "01");
  }

  /** The record for one site, vendor, environment and counter value. */
  function Record(site: string, siteId: string, vendor: (string, string), env: string, y: nat): Device {
    Device(site, vendor.0, env, siteId + (vendor.1 + env + Counter3(y)))
  }

  /** The records the innermost loop forms, one per environment. */
  function EnvRecords(site: string, siteId: string, vendor: (string, string), y: nat, envs: seq<string>): seq<Device> {
    if envs == [] then []
    else EnvRecords(site, siteId, vendor, y, envs[..|envs| - 1]) + [Record(site, siteId, vendor, envs[|envs| - 1], y)]
  }

  /** The records for counters 1 to `y`. */
  function CounterRecords(site: string, siteId: string, vendor: (string, string), envs: seq<string>, y: nat): seq<Device> {
    if y == 0 then []
    else CounterRecords(site, siteId, vendor, envs, y - 1) + EnvRecords(site, siteId, vendor, y, envs)
  }

  function VendorRecords(site: string, siteId: string, vendors: seq<(string, string)>, envs: seq<string>, n: nat): seq<Device> {
    if vendors == [] then []
    else VendorRecords(site, siteId, vendors[..|vendors| - 1], envs, n) + CounterRecords(site, siteId, vendors[|vendors| - 1], envs, n)
  }

  ghost predicate WellFormedSites(sites: seq<string>) {
    forall i :: 0 <= i < |sites| ==> SiteId(sites[i]).Some?
  }

  lemma WellFormedPrefix(sites: seq<string>, m: nat)
    requires WellFormedSites(sites) && m <= |sites|
    ensures WellFormedSites(sites[..m])
  {
    forall j | 0 <= j < m ensures SiteId(sites[..m][j]).Some? {
      assert sites[..m][j] == sites[j];
    }
  }

  lemma MulStep(k: nat, x: nat)
    requires k > 0
    ensures (k - 1) * x + x == k * x
  {
  }

  /** Every record the loops form, in loop order, before the "not already in
      the list" check. */
  function FleetRecords(sites: seq<string>, vendors: seq<(string, string)>, envs: seq<string>, n: nat): seq<Device>
    requires WellFormedSites(sites)
  {
    if sites == [] then []
    else
      var site := sites[|sites| - 1];
      FleetRecords(sites[..|sites| - 1], vendors, envs, n) + VendorRecords(site, SiteId(site).value, vendors, envs, n)
  }

  /** The files `create_fake_servers` leaves: every file that existed is
      unchanged, every listed device has a file, and every new file is the
      stub of a listed device at that device's path. */
  ghost predicate StubsWritten(fs: FileSystem, fs': FileSystem, devices: seq<Device>, now: int) {
    && (forall p :: p in fs ==> p in fs' && fs'[p] == fs[p])
    && (forall d :: d in devices ==> DevicePath(d.siteName, d.deviceName) in fs')
    && (forall p :: p in fs' && p !in fs ==>
          && fs'[p].content.DeviceStub?
          && fs'[p].content.device in devices
          && p == DevicePath(fs'[p].content.device.siteName, fs'[p].content.device.deviceName)
          && fs'[p].mtime == now)
  }

  /** One pass of the innermost loop body: append the record when it is not
      listed yet and give it a stub file when its path is free. */
  method AddDevice(fs: FileSystem, cur: FileSystem, devices: seq<Device>, dti: Device, now: int)
    returns (devices': seq<Device>, cur': FileSystem)
    requires StubsWritten(fs, cur, devices, now)
    ensures devices' == if dti in devices then devices else devices + [dti]
    ensures StubsWritten(fs, cur', devices', now)
  {
    devices' := devices;
    cur' := cur;
    if dti !in devices {
      devices' := devices + [dti];
      var dvFile := DevicePath(dti.siteName, dti.deviceName);
      if dvFile !in cur {
        cur' := cur[dvFile := File(DeviceStub(dti), now)];
      }
    }
  }

  lemma EnvRecordsStep(seen: seq<Device>, site: string, siteId: string, vendor: (string, string), y: nat, envs: seq<string>, ei: nat)
    requires ei < |envs|
    ensures var before := Dedup(seen + EnvRecords(site, siteId, vendor, y, envs[..ei]));
      var r := Record(site, siteId, vendor, envs[ei], y);
      Dedup(seen + EnvRecords(site, siteId, vendor, y, envs[..ei + 1])) == if r in before then before else before + [r]
  {
    assert envs[..ei + 1][..ei] == envs[..ei];
    var r := Record(site, siteId, vendor, envs[ei], y);
    assert seen + EnvRecords(site, siteId, vendor, y, envs[..ei + 1])
        == seen + EnvRecords(site, siteId, vendor, y, envs[..ei]) + [r];
    DedupSnoc(seen + EnvRecords(site, siteId, vendor, y, envs[..ei]), r);
  }

  /** The environment loop for one site, vendor and counter value. */
  method AddEnvRecords(fs: FileSystem, cur: FileSystem, devices: seq<Device>, ghost seen: seq<Device>, now: int,
                       site: string, siteId: string, vendor: (string, string), y: nat, envs: seq<string>)
    returns (devices': seq<Device>, cur': FileSystem)
    requires devices == Dedup(seen) && StubsWritten(fs, cur, devices, now)
    ensures devices' == Dedup(seen + EnvRecords(site, siteId, vendor, y, envs))
    ensures StubsWritten(fs, cur', devices', now)
  {
    var vendorProduct, devicePrefix := vendor.0, vendor.1;
    var pyn := Counter3(y);
    devices', cur' := devices, cur;
    assert seen + EnvRecords(site, siteId, vendor, y, envs[..0]) == seen;
    for ei := 0 to |envs|
      invariant devices' == Dedup(seen + EnvRecords(site, siteId, vendor, y, envs[..ei]))
      invariant StubsWritten(fs, cur', devices', now)
    {
      var env := envs[ei];
      var deviceNameNumber := devicePrefix + env + pyn;
      var fullDevice := siteId + deviceNameNumber;
      var dti := Device(site, vendorProduct, env, fullDevice);
      assert dti == Record(site, siteId, vendor, env, y);
      EnvRecordsStep(seen, site, siteId, vendor, y, envs, ei);
      devices', cur' := AddDevice(fs, cur', devices', dti, now);
    }
    assert envs[..|envs|] == envs;
  }

  lemma CounterRecordsStep(seen: seq<Device>, site: string, siteId: string, vendor: (string, string), envs: seq<string>, y: nat)
    ensures seen + CounterRecords(site, siteId, vendor, envs, y + 1)
         == seen + CounterRecords(site, siteId, vendor, envs, y) + EnvRecords(site, siteId, vendor, y + 1, envs)
  {
  }

  /** The counter loop (1 to `n`) for one site and vendor. */
  method AddCounterRecords(fs: FileSystem, cur: FileSystem, devices: seq<Device>, ghost seen: seq<Device>, now: int,
                           site: string, siteId: string, vendor: (string, string), envs: seq<string>, n: nat)
    returns (devices': seq<Device>, cur': FileSystem)
    requires devices == Dedup(seen) && StubsWritten(fs, cur, devices, now)
    ensures devices' == Dedup(seen + CounterRecords(site, siteId, vendor, envs, n))
    ensures StubsWritten(fs, cur', devices', now)
  {
    devices', cur' := devices, cur;
    var y := 0;
    assert seen + CounterRecords(site, siteId, vendor, envs, 0) == seen;
    while y != n
      invariant 0 <= y <= n
      invariant devices' == Dedup(seen + CounterRecords(site, siteId, vendor, envs, y))
      invariant StubsWritten(fs, cur', devices', now)
    {
      CounterRecordsStep(seen, site, siteId, vendor, envs, y);
      ghost var before := seen + CounterRecords(site, siteId, vendor, envs, y);
      y := y + 1;
      devices', cur' := AddEnvRecords(fs, cur', devices', before, now, site, siteId, vendor, y, envs);
    }
  }

  lemma VendorRecordsStep(seen: seq<Device>, site: string, siteId: string, vendors: seq<(string, string)>, envs: seq<string>, n: nat, vi: nat)
    requires vi < |vendors|
    ensures seen + VendorRecords(site, siteId, vendors[..vi + 1], envs, n)
         == seen + VendorRecords(site, siteId, vendors[..vi], envs, n) + CounterRecords(site, siteId, vendors[vi], envs, n)
  {
    assert vendors[..vi + 1][..vi] == vendors[..vi];
  }

  /** The vendor loop for one site. */
  method AddSiteRecords(fs: FileSystem, cur: FileSystem, devices: seq<Device>, ghost seen: seq<Device>, now: int,
                        site: string, siteId: string, vendors: seq<(string, string)>, envs: seq<string>, n: nat)
    returns (devices': seq<Device>, cur': FileSystem)
    requires devices == Dedup(seen) && StubsWritten(fs, cur, devices, now)
    ensures devices' == Dedup(seen + VendorRecords(site, siteId, vendors, envs, n))
    ensures StubsWritten(fs, cur', devices', now)
  {
    devices', cur' := devices, cur;
    assert seen + VendorRecords(site, siteId, vendors[..0], envs, n) == seen;
    for vi := 0 to |vendors|
      invariant devices' == Dedup(seen + VendorRecords(site, siteId, vendors[..vi], envs, n))
      invariant StubsWritten(fs, cur', devices', now)
    {
      VendorRecordsStep(seen, site, siteId, vendors, envs, n, vi);
      ghost var before := seen + VendorRecords(site, siteId, vendors[..vi], envs, n);
      devices', cur' := AddCounterRecords(fs, cur', devices', before, now, site, siteId, vendors[vi], envs, n);
    }
    assert vendors[..|vendors|] == vendors;
  }

  lemma FleetRecordsStep(sites: seq<string>, vendors: seq<(string, string)>, envs: seq<string>, n: nat, i: nat)
    requires WellFormedSites(sites) && i < |sites|
    ensures FleetRecords(sites[..i + 1], vendors, envs, n)
         == FleetRecords(sites[..i], vendors, envs, n) + VendorRecords(sites[i], SiteId(sites[i]).value, vendors, envs, n)
  {
    assert sites[..i + 1][..i] == sites[..i];
  }

  /** The record loop of `create_fake_servers` over the given sites,
      vendors, environments and number of devices per product. */
  method BuildFleet(fs: FileSystem, now: int, sites: seq<string>, vendors: seq<(string, string)>, envs: seq<string>, n: nat)
    returns (devices: seq<Device>, fs': FileSystem)
    requires WellFormedSites(sites)
    ensures devices == Dedup(FleetRecords(sites, vendors, envs, n))
    ensures StubsWritten(fs, fs', devices, now)
  {
    devices := [];
    fs' := fs;
    for i := 0 to |sites|
      invariant devices == Dedup(FleetRecords(sites[..i], vendors, envs, n))
      invariant StubsWritten(fs, fs', devices, now)
    {
      var site := sites[i];
      var splitSite := Split(site, '-');
      var siteId := splitSite[0] + splitSite[1] + [splitSite[2][0]] + [splitSite[3][0]] + splitSite[4];
      assert siteId == SiteId(site).value;
      FleetRecordsStep(sites, vendors, envs, n, i);
      ghost var before := FleetRecords(sites[..i], vendors, envs, n);
      devices, fs' := AddSiteRecords(fs, fs', devices, before, now, site, siteId, vendors, envs, n);
    }
    assert sites[..|sites|] == sites;
  }

  /** The counter a record's name ends with, read back from the name. */
  function NameCounter(siteId: string, vendor: (string, string), d: Device): nat {
    var k := |siteId| + |vendor.1| + |d.environment|;
    if |d.deviceName| >= k then ParseDecimal(d.deviceName[k..]) else 0
  }

  lemma NameCounterOfRecord(site: string, siteId: string, vendor: (string, string), env: string, t: nat)
    ensures NameCounter(siteId, vendor, Record(site, siteId, vendor, env, t)) == t
  {
    var name := Record(site, siteId, vendor, env, t).deviceName;
    assert name == siteId + vendor.1 + env + Counter3(t);
    assert name[|siteId| + |vendor.1| + |env|..] == Counter3(t);
    Counter3RoundTrip(t);
  }

  /** One record per environment, all for counter `y`. */
  lemma {:induction false} EnvRecordsMember(site: string, siteId: string, vendor: (string, string), y: nat, envs: seq<string>, d: Device)
    ensures d in EnvRecords(site, siteId, vendor, y, envs)
        <==> d.environment in envs && d == Record(site, siteId, vendor, d.environment, y)
    decreases |envs|
  {
    if envs != [] {
      var pre := envs[..|envs| - 1];
      EnvRecordsMember(site, siteId, vendor, y, pre, d);
      assert envs == pre + [envs[|envs| - 1]];
    }
  }

  lemma {:induction false} EnvRecordsShape(site: string, siteId: string, vendor: (string, string), y: nat, envs: seq<string>)
    requires NoDup(envs)
    ensures NoDup(EnvRecords(site, siteId, vendor, y, envs))
    ensures |EnvRecords(site, siteId, vendor, y, envs)| == |envs|
    decreases |envs|
  {
    if envs != [] {
      var pre := envs[..|envs| - 1];
      var last := envs[|envs| - 1];
      assert NoDup(pre) by {
        forall i, j | 0 <= i < j < |pre| ensures pre[i] != pre[j] {
          assert pre[i] == envs[i] && pre[j] == envs[j];
        }
      }
      assert last !in pre by {
        forall i | 0 <= i < |pre| ensures pre[i] != last {
          assert pre[i] == envs[i];
        }
      }
      EnvRecordsShape(site, siteId, vendor, y, pre);
      EnvRecordsMember(site, siteId, vendor, y, pre, Record(site, siteId, vendor, last, y));
      AppendFresh(EnvRecords(site, siteId, vendor, y, pre), Record(site, siteId, vendor, last, y));
    }
  }

  /** The counter value of a record of a vendor's block. */
  lemma {:induction false} CounterRecordsIndex(site: string, siteId: string, vendor: (string, string), envs: seq<string>, y: nat, d: Device)
    returns (t: nat)
    requires d in CounterRecords(site, siteId, vendor, envs, y)
    ensures 1 <= t <= y && d.environment in envs && d == Record(site, siteId, vendor, d.environment, t)
  {
    EnvRecordsMember(site, siteId, vendor, y, envs, d);
    if d in EnvRecords(site, siteId, vendor, y, envs) {
      t := y;
    } else {
      t := CounterRecordsIndex(site, siteId, vendor, envs, y - 1, d);
    }
  }

  lemma {:induction false} CounterRecordsHas(site: string, siteId: string, vendor: (string, string), envs: seq<string>, y: nat, t: nat, env: string)
    requires 1 <= t <= y && env in envs
    ensures Record(site, siteId, vendor, env, t) in CounterRecords(site, siteId, vendor, envs, y)
  {
    var d := Record(site, siteId, vendor, env, t);
    var prev := CounterRecords(site, siteId, vendor, envs, y - 1);
    var here := EnvRecords(site, siteId, vendor, y, envs);
    assert CounterRecords(site, siteId, vendor, envs, y) == prev + here;
    if t == y {
      EnvRecordsMember(site, siteId, vendor, y, envs, d);
      assert d in here;
    } else {
      CounterRecordsHas(site, siteId, vendor, envs, y - 1, t, env);
      assert d in prev;
    }
  }

  /** One record per environment and counter value from 1 to `y`. */
  lemma CounterRecordsMember(site: string, siteId: string, vendor: (string, string), envs: seq<string>, y: nat, d: Device)
    ensures d in CounterRecords(site, siteId, vendor, envs, y)
        <==> d.environment in envs && exists t :: 1 <= t <= y && d == Record(site, siteId, vendor, d.environment, t)
  {
    if d in CounterRecords(site, siteId, vendor, envs, y) {
      var t := CounterRecordsIndex(site, siteId, vendor, envs, y, d);
    }
    if d.environment in envs && exists t :: 1 <= t <= y && d == Record(site, siteId, vendor, d.environment, t) {
      var t :| 1 <= t <= y && d == Record(site, siteId, vendor, d.environment, t);
      CounterRecordsHas(site, siteId, vendor, envs, y, t, d.environment);
    }
  }

  /** Records of earlier counter values differ from those of counter `y`. */
  lemma CounterRecordsBefore(site: string, siteId: string, vendor: (string, string), envs: seq<string>, y: nat, d: Device, e: Device)
    requires y > 0 && d in CounterRecords(site, siteId, vendor, envs, y - 1) && e in EnvRecords(site, siteId, vendor, y, envs)
    ensures d != e
  {
    var t := CounterRecordsIndex(site, siteId, vendor, envs, y - 1, d);
    EnvRecordsMember(site, siteId, vendor, y, envs, e);
    NameCounterOfRecord(site, siteId, vendor, d.environment, t);
    NameCounterOfRecord(site, siteId, vendor, e.environment, y);
  }

  lemma {:induction false} CounterRecordsShape(site: string, siteId: string, vendor: (string, string), envs: seq<string>, y: nat)
    requires NoDup(envs)
    ensures NoDup(CounterRecords(site, siteId, vendor, envs, y))
    ensures |CounterRecords(site, siteId, vendor, envs, y)| == y * |envs|
  {
    if y > 0 {
      var a := CounterRecords(site, siteId, vendor, envs, y - 1);
      var b := EnvRecords(site, siteId, vendor, y, envs);
      CounterRecordsShape(site, siteId, vendor, envs, y - 1);
      EnvRecordsShape(site, siteId, vendor, y, envs);
      forall i, j | 0 <= i < |a| && 0 <= j < |b|
        ensures a[i] != b[j]
      {
        CounterRecordsBefore(site, siteId, vendor, envs, y, a[i], b[j]);
      }
      NoDupConcat(a, b);
      MulStep(y, |envs|);
    }
  }

  /** Every record of a vendor's block names that vendor's product. */
  lemma CounterRecordsFields(site: string, siteId: string, vendor: (string, string), envs: seq<string>, y: nat, d: Device)
    requires d in CounterRecords(site, siteId, vendor, envs, y)
    ensures d.siteName == site && d.productName == vendor.0
  {
    var t := CounterRecordsIndex(site, siteId, vendor, envs, y, d);
  }

  /** The vendor whose block holds a record of a site's records. */
  lemma {:induction false} VendorRecordsIndex(site: string, siteId: string, vendors: seq<(string, string)>, envs: seq<string>, n: nat, d: Device)
    returns (k: nat)
    requires d in VendorRecords(site, siteId, vendors, envs, n)
    ensures k < |vendors| && d in CounterRecords(site, siteId, vendors[k], envs, n)
    decreases |vendors|
  {
    var m := |vendors| - 1;
    if d in CounterRecords(site, siteId, vendors[m], envs, n) {
      k := m;
    } else {
      k := VendorRecordsIndex(site, siteId, vendors[..m], envs, n, d);
      assert vendors[..m][k] == vendors[k];
    }
  }

  lemma {:induction false} VendorRecordsHas(site: string, siteId: string, vendors: seq<(string, string)>, envs: seq<string>, n: nat, k: nat, d: Device)
    requires k < |vendors| && d in CounterRecords(site, siteId, vendors[k], envs, n)
    ensures d in VendorRecords(site, siteId, vendors, envs, n)
    decreases |vendors|
  {
    var m := |vendors| - 1;
    if k < m {
      assert vendors[..m][k] == vendors[k];
      VendorRecordsHas(site, siteId, vendors[..m], envs, n, k, d);
    }
  }

  lemma VendorRecordsMember(site: string, siteId: string, vendors: seq<(string, string)>, envs: seq<string>, n: nat, d: Device)
    ensures d in VendorRecords(site, siteId, vendors, envs, n)
        <==> exists k :: 0 <= k < |vendors| && d in CounterRecords(site, siteId, vendors[k], envs, n)
  {
    if d in VendorRecords(site, siteId, vendors, envs, n) {
      var k := VendorRecordsIndex(site, siteId, vendors, envs, n, d);
    }
    if exists k :: 0 <= k < |vendors| && d in CounterRecords(site, siteId, vendors[k], envs, n) {
      var k :| 0 <= k < |vendors| && d in CounterRecords(site, siteId, vendors[k], envs, n);
      VendorRecordsHas(site, siteId, vendors, envs, n, k, d);
    }
  }

  /** The product names of the vendor table are pairwise distinct. */
  ghost predicate DistinctProducts(vendors: seq<(string, string)>) {
    forall i, j :: 0 <= i < j < |vendors| ==> vendors[i].0 != vendors[j].0
  }

  lemma {:induction false} VendorRecordsShape(site: string, siteId: string, vendors: seq<(string, string)>, envs: seq<string>, n: nat)
    requires DistinctProducts(vendors) && NoDup(envs)
    ensures NoDup(VendorRecords(site, siteId, vendors, envs, n))
    ensures |VendorRecords(site, siteId, vendors, envs, n)| == |vendors| * (n * |envs|)
    decreases |vendors|
  {
    if vendors != [] {
      var pre := vendors[..|vendors| - 1];
      var last := vendors[|vendors| - 1];
      var a := VendorRecords(site, siteId, pre, envs, n);
      var b := CounterRecords(site, siteId, last, envs, n);
      assert DistinctProducts(pre) by {
        forall i, j | 0 <= i < j < |pre| ensures pre[i].0 != pre[j].0 {
          assert pre[i] == vendors[i] && pre[j] == vendors[j];
        }
      }
      VendorRecordsShape(site, siteId, pre, envs, n);
      CounterRecordsShape(site, siteId, last, envs, n);
      forall i, j | 0 <= i < |a| && 0 <= j < |b|
        ensures a[i] != b[j]
      {
        var k := VendorRecordsIndex(site, siteId, pre, envs, n, a[i]);
        CounterRecordsFields(site, siteId, pre[k], envs, n, a[i]);
        CounterRecordsFields(site, siteId, last, envs, n, b[j]);
        assert pre[k] == vendors[k];
      }
      NoDupConcat(a, b);
      MulStep(|vendors|, n * |envs|);
    }
  }

  /** The site whose records hold a record of the fleet. */
  lemma {:induction false} FleetRecordsIndex(sites: seq<string>, vendors: seq<(string, string)>, envs: seq<string>, n: nat, d: Device)
    returns (i: nat)
    requires WellFormedSites(sites) && d in FleetRecords(sites, vendors, envs, n)
    ensures i < |sites| && d in VendorRecords(sites[i], SiteId(sites[i]).value, vendors, envs, n)
    decreases |sites|
  {
    var m := |sites| - 1;
    var pre := sites[..m];
    WellFormedPrefix(sites, m);
    if d in VendorRecords(sites[m], SiteId(sites[m]).value, vendors, envs, n) {
      i := m;
    } else {
      i := FleetRecordsIndex(pre, vendors, envs, n, d);
      assert pre[i] == sites[i];
    }
  }

  lemma {:induction false} FleetRecordsHas(sites: seq<string>, vendors: seq<(string, string)>, envs: seq<string>, n: nat, i: nat, d: Device)
    requires WellFormedSites(sites) && i < |sites|
    requires d in VendorRecords(sites[i], SiteId(sites[i]).value, vendors, envs, n)
    ensures d in FleetRecords(sites, vendors, envs, n)
    decreases |sites|
  {
    var m := |sites| - 1;
    if i < m {
      var pre := sites[..m];
      WellFormedPrefix(sites, m);
      assert pre[i] == sites[i];
      FleetRecordsHas(pre, vendors, envs, n, i, d);
    }
  }

  lemma FleetRecordsMember(sites: seq<string>, vendors: seq<(string, string)>, envs: seq<string>, n: nat, d: Device)
    requires WellFormedSites(sites)
    ensures d in FleetRecords(sites, vendors, envs, n)
        <==> exists i :: 0 <= i < |sites| && d in VendorRecords(sites[i], SiteId(sites[i]).value, vendors, envs, n)
  {
    if d in FleetRecords(sites, vendors, envs, n) {
      var i := FleetRecordsIndex(sites, vendors, envs, n, d);
    }
    if exists i :: 0 <= i < |sites| && d in VendorRecords(sites[i], SiteId(sites[i]).value, vendors, envs, n) {
      var i :| 0 <= i < |sites| && d in VendorRecords(sites[i], SiteId(sites[i]).value, vendors, envs, n);
      FleetRecordsHas(sites, vendors, envs, n, i, d);
    }
  }

  /** Device naming: every record of the fleet is at one of the sites, for
      one of the environments, and is named by the site id, the vendor's
      prefix, the environment and a counter from 1 to `n` padded to three
      digits; conversely every such combination is in the fleet. */
  lemma FleetNaming(sites: seq<string>, vendors: seq<(string, string)>, envs: seq<string>, n: nat, d: Device)
    requires WellFormedSites(sites)
    ensures d in FleetRecords(sites, vendors, envs, n)
        <==> && d.siteName in sites && d.environment in envs
             && exists k, t :: 0 <= k < |vendors| && 1 <= t <= n
                  && d == Record(d.siteName, SiteId(d.siteName).value, vendors[k], d.environment, t)
  {
    if d in FleetRecords(sites, vendors, envs, n) {
      var i := FleetRecordsIndex(sites, vendors, envs, n, d);
      var k := VendorRecordsIndex(sites[i], SiteId(sites[i]).value, vendors, envs, n, d);
      var t := CounterRecordsIndex(sites[i], SiteId(sites[i]).value, vendors[k], envs, n, d);
    }
    if && d.siteName in sites && d.environment in envs
       && exists k, t :: 0 <= k < |vendors| && 1 <= t <= n
            && d == Record(d.siteName, SiteId(d.siteName).value, vendors[k], d.environment, t)
    {
      var k, t :| 0 <= k < |vendors| && 1 <= t <= n
        && d == Record(d.siteName, SiteId(d.siteName).value, vendors[k], d.environment, t);
      var i :| 0 <= i < |sites| && sites[i] == d.siteName;
      CounterRecordsHas(sites[i], SiteId(sites[i]).value, vendors[k], envs, n, t, d.environment);
      VendorRecordsHas(sites[i], SiteId(sites[i]).value, vendors, envs, n, k, d);
      FleetRecordsHas(sites, vendors, envs, n, i, d);
    }
  }

  lemma VendorRecordsSite(site: string, siteId: string, vendors: seq<(string, string)>, envs: seq<string>, n: nat, d: Device)
    requires d in VendorRecords(site, siteId, vendors, envs, n)
    ensures d.siteName == site
  {
    var k := VendorRecordsIndex(site, siteId, vendors, envs, n, d);
    CounterRecordsFields(site, siteId, vendors[k], envs, n, d);
  }

  lemma FleetRecordsSites(sites: seq<string>, vendors: seq<(string, string)>, envs: seq<string>, n: nat, d: Device)
    requires WellFormedSites(sites) && d in FleetRecords(sites, vendors, envs, n)
    ensures d.siteName in sites
  {
    var i := FleetRecordsIndex(sites, vendors, envs, n, d);
    VendorRecordsSite(sites[i], SiteId(sites[i]).value, vendors, envs, n, d);
  }

  /** With distinct sites, products and environments the loops never form
      the same record twice, and form one per combination. */
  lemma {:induction false} FleetRecordsShape(sites: seq<string>, vendors: seq<(string, string)>, envs: seq<string>, n: nat)
    requires WellFormedSites(sites) && NoDup(sites) && DistinctProducts(vendors) && NoDup(envs)
    ensures NoDup(FleetRecords(sites, vendors, envs, n))
    ensures |FleetRecords(sites, vendors, envs, n)| == |sites| * (|vendors| * (n * |envs|))
    decreases |sites|
  {
    if sites != [] {
      var pre := sites[..|sites| - 1];
      var last := sites[|sites| - 1];
      WellFormedPrefix(sites, |sites| - 1);
      assert NoDup(pre) by {
        forall i | 0 <= i < |pre| ensures pre[i] == sites[i] { }
      }
      assert last !in pre by {
        forall i | 0 <= i < |pre| ensures pre[i] != last {
          assert pre[i] == sites[i];
        }
      }
      var a := FleetRecords(pre, vendors, envs, n);
      var b := VendorRecords(last, SiteId(last).value, vendors, envs, n);
      FleetRecordsShape(pre, vendors, envs, n);
      VendorRecordsShape(last, SiteId(last).value, vendors, envs, n);
      forall i, j | 0 <= i < |a| && 0 <= j < |b|
        ensures a[i] != b[j]
      {
        FleetRecordsSites(pre, vendors, envs, n, a[i]);
        VendorRecordsSite(last, SiteId(last).value, vendors, envs, n, b[j]);
      }
      NoDupConcat(a, b);
      MulStep(|sites|, |vendors| * (n * |envs|));
    }
  }

  /** The device prefixes of the vendor table are pairwise distinct. */
  ghost predicate DistinctPrefixes(vendors: seq<(string, string)>) {
    forall i, j :: 0 <= i < j < |vendors| ==> vendors[i].1 != vendors[j].1
  }

  /** The product of the first vendor with the given prefix. */
  function ProductOf(prefix: string, vendors: seq<(string, string)>): string {
    if vendors == [] then ""
    else if vendors[0].1 == prefix then vendors[0].0
    else ProductOf(prefix, vendors[1..])
  }

  lemma {:induction false} ProductOfPrefix(vendors: seq<(string, string)>, k: nat)
    requires DistinctPrefixes(vendors) && k < |vendors|
    ensures ProductOf(vendors[k].1, vendors) == vendors[k].0
  {
    if k > 0 {
      var rest := vendors[1..];
      assert DistinctPrefixes(rest) by {
        forall i, j | 0 <= i < j < |rest| ensures rest[i].1 != rest[j].1 {
          assert rest[i] == vendors[i + 1] && rest[j] == vendors[j + 1];
        }
      }
      assert rest[k - 1] == vendors[k];
      ProductOfPrefix(rest, k - 1);
    }
  }

  /** The record a device file path stands for, when prefixes and
      environments are two characters long: the name is the file name less
      ".json", the prefix and environment follow the site id. */
  function RecordOfPath(p: Path, vendors: seq<(string, string)>): Device {
    if !p.SiteFile? || |p.name| < 5 then Device("", "", "", "")
    else
      var name := p.name[..|p.name| - 5];
      match SiteId(p.site)
      case None => Device("", "", "", "")
      case Some(siteId) =>
        if |name| < |siteId| + 4 then Device("", "", "", "")
        else
          var rest := name[|siteId|..];
          Device(p.site, ProductOf(rest[..2], vendors), rest[2..4], name)
  }

  lemma RecordOfPathOfRecord(site: string, vendors: seq<(string, string)>, k: nat, env: string, t: nat)
    requires SiteId(site).Some? && DistinctPrefixes(vendors) && k < |vendors|
    requires |vendors[k].1| == 2 && |env| == 2
    ensures var d := Record(site, SiteId(site).value, vendors[k], env, t);
      RecordOfPath(PathOf(d), vendors) == d
  {
    var siteId := SiteId(site).value;
    var d := Record(site, siteId, vendors[k], env, t);
    var name := d.deviceName;
    assert (name + ".json")[..|name + ".json"| - 5] == name;
    var rest := name[|siteId|..];
    assert rest == vendors[k].1 + env + Counter3(t);
    assert rest[..2] == vendors[k].1;
    assert rest[2..4] == env;
    ProductOfPrefix(vendors, k);
  }

  /** With two-character prefixes and environments, distinct records of the
      fleet have distinct files, so the per-device updates never read a
      file another device of the same run has written. */
  lemma FleetDistinctPaths(sites: seq<string>, vendors: seq<(string, string)>, envs: seq<string>, n: nat)
    requires WellFormedSites(sites) && NoDup(sites) && DistinctProducts(vendors) && NoDup(envs)
    requires DistinctPrefixes(vendors) && (forall k :: 0 <= k < |vendors| ==> |vendors[k].1| == 2)
    requires forall e :: e in envs ==> |e| == 2
    ensures DistinctPaths(FleetRecords(sites, vendors, envs, n))
  {
    var fleet := FleetRecords(sites, vendors, envs, n);
    FleetRecordsShape(sites, vendors, envs, n);
    forall i | 0 <= i < |fleet|
      ensures RecordOfPath(PathOf(fleet[i]), vendors) == fleet[i]
    {
      var d := fleet[i];
      FleetNaming(sites, vendors, envs, n, d);
      var k, t :| 0 <= k < |vendors| && 1 <= t <= n
        && d == Record(d.siteName, SiteId(d.siteName).value, vendors[k], d.environment, t);
      var j :| 0 <= j < |sites| && sites[j] == d.siteName;
      RecordOfPathOfRecord(d.siteName, vendors, k, d.environment, t);
    }
  }

  lemma SiteOptionsDistinct()
    ensures NoDup(SiteOptions)
  {
  }

  lemma ProductVendorsDistinct()
    ensures DistinctProducts(ProductVendors)
  {
  }

  lemma ProductVendorsTwoLetterPrefixes()
    ensures DistinctPrefixes(ProductVendors)
    ensures forall k :: 0 <= k < |ProductVendors| ==> |ProductVendors[k].1| == 2
  {
  }

  /** With distinct sites, products and environments, two-character
      prefixes and environments, the loops form one distinct record per
      combination, each with a file of its own. */
  lemma FleetShape(sites: seq<string>, vendors: seq<(string, string)>, envs: seq<string>, n: nat)
    requires WellFormedSites(sites) && NoDup(sites) && DistinctProducts(vendors) && NoDup(envs)
    requires DistinctPrefixes(vendors) && (forall k :: 0 <= k < |vendors| ==> |vendors[k].1| == 2)
    requires forall e :: e in envs ==> |e| == 2
    ensures var fleet := FleetRecords(sites, vendors, envs, n);
      && Dedup(fleet) == fleet && NoDup(fleet) && DistinctPaths(fleet)
      && |fleet| == |sites| * (|vendors| * (n * |envs|))
  {
    FleetRecordsShape(sites, vendors, envs, n);
    FleetDistinctPaths(sites, vendors, envs, n);
    DedupOfDistinct(FleetRecords(sites, vendors, envs, n));
  }

  lemma EnvsShape()
    ensures NoDup(Envs) && |Envs| == 1
    ensures forall e :: e in Envs ==> |e| == 2
  {
  }

  /** The constant tables give 10 sites x 9 products x 4 counters x 1
      environment = 360 distinct records, so the "not already listed" check
      never drops one. */
  lemma DefaultFleetShape()
    ensures WellFormedSites(SiteOptions)
    ensures var fleet := FleetRecords(SiteOptions, ProductVendors, Envs, DevicesPerProduct);
      Dedup(fleet) == fleet && NoDup(fleet) && |fleet| == 360 && DistinctPaths(fleet)
  {
    SiteOptionsWellFormed();
    SiteOptionsDistinct();
    ProductVendorsDistinct();
    ProductVendorsTwoLetterPrefixes();
    EnvsShape();
    TableSizes();
    FleetShape(SiteOptions, ProductVendors, Envs, DevicesPerProduct);
  }

  lemma TableSizes()
    ensures |SiteOptions| == 10 && |ProductVendors| == 9 && |Envs| == 1 && DevicesPerProduct == 4
  {
  }

  /** `create_fake_servers`: an existing `devices.json` is returned as it is
      and nothing is written; otherwise the fleet is built from the constant
      lists, stub files are added, and the inventory is written last. */
  method CreateFakeServers(fs: FileSystem, now: int) returns (r: Result<seq<Device>, IoError>, fs': FileSystem)
    ensures WellFormedSites(SiteOptions)
    ensures DevicesJson in fs ==> r == ReadInventory(fs) && fs' == fs
    ensures DevicesJson !in fs ==>
      && r == Success(Dedup(FleetRecords(SiteOptions, ProductVendors, Envs, DevicesPerProduct)))
      && DevicesJson in fs' && fs'[DevicesJson] == File(Inventory(r.value), now)
      && StubsWritten(fs, fs' - {DevicesJson}, r.value, now)
    ensures DevicesJson !in fs ==> r.Success? && NoDup(r.value) && |r.value| == 360 && DistinctPaths(r.value)
  {
    DefaultFleetShape();
    if DevicesJson in fs {
      r := ReadInventory(fs);
      fs' := fs;
      return;
    }
    var deviceList, built := BuildFleet(fs, now, SiteOptions, ProductVendors, Envs, DevicesPerProduct);
    fs' := built[DevicesJson := File(Inventory(deviceList), now)];
    r := Success(deviceList);
    InventoryWriteKeepsStubs(fs, built, deviceList, now);
  }

  /** Writing `devices.json` after the loop touches no stub: the stubs are
      all site files. */
  lemma InventoryWriteKeepsStubs(fs: FileSystem, built: FileSystem, devices: seq<Device>, now: int)
    requires DevicesJson !in fs && StubsWritten(fs, built, devices, now)
    ensures StubsWritten(fs, built[DevicesJson := File(Inventory(devices), now)] - {DevicesJson}, devices, now)
  {
    assert DevicesJson !in built;
    assert built[DevicesJson := File(Inventory(devices), now)] - {DevicesJson} == built;
  }

  /** What `create_fake_servers` leaves when it had to build the inventory:
      the files of `fs` unchanged, a stub for each new device path, and
      `devices.json` written last. */
  ghost predicate Rebuilt(fs: FileSystem, files: FileSystem, devices: seq<Device>, now: int) {
    && DevicesJson in files && files[DevicesJson] == File(Inventory(devices), now)
    && StubsWritten(fs, files - {DevicesJson}, devices, now)
  }

  /** A fleet folder that holds neither `devices.json` nor any site file. */
  ghost predicate FreshFleetFolder(fs: FileSystem) {
    && DevicesJson !in fs
    && forall p :: p in fs ==> !p.SiteFile?
  }

  /** Starting from a fresh fleet folder, every listed device's file is a
      stub, so the generators find no statistics in it. */
  lemma FreshStubs(fs: FileSystem, fs': FileSystem, devices: seq<Device>, now: int)
    requires FreshFleetFolder(fs) && StubsWritten(fs, fs' - {DevicesJson}, devices, now)
    ensures forall k :: 0 <= k < |devices| ==>
      PathOf(devices[k]) in fs' && fs'[PathOf(devices[k])].content.DeviceStub? &&
      StoredStatistics(fs', PathOf(devices[k])) == Success([])
  {
    forall k | 0 <= k < |devices|
      ensures PathOf(devices[k]) in fs' && fs'[PathOf(devices[k])].content.DeviceStub?
    {
      var p := PathOf(devices[k]);
      assert devices[k] in devices;
      assert p in fs' - {DevicesJson};
      assert p !in fs;
    }
  }

  // One lemma per site name: each unfolds the ten-element string table and
  // splits one nineteen-character name, and keeping them apart keeps every
  // proof obligation to a single name; `SiteOptionWellFormed` only
  // dispatches to these.
  lemma SiteOption0WellFormed()
    ensures SiteId(SiteOptions[0]).Some?
  {
    assert SiteOptions[0] == SiteName("na", "us", "north", "east", "01");
    SiteIdOfFiveParts("na", "us", "north", "east", "01");
  }

  lemma SiteOption1WellFormed()
    ensures SiteId(SiteOptions[1]).Some?
  {
    assert SiteOptions[1] == SiteName("na", "us", "north", "east", "02");
    SiteIdOfFiveParts("na", "us", "north", "east", "02");
  }

  lemma SiteOption2WellFormed()
    ensures SiteId(SiteOptions[2]).Some?
  {
    assert SiteOptions[2] == SiteName("na", "us", "north", "west", "01");
    SiteIdOfFiveParts("na", "us", "north", "west", "01");
  }

  lemma SiteOption3WellFormed()
    ensures SiteId(SiteOptions[3]).Some?
  {
    assert SiteOptions[3] == SiteName("na", "us", "north", "west", "02");
    SiteIdOfFiveParts("na", "us", "north", "west", "02");
  }

  lemma SiteOption4WellFormed()
    ensures SiteId(SiteOptions[4]).Some?
  {
    assert SiteOptions[4] == SiteName("em", "uk", "north", "east", "01");
    SiteIdOfFiveParts("em", "uk", "north", "east", "01");
  }

  lemma SiteOption5WellFormed()
    ensures SiteId(SiteOptions[5]).Some?
  {
    assert SiteOptions[5] == SiteName("em", "uk", "north", "east", "02");
    SiteIdOfFiveParts("em", "uk", "north", "east", "02");
  }

  lemma SiteOption6WellFormed()
    ensures SiteId(SiteOptions[6]).Some?
  {
    assert SiteOptions[6] == SiteName("ap", "sg", "north", "west", "01");
    SiteIdOfFiveParts("ap", "sg", "north", "west", "01");
  }

  lemma SiteOption7WellFormed()
    ensures SiteId(SiteOptions[7]).Some?
  {
    assert SiteOptions[7] == SiteName("ap", "sg", "north", "west", "02");
    SiteIdOfFiveParts("ap", "sg", "north", "west", "02");
  }

  lemma SiteOption8WellFormed()
    ensures SiteId(SiteOptions[8]).Some?
  {
    assert SiteOptions[8] == SiteName("ap", "jp", "north", "west", "01");
    SiteIdOfFiveParts("ap", "jp", "north", "west", "01");
  }

  lemma SiteOption9WellFormed()
    ensures SiteId(SiteOptions[9]).Some?
  {
    assert SiteOptions[9] == SiteName("ap", "jp", "north", "west", "02");
    SiteIdOfFiveParts("ap", "jp", "north", "west", "02");
  }

  lemma SiteOptionWellFormed(i: nat)
    requires i < |SiteOptions|
    ensures SiteId(SiteOptions[i]).Some?
  {
    if i == 0 {
      SiteOption0WellFormed();
    } else if i == 1 {
      SiteOption1WellFormed();
    } else if i == 2 {
      SiteOption2WellFormed();
    } else if i == 3 {
      SiteOption3WellFormed();
    } else if i == 4 {
      SiteOption4WellFormed();
    } else if i == 5 {
      SiteOption5WellFormed();
    } else if i == 6 {
      SiteOption6WellFormed();
    } else if i == 7 {
      SiteOption7WellFormed();
    } else if i == 8 {
      SiteOption8WellFormed();
    } else {
      SiteOption9WellFormed();
    }
  }

  lemma SiteOptionsWellFormed()
    ensures WellFormedSites(SiteOptions)
  {
    forall i | 0 <= i < |SiteOptions|
      ensures SiteId(SiteOptions[i]).Some?
    {
      SiteOptionWellFormed(i);
    }
  }
}
