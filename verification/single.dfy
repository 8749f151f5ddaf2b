/** `data_generator_single.py` past the inventory: one new sample per device
    per run, appended after the stored samples of the last 14 days. */
module SingleServer {
  import opened Common
  import opened Seqs
  import opened Store
  import opened Samples
  import opened DeviceUpdates
  import FakeFleet

  const RetentionDays: int := 14

  /** Peak hours of this generator: 7:00 up to 13:00. */
  predicate IsPeakHour(hour: int) {
    7 <= hour < 13
  }

  /** `generate_fake_performance_data_single_server`: a one-element list
      holding a sample stamped `now`; `base` is the process-count draw. */
  function SingleServerData(now: int, base: nat): (r: seq<Sample>)
    ensures |r| == 1 && r[0].timestamp == Some(now)
    ensures r[0].processCount <= 200
    ensures IsPeakHour(HourOf(now)) ==> r[0].processCount == ProcessCount(base, true)
    ensures !IsPeakHour(HourOf(now)) ==> r[0].processCount == Min(base, 200)
  {
    [Sample(Some(now), ProcessCount(base, IsPeakHour(HourOf(now))))]
  }

  /** `datetime.now() - timedelta(days=14)` */
  function Cutoff(now: int): int {
    now - RetentionDays * SecondsPerDay
  }

  /** A sample survives the filter when its timestamp parses and is not
      older than the cutoff (the bound is inclusive). */
  predicate Kept(s: Sample, now: int) {
    s.timestamp.Some? && s.timestamp.value >= Cutoff(now)
  }

  /** The samples that survive the filter, in their original order. */
  function Recent(data: seq<Sample>, now: int): seq<Sample> {
    if data == [] then []
    else
      var s := data[|data| - 1];
      Recent(data[..|data| - 1], now) + (if Kept(s, now) then [s] else [])
  }

  lemma {:induction false} RecentMember(data: seq<Sample>, now: int, s: Sample)
    ensures s in Recent(data, now) <==> s in data && Kept(s, now)
  {
    if data != [] {
      var n := |data| - 1;
      RecentMember(data[..n], now, s);
      assert data == data[..n] + [data[n]];
    }
  }

  /** The filter only drops samples: the survivors keep their order. */
  lemma {:induction false} RecentIsSubseq(data: seq<Sample>, now: int)
    ensures IsSubseq(Recent(data, now), data)
  {
    if data != [] {
      var n := |data| - 1;
      var head := Recent(data[..n], now);
      RecentIsSubseq(data[..n], now);
      SubseqExtend(head, data[..n], data[n]);
      assert data == data[..n] + [data[n]];
      if Kept(data[n], now) {
        assert Recent(data, now) == head + [data[n]];
      } else {
        assert Recent(data, now) == head;
      }
    }
  }

  /** Samples that are all recent pass through unchanged. */
  lemma {:induction false} RecentOfRecent(data: seq<Sample>, now: int)
    requires forall i :: 0 <= i < |data| ==> Kept(data[i], now)
    ensures Recent(data, now) == data
  {
    if data != [] {
      var n := |data| - 1;
      RecentOfRecent(data[..n], now);
      assert data == data[..n] + [data[n]];
    }
  }

  /** `filter_last_xx_days_compact`: a sample whose timestamp is missing or
      does not parse is skipped, as is one older than the cutoff. */
  method FilterLastDays(dataList: seq<Sample>, now: int) returns (filteredData: seq<Sample>)
    ensures filteredData == Recent(dataList, now)
  {
    var cutoffDate := now - RetentionDays * SecondsPerDay;
    filteredData := [];
    for i := 0 to |dataList|
      invariant filteredData == Recent(dataList[..i], now)
    {
      var entry := dataList[i];
      assert dataList[..i + 1][..i] == dataList[..i];
      match entry.timestamp {
        case None =>
        case Some(entryTimestamp) =>
          if entryTimestamp >= cutoffDate {
            filteredData := filteredData + [entry];
          }
      }
    }
    assert dataList[..|dataList|] == dataList;
  }

  /** What `create_performance_stats` writes for the `k`-th device: the
      recent stored samples followed by the new one. */
  function SingleRewrite(now: int, draw: nat -> nat): Rewrite {
    (k: nat, stats: seq<Sample>) => Recent(stats, now) + SingleServerData(now, draw(k))
  }

  /** `create_performance_stats`; `draw(k)` is the process-count draw made
      for the `k`-th device. */
  method CreatePerformanceStats(fs: FileSystem, devicesList: seq<Device>, now: int, draw: nat -> nat)
    returns (r: Result<nat, IoError>, fs': FileSystem)
    ensures Run(r, fs') == UpdateDevices(fs, devicesList, now, SingleRewrite(now, draw))
  {
    var deviceUpdatesCount := 0;
    fs' := fs;
    for i := 0 to |devicesList|
      invariant UpdateDevices(fs, devicesList[..i], now, SingleRewrite(now, draw)) == Run(Success(deviceUpdatesCount), fs')
    {
      var device := devicesList[i];
      var statSingle := SingleServerData(now, draw(i));
      var deviceFilePath := DevicePath(device.siteName, device.deviceName);
      var statsData := [];
      if deviceFilePath in fs' {
        match fs'[deviceFilePath].content {
          case DeviceHistory(_, statistics) =>
            statsData := statistics;
          case DeviceStub(_) =>
          case _ =>
            StepFails(fs, devicesList, now, SingleRewrite(now, draw), i, deviceUpdatesCount, fs');
            r := Failure(Malformed(deviceFilePath));
            return;
        }
      }
      StepWrites(fs, devicesList, now, SingleRewrite(now, draw), i, deviceUpdatesCount, fs', statsData);
      statsData := FilterLastDays(statsData, now);
      statsData := statsData + statSingle;
      deviceUpdatesCount := deviceUpdatesCount + 1;
      fs' := fs'[deviceFilePath := File(DeviceHistory(device, statsData), now)];
    }
    assert devicesList[..|devicesList|] == devicesList;
    r := Success(deviceUpdatesCount);
  }

  /** The history one device has after a completed run. */
  lemma SingleHistory(fs: FileSystem, devices: seq<Device>, now: int, draw: nat -> nat, k: nat)
    requires DistinctPaths(devices) && k < |devices|
    requires UpdateDevices(fs, devices, now, SingleRewrite(now, draw)).outcome.Success?
    ensures var run := UpdateDevices(fs, devices, now, SingleRewrite(now, draw));
      var p := PathOf(devices[k]);
      && p in run.files && StoredStatistics(fs, p).Success?
      && var stored := StoredStatistics(fs, p).value;
      var history := run.files[p].content;
      && history.DeviceHistory? && history.deviceInfo == devices[k]
      && |history.statistics| >= 1
      && history.statistics[|history.statistics| - 1].timestamp == Some(now)
      && history.statistics[..|history.statistics| - 1] == Recent(stored, now)
      && IsSubseq(history.statistics[..|history.statistics| - 1], stored)
      && (forall i :: 0 <= i < |history.statistics| ==> Kept(history.statistics[i], now))
      && ((p !in fs || fs[p].content.DeviceStub?) ==> |history.statistics| == 1)
  {
    UpdateDevicesWrites(fs, devices, now, SingleRewrite(now, draw));
    var run := UpdateDevices(fs, devices, now, SingleRewrite(now, draw));
    var p := PathOf(devices[k]);
    var stored := StoredStatistics(fs, p).value;
    var kept := Recent(stored, now);
    var stats := kept + SingleServerData(now, draw(k));
    assert run.files[p].content == DeviceHistory(devices[k], stats);
    assert stats[..|stats| - 1] == kept;
    RecentIsSubseq(stored, now);
    forall i | 0 <= i < |stats| ensures Kept(stats[i], now) {
      if i < |kept| {
        RecentMember(stored, now, kept[i]);
      }
    }
  }

  /** After a completed run over devices with distinct files, every device's
      file holds its own record and a history that ends with exactly one
      sample stamped `now`, preceded by the stored samples of the last 14
      days in their stored order; so every sample in it is recent. A device
      with no file or a stub starts from an empty history. */
  lemma SingleRunHistories(fs: FileSystem, devices: seq<Device>, now: int, draw: nat -> nat)
    requires DistinctPaths(devices)
    ensures var run := UpdateDevices(fs, devices, now, SingleRewrite(now, draw));
      run.outcome.Success? ==>
        && run.outcome.value == |devices|
        && forall k :: 0 <= k < |devices| ==>
             var p := PathOf(devices[k]);
             && p in run.files && StoredStatistics(fs, p).Success?
             && var stored := StoredStatistics(fs, p).value;
             var history := run.files[p].content;
             && history.DeviceHistory? && history.deviceInfo == devices[k]
             && |history.statistics| >= 1
             && history.statistics[|history.statistics| - 1].timestamp == Some(now)
             && history.statistics[..|history.statistics| - 1] == Recent(stored, now)
             && IsSubseq(history.statistics[..|history.statistics| - 1], stored)
             && (forall i :: 0 <= i < |history.statistics| ==> Kept(history.statistics[i], now))
             && ((p !in fs || fs[p].content.DeviceStub?) ==> |history.statistics| == 1)
  {
    UpdateDevicesCount(fs, devices, now, SingleRewrite(now, draw));
    if UpdateDevices(fs, devices, now, SingleRewrite(now, draw)).outcome.Success? {
      forall k | 0 <= k < |devices|
        ensures var run := UpdateDevices(fs, devices, now, SingleRewrite(now, draw));
          var p := PathOf(devices[k]);
          && p in run.files && StoredStatistics(fs, p).Success?
          && var stored := StoredStatistics(fs, p).value;
          var history := run.files[p].content;
          && history.DeviceHistory? && history.deviceInfo == devices[k]
          && |history.statistics| >= 1
          && history.statistics[|history.statistics| - 1].timestamp == Some(now)
          && history.statistics[..|history.statistics| - 1] == Recent(stored, now)
          && IsSubseq(history.statistics[..|history.statistics| - 1], stored)
          && (forall i :: 0 <= i < |history.statistics| ==> Kept(history.statistics[i], now))
          && ((p !in fs || fs[p].content.DeviceStub?) ==> |history.statistics| == 1)
      {
        SingleHistory(fs, devices, now, draw, k);
      }
    }
  }

  /** A run over the devices of a freshly built fleet: every device file is
      a stub, so the run completes, leaves `devices.json` as it was, and gives
      each device a history of exactly its one new sample. */
  lemma FreshFleetRun(fs: FileSystem, built: FileSystem, devices: seq<Device>, now: int, draw: nat -> nat)
    requires FakeFleet.FreshFleetFolder(fs) && FakeFleet.StubsWritten(fs, built - {DevicesJson}, devices, now)
    requires DistinctPaths(devices)
    ensures var run := UpdateDevices(built, devices, now, SingleRewrite(now, draw));
      && run.outcome == Success(|devices|)
      && (DevicesJson in run.files <==> DevicesJson in built)
      && (DevicesJson in built ==> run.files[DevicesJson] == built[DevicesJson])
      && forall k :: 0 <= k < |devices| ==>
           PathOf(devices[k]) in run.files &&
           run.files[PathOf(devices[k])] == File(DeviceHistory(devices[k], SingleServerData(now, draw(k))), now)
  {
    FakeFleet.FreshStubs(fs, built, devices, now);
    UpdateDevicesSucceeds(built, devices, now, SingleRewrite(now, draw));
    UpdateDevicesCount(built, devices, now, SingleRewrite(now, draw));
    UpdateDevicesFrame(built, devices, now, SingleRewrite(now, draw), DevicesJson);
    var run := UpdateDevices(built, devices, now, SingleRewrite(now, draw));
    forall k | 0 <= k < |devices|
      ensures PathOf(devices[k]) in run.files &&
        run.files[PathOf(devices[k])] == File(DeviceHistory(devices[k], SingleServerData(now, draw(k))), now)
    {
      FreshHistory(built, devices, now, draw, k);
    }
  }

  lemma FreshHistory(built: FileSystem, devices: seq<Device>, now: int, draw: nat -> nat, k: nat)
    requires DistinctPaths(devices) && k < |devices|
    requires StoredStatistics(built, PathOf(devices[k])) == Success([])
    requires UpdateDevices(built, devices, now, SingleRewrite(now, draw)).outcome.Success?
    ensures var run := UpdateDevices(built, devices, now, SingleRewrite(now, draw));
      PathOf(devices[k]) in run.files &&
      run.files[PathOf(devices[k])] == File(DeviceHistory(devices[k], SingleServerData(now, draw(k))), now)
  {
    UpdateDevicesWrites(built, devices, now, SingleRewrite(now, draw));
      assert Recent([], now) == [];
      assert SingleRewrite(now, draw)(k, []) == SingleServerData(now, draw(k));
  }

  /** `main`: load or build the inventory with `create_fake_servers`, then
      run `create_performance_stats` over it. A `devices.json` that cannot be
      loaded ends the script with nothing written. On a fresh fleet folder
      the run updates all 360 generated devices, leaves the new inventory in
      place, and gives each device a history of exactly its one new sample. */
  method RunGenerator(fs: FileSystem, now: int, draw: nat -> nat)
    returns (devices: Result<seq<Device>, IoError>, r: Result<nat, IoError>, fs': FileSystem)
    ensures FakeFleet.WellFormedSites(FakeFleet.SiteOptions)
    ensures DevicesJson in fs ==> devices == ReadInventory(fs)
    ensures DevicesJson !in fs ==>
      && devices == Success(Dedup(FakeFleet.FleetRecords(FakeFleet.SiteOptions, FakeFleet.ProductVendors, FakeFleet.Envs, FakeFleet.DevicesPerProduct)))
      && exists built :: FakeFleet.Rebuilt(fs, built, devices.value, now)
                        && Run(r, fs') == UpdateDevices(built, devices.value, now, SingleRewrite(now, draw))
    ensures devices.Failure? ==> r == Failure(devices.error) && fs' == fs
    ensures DevicesJson in fs && devices.Success? ==>
      Run(r, fs') == UpdateDevices(fs, devices.value, now, SingleRewrite(now, draw))
    ensures FakeFleet.FreshFleetFolder(fs) ==>
      && devices.Success? && |devices.value| == 360 && r == Success(360)
      && DevicesJson in fs' && fs'[DevicesJson] == File(Inventory(devices.value), now)
      && forall k :: 0 <= k < |devices.value| ==>
           PathOf(devices.value[k]) in fs' &&
           fs'[PathOf(devices.value[k])] == File(DeviceHistory(devices.value[k], SingleServerData(now, draw(k))), now)
  {
    var built;
    devices, built := FakeFleet.CreateFakeServers(fs, now);
    if devices.Failure? {
      return devices, Failure(devices.error), fs;
    }
    r, fs' := CreatePerformanceStats(built, devices.value, now, draw);
    if DevicesJson !in fs {
      assert FakeFleet.Rebuilt(fs, built, devices.value, now);
    }
    if FakeFleet.FreshFleetFolder(fs) {
      FreshFleetRun(fs, built, devices.value, now, draw);
    }
  }
}
