/** `data_generator_days.py` past the inventory: a minute-by-minute series
    covering the 91 days before today, appended in full to every device's
    stored history. */
module DaysBatch {
  import opened Common
  import opened Seqs
  import opened Store
  import opened Samples
  import opened DeviceUpdates
  import FakeFleet

  const DaysBack: int := 91

  /** Peak hours of this generator: 8:00 up to 13:00. */
  predicate IsPeakHour(hour: int) {
    8 <= hour < 13
  }

  /** `datetime.now() - timedelta(days=91)` */
  function StartTime(now: int): int {
    now - DaysBack * SecondsPerDay
  }

  /** Midnight at the start of today. */
  function EndTime(now: int): int {
    now - now % SecondsPerDay
  }

  /** `int((end_time - start_time).total_seconds() // 60)` */
  function TotalMinutes(now: int): (n: nat)
    ensures StartTime(now) + 60 * n <= EndTime(now) < StartTime(now) + 60 * (n + 1)
  {
    (EndTime(now) - StartTime(now)) / 60
  }

  /** The sample of minute `i`, stamped `start_time + i` minutes. */
  function MinuteSample(now: int, i: nat, base: nat): Sample {
    var t := StartTime(now) + 60 * i;
    Sample(Some(t), ProcessCount(base, IsPeakHour(HourOf(t))))
  }

  /** The first `n` samples of the series; `draw(i)` is the process-count
      draw of minute `i`. */
  function Minutes(now: int, draw: nat -> nat, n: nat): (r: seq<Sample>)
    ensures |r| == n
  {
    if n == 0 then [] else Minutes(now, draw, n - 1) + [MinuteSample(now, n - 1, draw(n - 1))]
  }

  lemma {:induction false} MinutesAt(now: int, draw: nat -> nat, n: nat, i: nat)
    requires i < n
    ensures Minutes(now, draw, n)[i] == MinuteSample(now, i, draw(i))
  {
    if i < n - 1 {
      MinutesAt(now, draw, n - 1, i);
    }
  }

  /** The whole series. */
  function MinuteSeries(now: int, draw: nat -> nat): (r: seq<Sample>)
    ensures |r| == TotalMinutes(now)
  {
    Minutes(now, draw, TotalMinutes(now))
  }

  /** The series starts 91 days back, steps by exactly one minute, stops
      before today's midnight, and never reports more than 200 processes;
      peak-hour samples use the 1.4 multiplier. */
  lemma MinuteSeriesShape(now: int, draw: nat -> nat)
    ensures var r := MinuteSeries(now, draw);
      && (|r| > 0 ==> r[0].timestamp == Some(StartTime(now)))
      && (forall i :: 0 <= i < |r| ==> r[i].timestamp.Some?)
      && (forall i :: 0 <= i < |r| ==> StartTime(now) <= r[i].timestamp.value < EndTime(now))
      && (forall i :: 0 < i < |r| ==> r[i].timestamp.value == r[i - 1].timestamp.value + 60)
      && (forall i, j :: 0 <= i < j < |r| ==> r[i].timestamp.value < r[j].timestamp.value)
      && (forall i :: 0 <= i < |r| ==> r[i].processCount <= 200)
      && (forall i :: 0 <= i < |r| ==>
            r[i].processCount == ProcessCount(draw(i), IsPeakHour(HourOf(r[i].timestamp.value))))
  {
    var r := MinuteSeries(now, draw);
    forall i | 0 <= i < |r|
      ensures r[i] == MinuteSample(now, i, draw(i))
    {
      MinutesAt(now, draw, |r|, i);
    }
    forall i | 0 <= i < |r|
      ensures StartTime(now) <= r[i].timestamp.value < EndTime(now)
    {
      assert 60 * i <= 60 * (TotalMinutes(now) - 1);
    }
  }

  /** `generate_fake_performance_data` (and `generate_performance_stats`,
      which only returns its result). */
  method GenerateFakePerformanceData(now: int, draw: nat -> nat) returns (performanceData: seq<Sample>)
    ensures performanceData == MinuteSeries(now, draw)
  {
    performanceData := [];
    var startTime := now - DaysBack * SecondsPerDay;
    var endTime := now - now % SecondsPerDay;
    var totalMinutes := (endTime - startTime) / 60;
    for i := 0 to totalMinutes
      invariant performanceData == Minutes(now, draw, i)
    {
      var timestamp := startTime + 60 * i;
      var hour := HourOf(timestamp);
      var isPeakHours := 8 <= hour < 13;
      var data := Sample(Some(timestamp), ProcessCount(draw(i), isPeakHours));
      performanceData := performanceData + [data];
    }
  }

  /** The draws of the `k`-th device's series. */
  function DeviceDraws(draw: (nat, nat) -> nat, k: nat): nat -> nat {
    i => draw(k, i)
  }

  /** What `update_performance_stats` writes for the `k`-th device: all its
      stored samples followed by a freshly generated series. */
  function DaysRewrite(now: int, draw: (nat, nat) -> nat): Rewrite {
    (k: nat, stats: seq<Sample>) => stats + MinuteSeries(now, DeviceDraws(draw, k))
  }

  /** `update_performance_stats`; `draw(k, i)` is the process-count draw of
      minute `i` in the `k`-th device's series. */
  method UpdatePerformanceStats(fs: FileSystem, devicesList: seq<Device>, now: int, draw: (nat, nat) -> nat)
    returns (r: Result<nat, IoError>, fs': FileSystem)
    ensures Run(r, fs') == UpdateDevices(fs, devicesList, now, DaysRewrite(now, draw))
  {
    var deviceUpdatesCount := 0;
    fs' := fs;
    for i := 0 to |devicesList|
      invariant UpdateDevices(fs, devicesList[..i], now, DaysRewrite(now, draw)) == Run(Success(deviceUpdatesCount), fs')
    {
      var device := devicesList[i];
      var stats := GenerateFakePerformanceData(now, DeviceDraws(draw, i));
      var deviceFilePath := DevicePath(device.siteName, device.deviceName);
      var statsData := [];
      if deviceFilePath in fs' {
        match fs'[deviceFilePath].content {
          case DeviceHistory(_, statistics) =>
            statsData := statistics;
          case DeviceStub(_) =>
          case _ =>
            StepFails(fs, devicesList, now, DaysRewrite(now, draw), i, deviceUpdatesCount, fs');
            r := Failure(Malformed(deviceFilePath));
            return;
        }
      }
      StepWrites(fs, devicesList, now, DaysRewrite(now, draw), i, deviceUpdatesCount, fs', statsData);
      assert statsData + stats == DaysRewrite(now, draw)(i, statsData);
      statsData := statsData + stats;
      deviceUpdatesCount := deviceUpdatesCount + 1;
      fs' := fs'[deviceFilePath := File(DeviceHistory(device, statsData), now)];
    }
    assert devicesList[..|devicesList|] == devicesList;
    r := Success(deviceUpdatesCount);
  }

  /** The history one device has after a completed run. */
  lemma DaysHistory(fs: FileSystem, devices: seq<Device>, now: int, draw: (nat, nat) -> nat, k: nat)
    requires DistinctPaths(devices) && k < |devices|
    requires UpdateDevices(fs, devices, now, DaysRewrite(now, draw)).outcome.Success?
    ensures var run := UpdateDevices(fs, devices, now, DaysRewrite(now, draw));
      var p := PathOf(devices[k]);
      && p in run.files && StoredStatistics(fs, p).Success?
      && var stored := StoredStatistics(fs, p).value;
      var history := run.files[p].content;
      && history.DeviceHistory? && history.deviceInfo == devices[k]
      && |history.statistics| == |stored| + TotalMinutes(now)
      && history.statistics[..|stored|] == stored
      && history.statistics[|stored|..] == MinuteSeries(now, DeviceDraws(draw, k))
      && ((p !in fs || fs[p].content.DeviceStub?) ==> history.statistics == MinuteSeries(now, DeviceDraws(draw, k)))
  {
    UpdateDevicesWrites(fs, devices, now, DaysRewrite(now, draw));
    var run := UpdateDevices(fs, devices, now, DaysRewrite(now, draw));
    var p := PathOf(devices[k]);
    var stored := StoredStatistics(fs, p).value;
    var series := MinuteSeries(now, DeviceDraws(draw, k));
    assert run.files[p].content == DeviceHistory(devices[k], stored + series);
    assert (stored + series)[..|stored|] == stored;
    assert (stored + series)[|stored|..] == series;
    assert stored == [] ==> stored + series == series;
  }

  /** After a completed run over devices with distinct files, every device's
      file holds its own record, its stored samples unchanged as a prefix,
      and then its new series of `TotalMinutes(now)` samples. A device with
      no file or a stub holds only the new series. */
  lemma DaysRunHistories(fs: FileSystem, devices: seq<Device>, now: int, draw: (nat, nat) -> nat)
    requires DistinctPaths(devices)
    ensures var run := UpdateDevices(fs, devices, now, DaysRewrite(now, draw));
      run.outcome.Success? ==>
        && run.outcome.value == |devices|
        && forall k :: 0 <= k < |devices| ==>
             var p := PathOf(devices[k]);
             && p in run.files && StoredStatistics(fs, p).Success?
             && var stored := StoredStatistics(fs, p).value;
             var history := run.files[p].content;
             && history.DeviceHistory? && history.deviceInfo == devices[k]
             && |history.statistics| == |stored| + TotalMinutes(now)
             && history.statistics[..|stored|] == stored
             && history.statistics[|stored|..] == MinuteSeries(now, DeviceDraws(draw, k))
             && ((p !in fs || fs[p].content.DeviceStub?) ==> history.statistics == MinuteSeries(now, DeviceDraws(draw, k)))
  {
    UpdateDevicesCount(fs, devices, now, DaysRewrite(now, draw));
    if UpdateDevices(fs, devices, now, DaysRewrite(now, draw)).outcome.Success? {
      forall k | 0 <= k < |devices|
        ensures var run := UpdateDevices(fs, devices, now, DaysRewrite(now, draw));
          var p := PathOf(devices[k]);
          && p in run.files && StoredStatistics(fs, p).Success?
          && var stored := StoredStatistics(fs, p).value;
          var history := run.files[p].content;
          && history.DeviceHistory? && history.deviceInfo == devices[k]
          && |history.statistics| == |stored| + TotalMinutes(now)
          && history.statistics[..|stored|] == stored
          && history.statistics[|stored|..] == MinuteSeries(now, DeviceDraws(draw, k))
          && ((p !in fs || fs[p].content.DeviceStub?) ==> history.statistics == MinuteSeries(now, DeviceDraws(draw, k)))
      {
        DaysHistory(fs, devices, now, draw, k);
      }
    }
  }

  /** A run over the devices of a freshly built fleet: every device file is
      a stub, so the run completes, leaves `devices.json` as it was, and gives
      each device exactly its new series. */
  lemma FreshFleetRun(fs: FileSystem, built: FileSystem, devices: seq<Device>, now: int, draw: (nat, nat) -> nat)
    requires FakeFleet.FreshFleetFolder(fs) && FakeFleet.StubsWritten(fs, built - {DevicesJson}, devices, now)
    requires DistinctPaths(devices)
    ensures var run := UpdateDevices(built, devices, now, DaysRewrite(now, draw));
      && run.outcome == Success(|devices|)
      && (DevicesJson in run.files <==> DevicesJson in built)
      && (DevicesJson in built ==> run.files[DevicesJson] == built[DevicesJson])
      && forall k :: 0 <= k < |devices| ==>
           PathOf(devices[k]) in run.files &&
           run.files[PathOf(devices[k])] == File(DeviceHistory(devices[k], MinuteSeries(now, DeviceDraws(draw, k))), now)
  {
    FakeFleet.FreshStubs(fs, built, devices, now);
    UpdateDevicesSucceeds(built, devices, now, DaysRewrite(now, draw));
    UpdateDevicesCount(built, devices, now, DaysRewrite(now, draw));
    UpdateDevicesFrame(built, devices, now, DaysRewrite(now, draw), DevicesJson);
    var run := UpdateDevices(built, devices, now, DaysRewrite(now, draw));
    forall k | 0 <= k < |devices|
      ensures PathOf(devices[k]) in run.files &&
        run.files[PathOf(devices[k])] == File(DeviceHistory(devices[k], MinuteSeries(now, DeviceDraws(draw, k))), now)
    {
      FreshHistory(built, devices, now, draw, k);
    }
  }

  lemma FreshHistory(built: FileSystem, devices: seq<Device>, now: int, draw: (nat, nat) -> nat, k: nat)
    requires DistinctPaths(devices) && k < |devices|
    requires StoredStatistics(built, PathOf(devices[k])) == Success([])
    requires UpdateDevices(built, devices, now, DaysRewrite(now, draw)).outcome.Success?
    ensures var run := UpdateDevices(built, devices, now, DaysRewrite(now, draw));
      PathOf(devices[k]) in run.files &&
      run.files[PathOf(devices[k])] == File(DeviceHistory(devices[k], MinuteSeries(now, DeviceDraws(draw, k))), now)
  {
    UpdateDevicesWrites(built, devices, now, DaysRewrite(now, draw));
      assert DaysRewrite(now, draw)(k, []) == [] + MinuteSeries(now, DeviceDraws(draw, k));
      assert [] + MinuteSeries(now, DeviceDraws(draw, k)) == MinuteSeries(now, DeviceDraws(draw, k));
  }

  /** The script's top level: load or build the inventory with
      `create_fake_servers`, then run `update_performance_stats` over it. A
      `devices.json` that cannot be loaded ends the script with nothing
      written. On a fresh fleet folder the run updates all 360 generated
      devices, leaves the new inventory in place, and gives each device
      exactly its new series. */
  method RunGenerator(fs: FileSystem, now: int, draw: (nat, nat) -> nat)
    returns (devices: Result<seq<Device>, IoError>, r: Result<nat, IoError>, fs': FileSystem)
    ensures FakeFleet.WellFormedSites(FakeFleet.SiteOptions)
    ensures DevicesJson in fs ==> devices == ReadInventory(fs)
    ensures DevicesJson !in fs ==>
      && devices == Success(Dedup(FakeFleet.FleetRecords(FakeFleet.SiteOptions, FakeFleet.ProductVendors, FakeFleet.Envs, FakeFleet.DevicesPerProduct)))
      && exists built :: FakeFleet.Rebuilt(fs, built, devices.value, now)
                        && Run(r, fs') == UpdateDevices(built, devices.value, now, DaysRewrite(now, draw))
    ensures devices.Failure? ==> r == Failure(devices.error) && fs' == fs
    ensures DevicesJson in fs && devices.Success? ==>
      Run(r, fs') == UpdateDevices(fs, devices.value, now, DaysRewrite(now, draw))
    ensures FakeFleet.FreshFleetFolder(fs) ==>
      && devices.Success? && |devices.value| == 360 && r == Success(360)
      && DevicesJson in fs' && fs'[DevicesJson] == File(Inventory(devices.value), now)
      && forall k :: 0 <= k < |devices.value| ==>
           PathOf(devices.value[k]) in fs' &&
           fs'[PathOf(devices.value[k])] == File(DeviceHistory(devices.value[k], MinuteSeries(now, DeviceDraws(draw, k))), now)
  {
    var built;
    devices, built := FakeFleet.CreateFakeServers(fs, now);
    if devices.Failure? {
      return devices, Failure(devices.error), fs;
    }
    r, fs' := UpdatePerformanceStats(built, devices.value, now, draw);
    if DevicesJson !in fs {
      assert FakeFleet.Rebuilt(fs, built, devices.value, now);
    }
    if FakeFleet.FreshFleetFolder(fs) {
      FreshFleetRun(fs, built, devices.value, now, draw);
    }
  }
}
