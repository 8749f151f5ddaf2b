/** The per-device update loop both generators run over the inventory: read
    the device's file (a missing file or one without "statistics" gives an
    empty history), compute the new statistics from the old ones, and write
    `{"device_info": device, "statistics": ...}` back. A file that is not a
    JSON object raises, which ends the run with the files written so far. */
module DeviceUpdates {
  import opened Common
  import opened Store

  /** The new statistics of the `k`-th device, given its stored ones. */
  type Rewrite = (nat, seq<Sample>) -> seq<Sample>

  function PathOf(d: Device): Path {
    DevicePath(d.siteName, d.deviceName)
  }

  /** No two devices of the list share a file. */
  ghost predicate DistinctPaths(devices: seq<Device>) {
    forall i, j :: 0 <= i < j < |devices| ==> PathOf(devices[i]) != PathOf(devices[j])
  }

  /** The outcome of a run: the update count or the exception that ended
      it, and the files it leaves. */
  datatype Run = Run(outcome: Result<nat, IoError>, files: FileSystem)

  /** The history the `k`-th device gets when its stored statistics are
      `stats`. */
  function Updated(d: Device, k: nat, stats: seq<Sample>, rewrite: Rewrite, now: int): File {
    File(DeviceHistory(d, rewrite(k, stats)), now)
  }

  /** The loop body for the `k`-th device `d`, after the run so far. */
  function Step(before: Run, d: Device, k: nat, now: int, rewrite: Rewrite): Run {
    if before.outcome.Failure? then before
    else
      match StoredStatistics(before.files, PathOf(d))
      case Failure(e) => Run(Failure(e), before.files)
      case Success(stats) => Run(Success(before.outcome.value + 1), before.files[PathOf(d) := Updated(d, k, stats, rewrite, now)])
  }

  /** The run over the devices in list order. */
  function UpdateDevices(fs: FileSystem, devices: seq<Device>, now: int, rewrite: Rewrite): Run
    decreases |devices|
  {
    if devices == [] then Run(Success(0), fs)
    else
      var k := |devices| - 1;
      Step(UpdateDevices(fs, devices[..k], now, rewrite), devices[k], k, now, rewrite)
  }

  /** The run over one more device is one more loop body. */
  lemma UpdateDevicesPrefix(fs: FileSystem, devices: seq<Device>, now: int, rewrite: Rewrite, i: nat)
    requires i < |devices|
    ensures UpdateDevices(fs, devices[..i + 1], now, rewrite)
         == Step(UpdateDevices(fs, devices[..i], now, rewrite), devices[i], i, now, rewrite)
  {
    assert devices[..i + 1][..i] == devices[..i];
  }

  /** A completed run counts every device once. */
  lemma {:induction false} UpdateDevicesCount(fs: FileSystem, devices: seq<Device>, now: int, rewrite: Rewrite)
    ensures var run := UpdateDevices(fs, devices, now, rewrite);
      run.outcome.Success? ==> run.outcome.value == |devices|
    decreases |devices|
  {
    if devices != [] {
      UpdateDevicesCount(fs, devices[..|devices| - 1], now, rewrite);
    }
  }

  /** A file that belongs to none of the devices is left as it was. */
  lemma {:induction false} UpdateDevicesFrame(fs: FileSystem, devices: seq<Device>, now: int, rewrite: Rewrite, p: Path)
    requires forall k :: 0 <= k < |devices| ==> PathOf(devices[k]) != p
    ensures var files := UpdateDevices(fs, devices, now, rewrite).files;
      (p in files <==> p in fs) && (p in fs ==> files[p] == fs[p])
    decreases |devices|
  {
    if devices != [] {
      var pre := devices[..|devices| - 1];
      forall k | 0 <= k < |pre| ensures PathOf(pre[k]) != p {
        assert pre[k] == devices[k];
      }
      UpdateDevicesFrame(fs, pre, now, rewrite, p);
    }
  }

  /** A run never makes a file the generators can read unreadable: it only
      writes device histories. */
  lemma {:induction false} UpdateDevicesKeepsReadable(fs: FileSystem, devices: seq<Device>, now: int, rewrite: Rewrite, p: Path)
    requires StoredStatistics(fs, p).Success?
    ensures StoredStatistics(UpdateDevices(fs, devices, now, rewrite).files, p).Success?
    decreases |devices|
  {
    if devices != [] {
      UpdateDevicesKeepsReadable(fs, devices[..|devices| - 1], now, rewrite, p);
    }
  }

  /** When every device's file can be read at the start, the run completes,
      whether or not two devices share a file. */
  lemma {:induction false} UpdateDevicesSucceeds(fs: FileSystem, devices: seq<Device>, now: int, rewrite: Rewrite)
    requires forall k :: 0 <= k < |devices| ==> StoredStatistics(fs, PathOf(devices[k])).Success?
    ensures UpdateDevices(fs, devices, now, rewrite).outcome.Success?
    decreases |devices|
  {
    if devices != [] {
      var last := |devices| - 1;
      var pre := devices[..last];
      forall k | 0 <= k < |pre| ensures StoredStatistics(fs, PathOf(pre[k])).Success? {
        assert pre[k] == devices[k];
      }
      UpdateDevicesSucceeds(fs, pre, now, rewrite);
      UpdateDevicesKeepsReadable(fs, pre, now, rewrite, PathOf(devices[last]));
    }
  }

  lemma DistinctPathsPrefix(devices: seq<Device>, m: nat)
    requires DistinctPaths(devices) && m <= |devices|
    ensures DistinctPaths(devices[..m])
    ensures forall k :: 0 <= k < m ==> devices[..m][k] == devices[k]
    ensures m < |devices| ==> forall k :: 0 <= k < m ==> PathOf(devices[..m][k]) != PathOf(devices[m])
  {
  }

  /** With distinct files, a completed run leaves in each device's file that
      device's record and the rewrite of the statistics it held before the
      run. */
  lemma {:induction false} UpdateDevicesWrites(fs: FileSystem, devices: seq<Device>, now: int, rewrite: Rewrite)
    requires DistinctPaths(devices)
    ensures var run := UpdateDevices(fs, devices, now, rewrite);
      run.outcome.Success? ==>
        forall k :: 0 <= k < |devices| ==>
          && StoredStatistics(fs, PathOf(devices[k])).Success?
          && PathOf(devices[k]) in run.files
          && run.files[PathOf(devices[k])] == Updated(devices[k], k, StoredStatistics(fs, PathOf(devices[k])).value, rewrite, now)
    decreases |devices|
  {
    if devices != [] {
      var last := |devices| - 1;
      var pre := devices[..last];
      var d := devices[last];
      DistinctPathsPrefix(devices, last);
      UpdateDevicesWrites(fs, pre, now, rewrite);
      UpdateDevicesFrame(fs, pre, now, rewrite, PathOf(d));
    }
  }

  /** With distinct files, the device whose unreadable file ended a run. */
  lemma {:induction false} UpdateDevicesFailureIndex(fs: FileSystem, devices: seq<Device>, now: int, rewrite: Rewrite)
    returns (k: nat)
    requires DistinctPaths(devices) && UpdateDevices(fs, devices, now, rewrite).outcome.Failure?
    ensures k < |devices| && StoredStatistics(fs, PathOf(devices[k])).Failure?
    decreases |devices|
  {
    var last := |devices| - 1;
    var pre := devices[..last];
    DistinctPathsPrefix(devices, last);
    if UpdateDevices(fs, pre, now, rewrite).outcome.Failure? {
      k := UpdateDevicesFailureIndex(fs, pre, now, rewrite);
    } else {
      UpdateDevicesFrame(fs, pre, now, rewrite, PathOf(devices[last]));
      k := last;
    }
  }

  /** With distinct files, a run ends early exactly when some device's file
      is not a JSON object. */
  lemma UpdateDevicesFails(fs: FileSystem, devices: seq<Device>, now: int, rewrite: Rewrite)
    requires DistinctPaths(devices)
    ensures UpdateDevices(fs, devices, now, rewrite).outcome.Failure?
        <==> exists k :: 0 <= k < |devices| && StoredStatistics(fs, PathOf(devices[k])).Failure?
  {
    if UpdateDevices(fs, devices, now, rewrite).outcome.Failure? {
      var k := UpdateDevicesFailureIndex(fs, devices, now, rewrite);
    } else {
      UpdateDevicesWrites(fs, devices, now, rewrite);
    }
  }

  /** Once the run has ended early, the remaining devices are not touched. */
  lemma {:induction false} FailureIsFinal(fs: FileSystem, devices: seq<Device>, now: int, rewrite: Rewrite, i: nat)
    requires i <= |devices| && UpdateDevices(fs, devices[..i], now, rewrite).outcome.Failure?
    ensures UpdateDevices(fs, devices, now, rewrite) == UpdateDevices(fs, devices[..i], now, rewrite)
    decreases |devices|
  {
    if i < |devices| {
      var pre := devices[..|devices| - 1];
      assert pre[..i] == devices[..i];
      FailureIsFinal(fs, pre, now, rewrite, i);
    } else {
      assert devices[..i] == devices;
    }
  }

  /** One loop body that reads the device's statistics and writes its new
      history. */
  lemma StepWrites(fs: FileSystem, devices: seq<Device>, now: int, rewrite: Rewrite, i: nat, count: nat, files: FileSystem, stats: seq<Sample>)
    requires i < |devices| && UpdateDevices(fs, devices[..i], now, rewrite) == Run(Success(count), files)
    requires StoredStatistics(files, PathOf(devices[i])) == Success(stats)
    ensures UpdateDevices(fs, devices[..i + 1], now, rewrite)
         == Run(Success(count + 1), files[PathOf(devices[i]) := Updated(devices[i], i, stats, rewrite, now)])
  {
    UpdateDevicesPrefix(fs, devices, now, rewrite, i);
  }

  /** One loop body whose read raises ends the whole run there. */
  lemma StepFails(fs: FileSystem, devices: seq<Device>, now: int, rewrite: Rewrite, i: nat, count: nat, files: FileSystem)
    requires i < |devices| && UpdateDevices(fs, devices[..i], now, rewrite) == Run(Success(count), files)
    requires StoredStatistics(files, PathOf(devices[i])).Failure?
    ensures UpdateDevices(fs, devices, now, rewrite) == Run(Failure(StoredStatistics(files, PathOf(devices[i])).error), files)
  {
    UpdateDevicesPrefix(fs, devices, now, rewrite, i);
    FailureIsFinal(fs, devices, now, rewrite, i + 1);
  }
}
