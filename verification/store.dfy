/** The records the program stores as JSON, and the file system it keeps them
    in, abstracted to a map from path to (content, modification time). */
module Store {
  import opened Common

  /** One entry of `devices.json`, written by `create_fake_servers`. */
  datatype Device = Device(siteName: string, productName: string, environment: string, deviceName: string)

  /** One performance sample. The timestamp is in whole seconds; `None` stands
      for a sample whose "timestamp" key is missing or does not parse. The
      floating-point metrics are not modelled. */
  datatype Sample = Sample(timestamp: Option<int>, processCount: int)

  /** One entry of the site map: a (site, product) pair. */
  datatype Bucket = Bucket(siteName: string, productName: string)

  /** One `{device_name: statistics}` entry of an aggregated chart dataset. */
  datatype Entry = Entry(deviceName: string, statistics: seq<Sample>)

  /** What a file holds. Each JSON-shaped kind is the shape one part of the
      program writes; `Text` is anything that is not JSON (the rendered HTML
      charts, or a corrupt file). */
  datatype Content =
    | Text(raw: string)
    | Inventory(devices: seq<Device>)
    | DeviceStub(device: Device)
    | DeviceHistory(deviceInfo: Device, statistics: seq<Sample>)
    | SiteMap(buckets: seq<Bucket>)
    | Dataset(entries: seq<Entry>)

  datatype File = File(content: Content, mtime: int)

  /** Paths under the fleet folder (`server_fleet`), its per-site folders,
      and the two static folders. */
  datatype Path =
    | FleetFile(name: string)
    | SiteFile(site: string, name: string)
    | ChartFile(name: string)
    | JsonFile(name: string)

  type FileSystem = map<Path, File>

  /** The exceptions reading a file can raise: `FileNotFoundError`, a JSON
      decode or type error, and `KeyError`. */
  datatype IoError = NotFound(path: Path) | Malformed(path: Path) | MissingKey(path: Path, key: string)

  const DevicesJson := FleetFile("devices.json")

  /** `server_fleet/<site>/<device>.json` */
  function DevicePath(site: string, deviceName: string): Path {
    SiteFile(site, deviceName + ".json")
  }

  /** `json.load` of `devices.json`. */
  function ReadInventory(fs: FileSystem): Result<seq<Device>, IoError> {
    if DevicesJson !in fs then Failure(NotFound(DevicesJson))
    else match fs[DevicesJson].content
      case Inventory(ds) => Success(ds)
      case _ => Failure(Malformed(DevicesJson))
  }

  /** `json.load` of a site map file. */
  function ReadSiteMap(fs: FileSystem, p: Path): Result<seq<Bucket>, IoError> {
    if p !in fs then Failure(NotFound(p))
    else match fs[p].content
      case SiteMap(bs) => Success(bs)
      case _ => Failure(Malformed(p))
  }

  /** `open(p).read()` of an HTML file. */
  function ReadText(fs: FileSystem, p: Path): Result<string, IoError> {
    if p !in fs then Failure(NotFound(p))
    else match fs[p].content
      case Text(t) => Success(t)
      case _ => Failure(Malformed(p))
  }

  /** The statistics the data generators carry over from a device file: none
      when the file does not exist or has no "statistics" key (the `KeyError`
      is caught), the stored list otherwise; a file that is not a JSON object
      raises. */
  function StoredStatistics(fs: FileSystem, p: Path): (r: Result<seq<Sample>, IoError>)
    ensures p !in fs ==> r == Success([])
    ensures p in fs && fs[p].content.DeviceStub? ==> r == Success([])
    ensures p in fs && fs[p].content.DeviceHistory? ==> r == Success(fs[p].content.statistics)
    ensures r.Failure? <==> p in fs && !fs[p].content.DeviceStub? && !fs[p].content.DeviceHistory?
  {
    if p !in fs then Success([])
    else match fs[p].content
      case DeviceStub(_) => Success([])
      case DeviceHistory(_, stats) => Success(stats)
      case _ => Failure(Malformed(p))
  }
}
