# Infrastructure monitor: report cache and fleet generators in Dafny

This project models the core of a small Flask monitoring application. It has two parts.

The first part is the web application's report cache in `app.py`:
- the staleness rule for cached files;
- the site map, which crosses every site with every product;
- the chart dataset for one (site, product) bucket, collected from the per-device history files;
- the three request handlers that choose between serving a stored artifact and rebuilding it (`fetch_chart`, `fetch_performance_charts`, `fetch_json`).

The second part is the two scripts that fill the `server_fleet` folder:
- `create_fake_servers` derives a site id from each hyphenated site name and composes device names from it. It writes one stub file per device and the `devices.json` inventory.
- `create_performance_stats` (single-sample generator) keeps the last 14 days of each device's history and appends one new sample.
- `update_performance_stats` (batch generator) appends a minute-by-minute series for the last 91 days, up to midnight, to each device's history.

Modelling choices:
- **File system.** A value `map<Path, File>`, where a `File` is its content plus a modification time. Operations that write take the map and return the new one, and each write stamps the current time `now`.
- **Clock.** Integer seconds. One `now` is used per request or per generator run.
- **JSON content.** Typed `Content` kinds: inventory, device stub, device history, site map, dataset, and plain text for HTML or anything else.
- **Exceptions.** Python exceptions become a `Failure(IoError)` result.
- **Parameters.** Random draws, the chart renderer, and `str.upper`/`str.lower` are function parameters.
- **"Append unless already listed" loops.** These are `Dedup`: first occurrences, in order.
- **`sorted(set(xs))`.** This is `SortDistinct`, a strictly sorted list in code-point lexicographic order.

Module layout:
- `common.dfy`: `Option`, `Result`.
- `seqs.dfy`: `Dedup`, `NoDup`, subsequences.
- `strings.dfy`: ordering, `sorted`, `split`/`join`, `str(n)`, `zfill`.
- `store.dfy`: records, paths, and the reads the program makes.
- `app.dfy`: the web application.
- `fleet.dfy`: `create_fake_servers`. Both generator scripts carry the same copy.
- `samples.dfy`: the process-count rule.
- `history.dfy`: the per-device update loop both generators run.
- `single.dfy` and `days.dfy`: the two generators.

## Model

| member | source | states |
|---|---|---|
| Store.StoredStatistics | data_generator_single.py:169-176 | A missing device file, or one without "statistics", gives an empty history. A history file gives its stored samples. The read fails exactly when the file exists and holds neither. |
| App.IsFileOlderThanMinutes | app.py:27-57 | A missing file is never old. An existing file is old exactly when its age in seconds is strictly greater than `minutes` × 60. |
| App.StalenessBoundary | app.py:51-57 | An age equal to the threshold is not old, and one second more is old. A file that is old stays old as time advances. |
| App.RowMember | app.py:99-106 | A bucket is in a site's row exactly when it names that site and one of the products. |
| App.CrossMember | app.py:96-106 | A bucket is in the cross product exactly when its site is one of the sites and its product one of the products. |
| App.CrossLength | app.py:96-106 | The cross product has \|sites\| × \|products\| buckets. |
| App.CrossSorted | app.py:89-106 | Crossing two strictly sorted lists gives buckets strictly sorted, site first and product second. |
| App.CrossAt | app.py:98-106 | The order is site-major: position i·\|products\|+j holds (sites[i], products[j]). |
| App.BucketsSortedNoDup | app.py:104-106 | A strictly sorted bucket list has no repeated pair. |
| App.SiteMapMembership | app.py:78-106 | The site map holds a pair exactly when some device has that site and some device, possibly another, has that product. |
| App.SiteMapIncludesUnobservedPairs | app.py:96-106 | The site of any device and the product of any device form a pair of the map, even when no single device has both. |
| App.SiteMapShape | app.py:89-106 | The site map is sorted site-major and has no duplicate pair. Its length is \|distinct sites\| × \|distinct products\|. |
| App.CollectNames | app.py:81-87 | The collected lists hold each inventory record's site and product at that record's position. |
| App.AddRow | app.py:99-106 | The inner loop leaves the list as the first occurrences of everything seen so far, followed by the new site's row. |
| App.CrossProduct | app.py:96-106 | The nested loop yields the cross product, with repeated pairs dropped. |
| App.CreateChartSiteMap | app.py:65-111 | When `just_map_list` is false, the stored map is returned and nothing is written. When it is true: an unreadable inventory raises and nothing is written; otherwise the site map of the inventory is returned and written to the map path, stamped now. |
| App.MatchingMember | app.py:205-206 | A device is selected for the bucket exactly when it is in the inventory and has both the requested site and the requested product. |
| App.MatchingIsSubseq | app.py:205-206 | The selected devices keep their inventory order. |
| App.DeviceEntry | app.py:207-215 | Reading a device's entry succeeds exactly when its file, under the requested site's folder, exists and holds a device history. The entry is then the history's `device_info.device_name` mapped to its stored statistics. A missing file raises not-found at that path. A stub lacks "device_info" and raises a missing-key error for it. |
| App.EntriesSuccess | app.py:205-217 | On success there is one entry per selected device, in the devices' order, each the one read from that device's file. |
| App.EntriesFailure | app.py:211-212 | On failure the error is that of a device whose read fails, and every earlier read succeeded. The first bad file aborts the collection. |
| App.AggregatedContents | app.py:204-217 | A dataset has no duplicate entries. It holds exactly the entries read from files of devices in the bucket, and other devices contribute nothing. |
| App.AggregatedOrder | app.py:205-217 | The dataset keeps inventory order. When entry i precedes entry j in the dataset, the first occurrence of entry i among the entries read from the selected devices comes before that of entry j, and those entries are in inventory order. |
| App.AggregatedFails | app.py:205-212 | Aggregation raises exactly when some device of the bucket has a file that cannot be read. No file is skipped. |
| Seqs.DedupKeepsFirstOccurrenceOrder | app.py:216-217 | Entries kept by "append unless already present" appear in the order of their first occurrence, not sorted. |
| App.CollectSiteProductStats | app.py:204-217 | The collection loop returns the aggregated dataset, or the error of the first unreadable device file. |
| App.MatchingAppend | app.py:205-206 | Selecting from a concatenation selects from each part. |
| App.ChartArgs | app.py:166-176 | The arguments are accepted exactly when `site_name` is present and non-empty and `product_name` is present, non-empty and not "undefined". Accepted arguments are passed through unchanged. |
| App.ServeChart | app.py:228-238 | The reply carries the chart page's path and text when the page can be read, and the read's error otherwise. |
| App.CreateReportFromFile | app.py:225 | The renderer writes the rendered dataset read from the source path to the destination, stamped now. A missing source, or one that is not a dataset, raises. |
| App.FetchChart | app.py:163-238 | Rejected arguments give the usage reply before any file is touched. When both artifacts are present and fresh, nothing is read or written except the stored page, which is served. Otherwise an unreadable inventory or device file raises and nothing is written. On success the dataset is written to `site__product.json`, the page rendered from that same dataset is written to `site__product.html`, and that page is returned. |
| App.UniqueOptions | app.py:265-272 | The option loop yields the menu options: the bucket labels, distinct and sorted. |
| App.MenuOptionsSpec | app.py:265-272 | The options are strictly sorted. A string is an option exactly when it is `upper(site) + " : " + product` of some bucket of the map. |
| App.RenderMenu | app.py:274-277 | The concatenation loop produces the menu HTML. |
| App.OptionLineSingle | app.py:276 | An option line contains no line break when its option contains none. |
| App.MenuHtmlLines | app.py:274-277 | When no option contains a line break, split at line breaks, the menu is the single NONE option, then one option line per option in sorted order, then the empty piece after the final break. The text starts with the NONE line. |
| App.FetchPerformanceCharts | app.py:246-278 | The site map is rebuilt exactly when it is missing or older than 9 minutes. A fresh map is read and nothing is written. A rebuild with an unreadable inventory raises without writing. Otherwise the reply is the menu built from the map in use. |
| App.FetchJson | app.py:134-160 | A missing or empty `file` argument gives the usage reply before any file access. A name whose lower-cased form does not end in ".json" is refused. Otherwise a missing file or non-JSON content raises, and JSON content is returned. |
| Strings.SortDistinct | app.py:89-90 | The result is strictly sorted and holds exactly the strings of the input. |
| Strings.SortDistinctOfDedup | app.py:270-272 | Sorting the de-duplicated options gives the same list as sorting the set of all labels. |
| Strings.StrictlySortedUnique | app.py:89-90 | Two strictly sorted lists with the same members are equal, so `sorted(set(...))` is determined by the set. |
| Strings.LexLessTransitive | app.py:89-90 | The string order used by `sorted` is transitive. |
| Strings.LexLessTotal | app.py:89-90 | Of two different strings, one is less than the other. |
| Strings.JoinSplit | data_generator_single.py:59 | Joining the pieces of `s.split('-')` with '-' gives back `s`. |
| Strings.SplitJoin | data_generator_single.py:59 | Splitting the hyphen-joined pieces, when no piece contains a hyphen, gives back the pieces. |
| Strings.ZFill | data_generator_single.py:69 | The padded string has length max(\|s\|, width), ends with `s`, and is padded on the left with '0'. |
| Strings.ParseDecimalOfDecimal | data_generator_single.py:69 | `str(n)` reads back as `n`. |
| Strings.Counter3RoundTrip | data_generator_single.py:69 | The zero-padded counter `str(y).zfill(3)` reads back as `y`. |
| Strings.Counter3Injective | data_generator_single.py:69 | Distinct counters give distinct padded strings. |
| Strings.Counter3Width | data_generator_single.py:69 | Counters below 1000 give exactly three characters. |
| FakeFleet.SiteIdOfFiveParts | data_generator_single.py:59-61 | A site name of five hyphen-free parts yields part 0, part 1, the first character of parts 2 and 3, and part 4. |
| FakeFleet.SiteIdExample | data_generator_single.py:59-61 | "na-us-north-east-01" yields the site id "nausne01". |
| FakeFleet.SiteOptionsWellFormed | data_generator_single.py:21-32 | Every listed site name has a site id: the indexing at line 61 never raises. |
| FakeFleet.NameCounterOfRecord | data_generator_single.py:66-72 | The counter can be read back from the device name's last characters. |
| FakeFleet.AddDevice | data_generator_single.py:74-86 | A record is appended exactly when it is not listed yet. Files that existed are never changed. Every listed device has a file. Every new file is a stub of a listed device at that device's own path, stamped now. |
| FakeFleet.AddEnvRecords | data_generator_single.py:70-86 | The environment loop leaves the list as the first occurrences of what came before plus this counter's records. The stub invariant is kept. |
| FakeFleet.AddCounterRecords | data_generator_single.py:66-86 | The counter loop does the same for counters 1 to `devices_per_product`. |
| FakeFleet.AddSiteRecords | data_generator_single.py:65-86 | The vendor loop does the same for every vendor of one site. |
| FakeFleet.BuildFleet | data_generator_single.py:57-86 | The nested loops produce the de-duplicated fleet records, and keep the stub invariant. |
| FakeFleet.EnvRecordsMember | data_generator_single.py:70-79 | A record is made in the environment loop exactly when its environment is listed and it is the record for that counter. |
| FakeFleet.CounterRecordsMember | data_generator_single.py:66-79 | A record is made in the counter loop exactly when it is the record of a listed environment and a counter from 1 to `y`. |
| FakeFleet.VendorRecordsMember | data_generator_single.py:65-79 | A record is made for a site exactly when it comes from one of the vendors. |
| FakeFleet.FleetRecordsMember | data_generator_single.py:58-79 | A record is made exactly when it comes from one of the sites. |
| FakeFleet.FleetNaming | data_generator_single.py:58-79 | A record is generated exactly when its site and environment are listed and its name is site id + vendor prefix + environment + padded counter, for a vendor of the table and a counter from 1 to `devices_per_product`. |
| FakeFleet.CounterRecordsShape | data_generator_single.py:66-79 | The counter loop makes `y` × \|envs\| distinct records. |
| FakeFleet.VendorRecordsShape | data_generator_single.py:65-79 | One site has \|vendors\| × `devices_per_product` × \|envs\| distinct records. |
| FakeFleet.FleetRecordsShape | data_generator_single.py:57-79 | With distinct sites, products and environments, the fleet has \|sites\| × \|vendors\| × `devices_per_product` × \|envs\| distinct records. |
| FakeFleet.RecordOfPathOfRecord | data_generator_single.py:82 | A device's file path determines its record. |
| FakeFleet.FleetDistinctPaths | data_generator_single.py:82 | No two fleet records share a file path. |
| FakeFleet.FleetShape | data_generator_single.py:47-86 | With distinct sites, products, two-letter prefixes and environments, the "not already listed" check never drops a record. The inventory has no duplicates or shared paths, and its size is the product of the four counts. |
| FakeFleet.SiteOptionsDistinct | data_generator_single.py:21-32 | The ten site names are distinct. |
| FakeFleet.ProductVendorsDistinct | data_generator_single.py:34-44 | The nine product names are distinct. |
| FakeFleet.ProductVendorsTwoLetterPrefixes | data_generator_single.py:34-44 | The device prefixes are distinct and two letters long. |
| FakeFleet.DefaultFleetShape | data_generator_single.py:21-50 | The constant tables give 360 distinct records with distinct file paths. |
| FakeFleet.CreateFakeServers | data_generator_single.py:12-91 | An existing `devices.json` is read and returned and nothing is written. Otherwise the 360 generated records are returned and written to `devices.json`, stamped now. Stubs are added only at paths that were free, and no existing file changes. |
| FakeFleet.InventoryWriteKeepsStubs | data_generator_single.py:88-91 | Writing the inventory last leaves every stub in place. |
| FakeFleet.FreshStubs | data_generator_single.py:80-86 | From a folder with no inventory and no site files, every listed device's file is a stub, which the generators read as an empty history. |
| Samples.HourOf | data_generator_single.py:101 | The hour h lies in 0..23 and is the hour of the day the timestamp falls in: 3600·h ≤ seconds since midnight < 3600·(h+1). |
| Samples.ProcessCount | data_generator_single.py:133 | The process count never exceeds 200. Off-peak it is `min(base, 200)`. In peak hours it is the whole part of 1.4 × base when that is below 200, and 200 otherwise. |
| Samples.ProcessCountRange | data_generator_single.py:124-133 | For a draw from 50 to 150, the count lies between the draw and 200, and the peak count is at least the off-peak count. |
| SingleServer.SingleServerData | data_generator_single.py:94-136 | One sample stamped now, with a process count at most 200. The 1.4 multiplier applies exactly when 7 ≤ hour < 13. |
| SingleServer.RecentMember | data_generator_single.py:139-154 | A sample is kept exactly when it is in the input and its timestamp parses and is at least now − 14 days (inclusive). Samples with a missing or unparseable timestamp are dropped. |
| SingleServer.RecentIsSubseq | data_generator_single.py:143-156 | The filtered list is an order-preserving subsequence of the input. |
| SingleServer.RecentOfRecent | data_generator_single.py:139-156 | A list whose samples all pass the filter comes back unchanged, so filtering twice equals filtering once. |
| SingleServer.FilterLastDays | data_generator_single.py:139-156 | The filter loop computes the kept samples, in order. |
| DeviceUpdates.UpdateDevicesCount | data_generator_single.py:161-199 | A completed run returns the number of devices. |
| DeviceUpdates.UpdateDevicesFrame | data_generator_single.py:159-199 | A file that belongs to no listed device is left exactly as it was. |
| DeviceUpdates.UpdateDevicesKeepsReadable | data_generator_single.py:169-199 | A file the generators can read stays readable after a run. |
| DeviceUpdates.UpdateDevicesSucceeds | data_generator_single.py:169-176 | When every device's file is readable at the start, the run completes. |
| DeviceUpdates.UpdateDevicesWrites | data_generator_single.py:169-199 | With distinct files, a completed run leaves in each device's file that device's record and the rewrite of the statistics it held before the run, stamped now. |
| DeviceUpdates.UpdateDevicesFailureIndex | data_generator_single.py:169-176 | With distinct files, a run that raised names a device whose file was unreadable at the start. |
| DeviceUpdates.UpdateDevicesFails | data_generator_single.py:169-176 | With distinct files, a run raises exactly when some device's file is unreadable at the start. |
| DeviceUpdates.FailureIsFinal | data_generator_single.py:161-176 | Once a device's read raises, the run over the whole list ends there, and the files written so far are its result. |
| SingleServer.CreatePerformanceStats | data_generator_single.py:159-199 | The loop returns the count, or the first read error, and leaves the files the update run describes. |
| SingleServer.SingleHistory | data_generator_single.py:169-189 | After a completed run a device's file holds its inventory record and its kept old samples, in order, followed by exactly one new sample stamped now. Every sample is within the 14 days. A missing or stub file gives just the new sample. |
| SingleServer.SingleRunHistories | data_generator_single.py:159-199 | A completed run returns `len(devices_list)`, and every device's file is as the previous row describes. |
| SingleServer.FreshFleetRun | data_generator_single.py:159-199 | Starting from fresh stubs, the run completes with the device count. Each device file holds exactly its one new sample, and `devices.json` is not touched. |
| SingleServer.RunGenerator | data_generator_single.py:202-205 | An existing inventory is read and the update run applied to it. An unreadable inventory raises and changes nothing. A missing inventory is always rebuilt: the generated records are returned, and the update run is applied to the files with stubs added and `devices.json` written. From a fresh folder: 360 devices, inventory written, each file holding one sample, result 360. |
| DaysBatch.TotalMinutes | data_generator_days.py:98-105 | The series length n satisfies start + 60·n ≤ midnight today < start + 60·(n+1). |
| DaysBatch.MinutesAt | data_generator_days.py:107-147 | The i-th sample is the one built for minute i from draw i. |
| DaysBatch.MinuteSeriesShape | data_generator_days.py:94-149 | The series starts at now − 91 days and steps by 60 seconds. Timestamps strictly increase and stay before midnight today. Every process count is at most 200, and the 1.4 multiplier applies exactly when 8 ≤ hour < 13. |
| DaysBatch.GenerateFakePerformanceData | data_generator_days.py:94-149 | The minute loop produces the series. |
| DaysBatch.UpdatePerformanceStats | data_generator_days.py:180-213 | The loop returns the count, or the first read error, and leaves the files the update run describes. |
| DaysBatch.DaysHistory | data_generator_days.py:194-206 | After a completed run a device's file holds its record and its old samples unchanged as a prefix, followed by the new series. A missing or stub file gives just the series. |
| DaysBatch.DaysRunHistories | data_generator_days.py:180-213 | A completed run returns the number of devices, and every device's file is as the previous row describes. |
| DaysBatch.FreshFleetRun | data_generator_days.py:180-213 | Starting from fresh stubs, the run completes with the device count. Each device file holds exactly its own series, and `devices.json` is not touched. |
| DaysBatch.RunGenerator | data_generator_days.py:215-216 | An existing inventory is read and the update run applied to it. An unreadable inventory raises and changes nothing. A missing inventory is always rebuilt: the generated records are returned, and the update run is applied to the files with stubs added and `devices.json` written. From a fresh folder: 360 devices, inventory written, each file holding one series, result 360. |
| Seqs.Dedup | data_generator_single.py:80-81 | The kept list has no duplicates and holds exactly the elements of the input. |
| Seqs.DedupSnoc | app.py:216-217 | Offering one more element appends it exactly when it is not listed yet. |
| Seqs.DedupOfDistinct | data_generator_single.py:80-81 | On a list without duplicates the "not already listed" check drops nothing. |
| Seqs.DedupIsSubseq | app.py:216-217 | The kept elements are an order-preserving subsequence of the input. |

## Left out

- Flask routing, `render_template`, redirects, the 404 handler, the `v1` banner route and application configuration are web glue and not modelled. Replies are datatypes rather than JSON bodies with status codes.
- `json2html` and `convert_json_to_table` are not modelled. `FetchJson` returns the loaded content without the HTML table built from it.
- The chart renderer `create_report_from_file` is not part of this model. It is a function parameter from the dataset to the page text.
- `os.makedirs`, `print` logging and `json.dumps` formatting are not modelled.
- JSON is typed content. A file whose JSON has the wrong shape for a read raises as malformed, where Python might fail later, with another exception type, or not fail at all. For example, an inventory record without "device_name" at a site other than the requested one does not trouble `fetch_chart`, which reads that key only for matching records (app.py:205-207). The model cannot hold such a file as an inventory, so it reports it as malformed. Likewise `ReadText` fails as malformed on a chart page that holds JSON content, where `open(...).read()` at app.py:230-231 returns any file's text; the handlers only ever write rendered text at that path, so this case is not reached through the model.
- Floating-point metrics (CPU, memory, disk, latency), their multipliers and `round(..., 2)` are not modelled. A sample keeps only its timestamp and process count.
- Samples.ProcessCount: uses the exact 14·base/10 for the peak multiplier. Python's `int(base * 1.4)` on binary floats gives one less for a few draws, for example 85 and 90, so the exact value is a slight over-approximation.
- Random draws are inputs: `draw(k)` for the single-sample generator and `draw(k, i)` for the batch generator. Only the process-count draw is kept.
- `datetime.now()` is one integer `now` per request or run. Python reads the clock again for each device and filter call. Local time zones and daylight saving are not modelled, and `HourOf` is the hour of the day in UTC.
- `strftime`/`strptime` are not modelled. A timestamp that is missing or does not parse is `None`, and the 14-day filter skips it. A `null` or non-string timestamp is also `None` in the model, so the model skips it too. In Python, `strptime` raises a `TypeError` on it (data_generator_single.py:147) that the `except` at line 151 does not catch, so the whole run aborts.
- `str.upper` and `str.lower` are function parameters. Unicode case mapping is not modelled.
- The unused `devices_list` in `create_chart_site_map` and its `print` are not modelled.
- `generate_performance_stats` (data_generator_days.py:152-177) only calls `generate_fake_performance_data`. The model calls `GenerateFakePerformanceData` directly.
- Request arguments are joined into file paths without any check, and path traversal is outside the model:
  - `fetch_json` joins the file name onto the JSON folder (app.py:141);
  - `fetch_chart` joins the site and product names into the chart paths (app.py:178-180, 203) and the site name into the device path (app.py:208).

  In the model each name is a plain key of its folder. A name containing '/' or an absolute path makes Python address another folder. For example, site "x/y" makes the dataset write at app.py:220 raise `FileNotFoundError`, because no `x` folder exists under the charts folder. The model writes `x/y__p.json` and returns the page.
- Concurrency, locking and atomic replacement: the code has none. Requests and runs are sequential in the model.
- The code, not a cleaner design, is modelled:
  - the chart collection aborts on the first unreadable device file instead of skipping it;
  - the dataset keeps inventory order instead of being sorted by device name;
  - the two artifacts are written one after the other.
- SingleServer.RunGenerator: the clause giving every device exactly its one new sample and the result 360 assumes a fresh folder, with no inventory and no site files. With leftover files and no inventory, the contract states the rebuilt inventory and the update run over the rebuilt files, but not the resulting histories one by one.
- DaysBatch.RunGenerator: the same restriction as the previous line, with the new series in place of the one sample.
