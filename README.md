# Route synchroniser of the swarm listener, modelled in Dafny

The swarm listener watches a Docker Swarm cluster. When services appear or
disappear, it updates a BIG-IP load balancer's internal *data group*, a flat
list of `{name, data}` records, one per routed path. This project models the
component that does that work, the `BigIp` type:

- **Route cache.** `services` maps a service name to the paths last
  registered for it.
- **GET-modify-PUT update.** `UpdateDataGroup` fetches the whole record list,
  appends or filters records, and writes the whole list back.
- **Record helpers.** `GetRecords`, `ContainsRecord` and `RemoveRecords`
  build records from paths and filter record lists by name.
  `RemoveRecords` compacts an array in place.
- **Batch drivers.** `AddRoutes` and `RemoveRoutes` process every item of a
  batch. They update the cache only when an item's update succeeds, and they
  return one aggregate error.

Files and modules:

- `wrappers.dfy` (`Wrappers`): `Option`, standing in for Go's nil-or-error results.
- `go_strings.dfy` (`GoStrings`): `strings.ToLower` and `strings.Split(s, ",")`
  as the synchroniser uses them. `Join` is the inverse that characterises `Split`.
- `records.dfy` (`Records`): the `Record` type, the record helpers as methods,
  and the functions `RecordsFor` and `Without` that specify them.
- `route_sync.dfy` (`RouteSync`): the value-level specification. It states
  the outcome of one update (`UpdateOutcome`) and its effect on the store
  (`UpdateView`). The two batches are left folds (`AddAll`, `RemoveAll`) over
  a state of cache, store and failure flag. The lemmas about these folds are here.
- `bigip.dfy` (`BigIpClient`): two classes. `DataGroupStore` is the external
  data group. `BigIp` holds the route cache and has the methods
  `UpdateDataGroup`, `AddRoutes` and `RemoveRoutes`, each proved equal to its
  specification function.

The network is an oracle. An `Exchange` says how one update's requests fare:

- the GET's response (transport error or status code);
- whether the GET body decodes;
- the PUT's response;
- whether a PUT that did not answer 200 was still applied by the store.

Item `i` of a batch meets the store as `net(i)` says. The store also logs
every PUT body it receives. This makes "no PUT was issued" a statement the
model can prove.

Two behaviours of `bigip.go` are easy to misread, and the model states them
as the code has them:

- A service whose label has no usable segments is not skipped.
  `strings.Split` always yields at least one segment (bigip.go:59), so an
  empty label still runs a full GET and PUT. The cache then holds `[""]`,
  and the label's raw segments are cached, empty ones included
  (`EmptyLabelStillUpdates`).
- Only status 200 counts as success, for the GET and for the PUT
  (bigip.go:108, 139). So 201 and 204 are failures too (`UpdateOutcome`).

## Model

| member | source | states |
|---|---|---|
| GoStrings.ToLower | bigip.go:58 | lower-casing keeps the label's length |
| GoStrings.ToLowerChars | bigip.go:58 | the result has no upper-case letter, keeps every comma where it was, and changes only upper-case letters |
| GoStrings.ToLowerIdempotent | bigip.go:58 | lower-casing twice is lower-casing once |
| GoStrings.Split | bigip.go:59 | splitting always yields at least one segment, even for the empty label |
| GoStrings.SplitSegments | bigip.go:59 | there is exactly one segment more than there are commas, and no segment contains a comma |
| GoStrings.JoinSplit | bigip.go:59 | joining the segments with commas gives the label back: splitting loses nothing |
| GoStrings.SplitJoin | bigip.go:59 | splitting comma-joined comma-free segments gives the same segments back |
| Records.RecordsFor | bigip.go:174-185 | there are never more records than paths |
| Records.RecordsForMembers | bigip.go:174-185 | every record is named by a non-empty input path and carries the pattern; every non-empty path has its record |
| Records.RecordsForAppend | bigip.go:176-183 | records are built path by path in input order: building over a concatenation is the concatenation of the builds |
| Records.RecordsForSingle | bigip.go:177-182 | one path yields one record `{path, pattern}` when non-empty and none when empty |
| Records.RecordsForPair | bigip_test.go:137-146 | two non-empty paths yield exactly two records, in order |
| Records.Without | bigip.go:155-163 | the filtered list is never longer than the input |
| Records.WithoutMembers | bigip.go:155-172 | a record survives filtering iff it is in the input and its name matches no record to remove; data is ignored |
| Records.WithoutAppend | bigip.go:155-163 | filtering keeps the original order: it distributes over concatenation |
| Records.WithoutNoMatch | bigip.go:155-172 | a list with no name to remove comes back unchanged |
| Records.WithoutAllMatch | bigip.go:155-172 | a list all of whose names are to be removed vanishes |
| Records.WithoutSelf | bigip.go:155-172 | filtering a list against itself leaves nothing |
| Records.WithoutDropsMatched | bigip.go:155-172 | records appended under names up for removal are all dropped again, duplicates included |
| Records.RemoveUndoesAppend | bigip.go:116-125 | removing the records of some paths from a data group extended by exactly those records restores it, if no existing record carried one of the non-empty paths |
| Records.GetRecords | bigip.go:174-185 | the loop builds exactly `RecordsFor(paths, pattern)` |
| Records.ContainsRecord | bigip.go:165-172 | the early-return loop answers true iff some target record has the candidate's name |
| Records.RemoveRecords | bigip.go:155-163 | in-place compaction: the returned prefix is `Without(old contents, remove)`, and the cells past it are unchanged |
| RouteSync.UpdateOutcome | bigip.go:101-145 | an update succeeds iff the GET answers 200, the body decodes and the PUT answers 200; a GET-stage error means no PUT was issued; reported status codes are never 200 |
| RouteSync.UpdateView | bigip.go:116-140 | a GET-stage failure leaves the store and its PUT log unchanged; otherwise exactly one PUT carries the fetched records extended, or filtered, by the path records; after success the store holds that body |
| RouteSync.Payload | bigip.go:116-125 | append mode keeps the fetched records as a prefix and follows them with exactly `RecordsFor(paths, pattern)`, one record per non-empty path; remove mode never lengthens the list |
| RouteSync.LabelPaths | bigip.go:58-59 | a labelled service has at least one path, and its paths joined by commas give back the lower-cased label |
| RouteSync.AddStep | bigip.go:56-68 | an unlabelled service changes nothing; the error flag is raised iff a labelled service's update fails; a failed update leaves the cache as it was |
| RouteSync.AddAll | bigip.go:52-75 | AddRoutes never clears an error once raised and only appends to the PUT log; its meaning is given by AddAllFailed, AddAllKeepsKey, AddAllKeepsKeys, AddAllSkipsUnlabelled, AddAllCachesSuccess and AddAllAppends |
| RouteSync.RemoveStep | bigip.go:80-89 | an uncached name changes nothing; the error flag is raised iff a cached name's update fails; a failed update leaves the cache as it was |
| RouteSync.RemoveAll | bigip.go:77-96 | RemoveRoutes never clears an error once raised and only appends to the PUT log; its meaning is given by RemoveAllFailed, RemoveAllKeepsKey, RemoveAllKeepsFailed, RemoveAllShrinks, RemoveAllDropsSuccess, RemoveAllSkipsUncached and RemoveAllRetires |
| RouteSync.AddStepCache | bigip.go:56-68 | one AddRoutes item caches its split lower-cased paths iff it has the exact label key and its update succeeds; otherwise the cache is unchanged |
| RouteSync.AddStepAppends | bigip.go:116-125 | a successful append-mode update adds the item's records after the fetched ones |
| RouteSync.AddAllFailed | bigip.go:52-75 | AddRoutes reports an error iff some labelled service's update failed; every item is processed |
| RouteSync.AddAllKeepsKey | bigip.go:54-69 | a cache key that no labelled item updated successfully keeps its entry, or stays absent |
| RouteSync.AddAllKeepsKeys | bigip.go:52-75 | AddRoutes never deletes a cache entry |
| RouteSync.AddAllSkipsUnlabelled | bigip.go:56 | a batch of services without the label key makes no request: store, PUT log, cache and error flag are all unchanged |
| RouteSync.AddAllSkipsUnlabelledAt | bigip.go:56 | an unlabelled service anywhere in a batch is a no-op step: no request, no PUT, no cache change, no error |
| RouteSync.AddAllCachesSuccess | bigip.go:54-68 | a successful item's paths are in the cache at the end, whatever failed before it, unless a later same-named item succeeded |
| RouteSync.AddAllAppends | bigip.go:120-124 | when every update succeeds, the data group ends as it began followed by all labelled items' records in batch order, duplicates kept |
| RouteSync.RemoveAllFailed | bigip.go:77-96 | RemoveRoutes reports an error iff some name still cached at its turn had a failing update |
| RouteSync.RemoveAllKeepsKey | bigip.go:79-91 | names outside the batch keep their cache entries, or stay absent |
| RouteSync.RemoveAllKeepsFailed | bigip.go:82-89 | a name whose every removal in the batch failed keeps its cache entry unchanged, so a later removal can retry it |
| RouteSync.RemoveAllShrinks | bigip.go:77-96 | RemoveRoutes never adds a cache entry and never changes a remaining entry's paths |
| RouteSync.RemoveStepFilters | bigip.go:116-119 | removing a cached name PUTs the fetched records filtered against the records of its cached paths, and on success the store holds that list |
| RouteSync.RemoveAllSkipsUncachedAt | bigip.go:80 | a name not cached at its turn is a no-op step anywhere in a batch: no request, no PUT, no cache change, no error |
| RouteSync.RemoveStepRetires | bigip.go:86-88 | a successful removal step deletes the name from the cache (a no-op if it was absent) and raises no error |
| RouteSync.RemoveAllDropsSuccess | bigip.go:79-91 | a name still cached at its turn whose removal succeeds is absent from the cache at the end of the batch, whatever earlier or later items do |
| RouteSync.RemoveAllSkipsUncached | bigip.go:80 | uncached names are skipped: no request, no PUT, no cache change, no error |
| RouteSync.RemoveAllRetires | bigip.go:79-91 | when every update succeeds, exactly the batch's names leave the cache and no error is reported |
| RouteSync.AddThenRemoveRestores | bigip.go:52-96 | a successful add then remove of one service restores the data group, removes the name from the cache, and sends the two expected PUT bodies |
| RouteSync.AddRemoveRoutesScenario | bigip_test.go:102-117 | the test's round: with `{"/test-path", pattern}` already in the data group, adding "test-service" with label "/test-path" caches `["/test-path"]` without error, and removing it empties the cache without error; the data group goes from one record to two copies and then to none |
| RouteSync.AddPresentPath | bigip.go:52-75 | adding a one-path service whose record is already present appends a second copy, logs that PUT and caches the path |
| RouteSync.RemoveDoubledPath | bigip.go:77-96 | removing that service drops both copies, logs the empty PUT and empties the cache |
| RouteSync.SplitTestPath | bigip.go:58-59 | the label "/test-path" is exactly one path |
| RouteSync.EmptyLabelStillUpdates | bigip.go:56-68 | an empty label still runs a full update that writes the fetched records back unchanged, and caches `[""]` |
| RouteSync.SplitOrdersBilling | bigip.go:58-59 | the label "/Orders,/Billing" becomes the paths "/orders" and "/billing" |
| RouteSync.MultiPathLabel | bigip.go:58-59 | a two-path label yields two lower-cased paths and two records |
| RouteSync.DuplicatesAccumulate | bigip.go:120-124 | adding the same service twice keeps both copies of its records; one removal then drops every copy |
| RouteSync.SingleServiceScenario | bigip.go:52-96 | on an empty data group, adding svc1 with "/a" sends the PUT `[{"/a", pattern}]`; removing it sends a PUT with no records and empties the cache |
| RouteSync.SplitSingle | bigip.go:58-59 | the label "/a" is exactly one path |
| BigIpClient.DataGroupStore.Put | bigip.go:132-139 | a PUT is logged, and the store takes the body when it applies it |
| BigIpClient.BigIp.constructor | bigip.go:224-230 | a new synchroniser starts with an empty route cache |
| BigIpClient.BigIp.UpdateDataGroup | bigip.go:98-146 | the returned error is `UpdateOutcome(ex)` and the new store state is `UpdateView` of the old one |
| BigIpClient.BigIp.AddRoutes | bigip.go:52-75 | the new cache, the store and the error flag are `AddAll` of the old state; the error is the fixed adding message |
| BigIpClient.BigIp.RemoveRoutes | bigip.go:77-96 | the new cache, the store and the error flag are `RemoveAll` of the old state; the error is the fixed removing message |

## Left out

- `main.go`: the endless poll-and-sleep loop, the goroutine serving pushes,
  and the metrics calls. The `service` package it drives (diff engine,
  notification dispatcher with retry, shared service cache) is not part of
  this model.
- `newRequest`, `http.Client.Do`, body reads and the TLS transport are
  replaced by the `Exchange` oracle. The headers `Content-Type` and `X-f5key`
  are not modelled, and neither is the ignored `newRequest` error.
- JSON decoding is an oracle flag. A decodable body is taken to be the
  store's current records. JSON encoding of the data group cannot fail for
  this type, so that error branch is not modelled. The `omitempty` tags are
  not modelled. Because of the tag on `Records` (bigip.go:36), an empty
  record list goes over the wire as `{}`, so the PUT with no records in
  `SingleServiceScenario` is the body `{}`.
- `readConfig`, `checkErr`, `NewBigIp` and `NewBigIpFromEnv` do network
  fetches, a file read, environment lookups and panics, so they are left out.
  So are the `Url`, `Key` and `Client` fields they fill.
- Logging is left out.
- The text of the per-update error messages is left out: the model returns
  one `UpdateError` variant per failing step instead.
- Whether a returned slice is nil or empty is not distinguished.
- GoStrings.ToLower: maps only ASCII upper-case letters. Go's `strings.ToLower`
  also lower-cases non-ASCII letters, which this model does not capture.
- The test server of bigip_test.go answers every GET with the same fixture
  and ignores PUT bodies. The model's store instead keeps each successful
  PUT body, so `AddRemoveRoutesScenario` states the data group the code
  would leave on a real store. The cache and error results are the same.
- The store's state after a failed PUT is not claimed: the oracle's
  `failedPutApplied` flag decides it, so every lemma covers both cases.
- Concurrency is left out. The synchroniser runs on one sequential control
  flow, which the model assumes.
