/**
 * The value-level specification of the route synchroniser: what one
 * GET-modify-PUT update of the data group does, and what the two batch
 * drivers do to the route cache, the data group and the aggregate error.
 * The network is an oracle: every update is told how its GET and PUT fare.
 */
module RouteSync {
  import opened Wrappers
  import opened GoStrings
  import opened Records

  /** The exact label key a service declares its paths under. */
  const SERVICE_PATH_LABEL := "com.df.servicePath"
  const STATUS_OK := 200
  const ADD_ROUTES_FAILED := "Adding routes for at least one of the service failed"
  const REMOVE_ROUTES_FAILED := "Removing routes for at least one of the service failed"

  /** An orchestrator service as the synchroniser sees it: its name and labels. */
  datatype Service = Service(name: string, labels: map<string, string>)

  /** The fate of one HTTP request: no response at all, or a status code. */
  datatype Response = TransportError | Status(code: int)

  /**
   * How the route store answers one update: the GET's response, whether its
   * body decodes as a data group, the PUT's response, and whether a PUT that
   * did not answer 200 was nonetheless applied by the store.
   */
  datatype Exchange = Exchange(get: Response, bodyDecodes: bool, put: Response, failedPutApplied: bool)

  /** The error an update reports, one variant per failing step. */
  datatype UpdateError =
    | GetFailed
    | GetStatus(code: int)
    | Undecodable
    | PutFailed
    | PutStatus(code: int)

  /** The route store's content and the bodies of all PUTs it has received, oldest first. */
  datatype StoreView = StoreView(records: seq<Record>, puts: seq<seq<Record>>)

  /** The route cache, the route store and whether some update of the batch failed so far. */
  datatype SyncState = SyncState(cache: map<string, seq<string>>, store: StoreView, failed: bool)

  /** The GET answered 200 with a decodable body, so the update goes on to its PUT. */
  predicate PutIssued(ex: Exchange) {
    ex.get == Status(STATUS_OK) && ex.bodyDecodes
  }

  /** The error `updateDataGroup` returns, checked in the order the steps run. */
  function UpdateOutcome(ex: Exchange): (r: Option<UpdateError>)
    ensures r == None <==> ex.get == Status(STATUS_OK) && ex.bodyDecodes && ex.put == Status(STATUS_OK)
    ensures !PutIssued(ex) <==> r.Some? && (r.value.GetFailed? || r.value.GetStatus? || r.value.Undecodable?)
    ensures r.Some? && r.value.GetStatus? ==> r.value.code != STATUS_OK
    ensures r.Some? && r.value.PutStatus? ==> r.value.code != STATUS_OK
  {
    match ex.get
    case TransportError => Some(GetFailed)
    case Status(code) =>
      if code != STATUS_OK then Some(GetStatus(code))
      else if !ex.bodyDecodes then Some(Undecodable)
      else
        match ex.put
        case TransportError => Some(PutFailed)
        case Status(putCode) => if putCode != STATUS_OK then Some(PutStatus(putCode)) else None
  }

  predicate UpdateSucceeds(ex: Exchange) {
    UpdateOutcome(ex).None?
  }

  /** The collection written back: fetched records extended by, or filtered against, the new records. */
  function Payload(fetched: seq<Record>, paths: seq<string>, pattern: string, remove: bool): (r: seq<Record>)
    ensures !remove ==> |r| == |fetched| + |RecordsFor(paths, pattern)| && r[..|fetched|] == fetched
    ensures !remove ==> r[|fetched|..] == RecordsFor(paths, pattern)
    ensures remove ==> |r| <= |fetched|
  {
    if remove then Without(fetched, RecordsFor(paths, pattern))
    else fetched + RecordsFor(paths, pattern)
  }

  /** The route store after one update. */
  function UpdateView(v: StoreView, paths: seq<string>, pattern: string, remove: bool, ex: Exchange): (r: StoreView)
    ensures !PutIssued(ex) ==> r == v
    ensures PutIssued(ex) ==> r.puts == v.puts + [Payload(v.records, paths, pattern, remove)]
    ensures UpdateSucceeds(ex) ==> r.records == Payload(v.records, paths, pattern, remove)
  {
    if !PutIssued(ex) then v
    else
      var body := Payload(v.records, paths, pattern, remove);
      var applied := ex.put == Status(STATUS_OK) || ex.failedPutApplied;
      StoreView(if applied then body else v.records, v.puts + [body])
  }

  predicate HasPathLabel(s: Service) {
    SERVICE_PATH_LABEL in s.labels
  }

  /** The paths a labelled service asks for: its label lower-cased and split on commas. */
  function LabelPaths(s: Service): (r: seq<string>)
    requires HasPathLabel(s)
    ensures |r| >= 1
    ensures Join(r) == ToLower(s.labels[SERVICE_PATH_LABEL])
  {
    JoinSplit(ToLower(s.labels[SERVICE_PATH_LABEL]));
    Split(ToLower(s.labels[SERVICE_PATH_LABEL]))
  }

  /** `AddRoutes` on one service: an unlabelled service is skipped without any request. */
  function AddStep(st: SyncState, s: Service, ex: Exchange, pattern: string): (r: SyncState)
    ensures !HasPathLabel(s) ==> r == st
    ensures r.failed <==> st.failed || (HasPathLabel(s) && !UpdateSucceeds(ex))
    ensures HasPathLabel(s) && !UpdateSucceeds(ex) ==> r.cache == st.cache
  {
    if !HasPathLabel(s) then st
    else
      var paths := LabelPaths(s);
      var store := UpdateView(st.store, paths, pattern, false, ex);
      if UpdateSucceeds(ex) then SyncState(st.cache[s.name := paths], store, st.failed)
      else SyncState(st.cache, store, true)
  }

  /** `AddRoutes` on the first `n` services; service `i` meets the store as `net(i)` says. */
  function AddAll(st: SyncState, services: seq<Service>, net: nat -> Exchange, pattern: string, n: nat): (r: SyncState)
    requires n <= |services|
    ensures st.failed ==> r.failed
    ensures st.store.puts <= r.store.puts
    decreases n
  {
    if n == 0 then st
    else AddStep(AddAll(st, services, net, pattern, n - 1), services[n - 1], net(n - 1), pattern)
  }

  /** `RemoveRoutes` on one name: an uncached name is skipped without any request. */
  function RemoveStep(st: SyncState, name: string, ex: Exchange, pattern: string): (r: SyncState)
    ensures name !in st.cache ==> r == st
    ensures r.failed <==> st.failed || (name in st.cache && !UpdateSucceeds(ex))
    ensures name in st.cache && !UpdateSucceeds(ex) ==> r.cache == st.cache
  {
    if name !in st.cache then st
    else
      var store := UpdateView(st.store, st.cache[name], pattern, true, ex);
      if UpdateSucceeds(ex) then SyncState(st.cache - {name}, store, st.failed)
      else SyncState(st.cache, store, true)
  }

  /** `RemoveRoutes` on the first `n` names; name `i` meets the store as `net(i)` says. */
  function RemoveAll(st: SyncState, names: seq<string>, net: nat -> Exchange, pattern: string, n: nat): (r: SyncState)
    requires n <= |names|
    ensures st.failed ==> r.failed
    ensures st.store.puts <= r.store.puts
    decreases n
  {
    if n == 0 then st
    else RemoveStep(RemoveAll(st, names, net, pattern, n - 1), names[n - 1], net(n - 1), pattern)
  }

  /** The paths a service contributes to a batch: its label's, or none. */
  function ServicePaths(s: Service): seq<string> {
    if HasPathLabel(s) then LabelPaths(s) else []
  }

  /** All paths of the labelled services, in order. */
  function LabelledPaths(services: seq<Service>): seq<string>
    decreases |services|
  {
    if services == [] then []
    else
      var last := services[|services| - 1];
      LabelledPaths(services[..|services| - 1]) + ServicePaths(last)
  }

  // ---------------------------------------------------------------------------
  // AddRoutes

  /** The batch fails iff some labelled service's update failed; every service is processed. */
  lemma {:induction false} AddAllFailed(st: SyncState, services: seq<Service>, net: nat -> Exchange, pattern: string, n: nat)
    requires n <= |services|
    ensures AddAll(st, services, net, pattern, n).failed
        <==> st.failed || exists i :: 0 <= i < n && HasPathLabel(services[i]) && !UpdateSucceeds(net(i))
    decreases n
  {
    if n > 0 {
      AddAllFailed(st, services, net, pattern, n - 1);
    }
  }

  /**
   * A cache key that no labelled service of the batch updated successfully
   * keeps its entry (or its absence): skipped and failed services change nothing.
   */
  lemma {:induction false} AddAllKeepsKey(st: SyncState, services: seq<Service>, net: nat -> Exchange, pattern: string, n: nat, key: string)
    requires n <= |services|
    requires forall i :: 0 <= i < n && services[i].name == key && HasPathLabel(services[i]) ==> !UpdateSucceeds(net(i))
    ensures var cache := AddAll(st, services, net, pattern, n).cache;
      (key in cache <==> key in st.cache) && (key in st.cache ==> cache[key] == st.cache[key])
    decreases n
  {
    if n > 0 {
      AddAllKeepsKey(st, services, net, pattern, n - 1, key);
    }
  }

  /** AddRoutes never deletes a cache entry. */
  lemma {:induction false} AddAllKeepsKeys(st: SyncState, services: seq<Service>, net: nat -> Exchange, pattern: string, n: nat)
    requires n <= |services|
    ensures st.cache.Keys <= AddAll(st, services, net, pattern, n).cache.Keys
    decreases n
  {
    if n > 0 {
      AddAllKeepsKeys(st, services, net, pattern, n - 1);
    }
  }

  /** A batch of unlabelled services makes no request and changes nothing. */
  lemma {:induction false} AddAllSkipsUnlabelled(st: SyncState, services: seq<Service>, net: nat -> Exchange, pattern: string, n: nat)
    requires n <= |services|
    requires forall i :: 0 <= i < n ==> !HasPathLabel(services[i])
    ensures AddAll(st, services, net, pattern, n) == st
    decreases n
  {
    if n > 0 {
      AddAllSkipsUnlabelled(st, services, net, pattern, n - 1);
    }
  }

  /**
   * A successful update caches the service's paths, whatever failed before
   * it, unless a later service of the same name overwrites the entry.
   */
  lemma {:induction false} AddAllCachesSuccess(st: SyncState, services: seq<Service>, net: nat -> Exchange, pattern: string, n: nat, j: nat)
    requires j < n <= |services|
    requires HasPathLabel(services[j]) && UpdateSucceeds(net(j))
    requires forall i :: j < i < n && services[i].name == services[j].name && HasPathLabel(services[i]) ==> !UpdateSucceeds(net(i))
    ensures var cache := AddAll(st, services, net, pattern, n).cache;
      services[j].name in cache && cache[services[j].name] == LabelPaths(services[j])
    decreases n
  {
    AddStepCache(AddAll(st, services, net, pattern, n - 1), services[n - 1], net(n - 1), pattern);
    if n - 1 > j {
      AddAllCachesSuccess(st, services, net, pattern, n - 1, j);
    }
  }

  /** One step of AddRoutes caches the paths exactly when the service is labelled and its update succeeds. */
  lemma AddStepCache(st: SyncState, s: Service, ex: Exchange, pattern: string)
    ensures AddStep(st, s, ex, pattern).cache
         == if HasPathLabel(s) && UpdateSucceeds(ex) then st.cache[s.name := LabelPaths(s)] else st.cache
  {
  }

  /** A successful update step appends the service's records and reports no failure. */
  lemma AddStepAppends(st: SyncState, s: Service, ex: Exchange, pattern: string)
    requires UpdateSucceeds(ex)
    ensures AddStep(st, s, ex, pattern).store.records == st.store.records + RecordsFor(ServicePaths(s), pattern)
    ensures AddStep(st, s, ex, pattern).failed == st.failed
  {
    if !HasPathLabel(s) {
      assert st.store.records + [] == st.store.records;
    }
  }

  /**
   * When every update succeeds, the data group ends as it began followed by
   * the records of all labelled services in batch order, duplicates kept.
   */
  lemma {:induction false} AddAllAppends(st: SyncState, services: seq<Service>, net: nat -> Exchange, pattern: string, n: nat)
    requires n <= |services|
    requires forall i :: 0 <= i < n ==> UpdateSucceeds(net(i))
    ensures var r := AddAll(st, services, net, pattern, n);
      r.store.records == st.store.records + RecordsFor(LabelledPaths(services[..n]), pattern) && r.failed == st.failed
    decreases n
  {
    if n > 0 {
      AddAllAppends(st, services, net, pattern, n - 1);
      var prev := AddAll(st, services, net, pattern, n - 1);
      LabelledPathsSnoc(services, n);
      AddStepAppends(prev, services[n - 1], net(n - 1), pattern);
      AppendMore(prev.store.records, st.store.records, LabelledPaths(services[..n - 1]), ServicePaths(services[n - 1]), pattern);
    }
  }

  /** Appending the records of more paths to a data group extended by earlier paths. */
  lemma AppendMore(current: seq<Record>, initial: seq<Record>, before: seq<string>, added: seq<string>, pattern: string)
    requires current == initial + RecordsFor(before, pattern)
    ensures current + RecordsFor(added, pattern) == initial + RecordsFor(before + added, pattern)
  {
    RecordsForAppend(before, added, pattern);
    var early, late := RecordsFor(before, pattern), RecordsFor(added, pattern);
    assert initial + early + late == initial + (early + late);
  }

  /** The paths of a longer prefix of the batch extend those of the shorter one. */
  lemma LabelledPathsSnoc(services: seq<Service>, n: nat)
    requires 0 < n <= |services|
    ensures LabelledPaths(services[..n]) == LabelledPaths(services[..n - 1]) + ServicePaths(services[n - 1])
  {
    assert services[..n][..n - 1] == services[..n - 1];
  }

  // ---------------------------------------------------------------------------
  // RemoveRoutes

  /** Name `i` of a removal batch was still cached at its turn and its update failed. */
  predicate RemoveFailedAt(st: SyncState, names: seq<string>, net: nat -> Exchange, pattern: string, i: nat)
    requires i < |names|
  {
    names[i] in RemoveAll(st, names, net, pattern, i).cache && !UpdateSucceeds(net(i))
  }

  /** The batch fails iff some name cached at its turn had a failing update; every name is processed. */
  lemma {:induction false} RemoveAllFailed(st: SyncState, names: seq<string>, net: nat -> Exchange, pattern: string, n: nat)
    requires n <= |names|
    ensures RemoveAll(st, names, net, pattern, n).failed
        <==> st.failed || exists i :: 0 <= i < n && RemoveFailedAt(st, names, net, pattern, i)
    decreases n
  {
    if n > 0 {
      RemoveAllFailed(st, names, net, pattern, n - 1);
      var prev := RemoveAll(st, names, net, pattern, n - 1);
      assert RemoveAll(st, names, net, pattern, n).failed
          == (prev.failed || RemoveFailedAt(st, names, net, pattern, n - 1));
    }
  }

  /** Names outside the batch keep their cache entries (or their absence). */
  lemma {:induction false} RemoveAllKeepsKey(st: SyncState, names: seq<string>, net: nat -> Exchange, pattern: string, n: nat, key: string)
    requires n <= |names|
    requires forall i :: 0 <= i < n ==> names[i] != key
    ensures var cache := RemoveAll(st, names, net, pattern, n).cache;
      (key in cache <==> key in st.cache) && (key in st.cache ==> cache[key] == st.cache[key])
    decreases n
  {
    if n > 0 {
      RemoveAllKeepsKey(st, names, net, pattern, n - 1, key);
    }
  }

  /**
   * A name whose update failed keeps its cache entry (or its absence), so it
   * is retried on a later removal; a failure never deletes an entry.
   */
  lemma {:induction false} RemoveAllKeepsFailed(st: SyncState, names: seq<string>, net: nat -> Exchange, pattern: string, n: nat, key: string)
    requires n <= |names|
    requires forall i :: 0 <= i < n && names[i] == key ==> !UpdateSucceeds(net(i))
    ensures var cache := RemoveAll(st, names, net, pattern, n).cache;
      (key in cache <==> key in st.cache) && (key in st.cache ==> cache[key] == st.cache[key])
    decreases n
  {
    if n > 0 {
      RemoveAllKeepsFailed(st, names, net, pattern, n - 1, key);
    }
  }

  /** RemoveRoutes only deletes cache entries: it never adds one nor changes a value. */
  lemma {:induction false} RemoveAllShrinks(st: SyncState, names: seq<string>, net: nat -> Exchange, pattern: string, n: nat)
    requires n <= |names|
    ensures var cache := RemoveAll(st, names, net, pattern, n).cache;
      cache.Keys <= st.cache.Keys && forall k :: k in cache ==> cache[k] == st.cache[k]
    decreases n
  {
    if n > 0 {
      RemoveAllShrinks(st, names, net, pattern, n - 1);
    }
  }

  /**
   * Removing a cached name PUTs the fetched records filtered against the
   * records of the paths cached for it.
   */
  lemma RemoveStepFilters(st: SyncState, name: string, ex: Exchange, pattern: string)
    requires name in st.cache && PutIssued(ex)
    ensures RemoveStep(st, name, ex, pattern).store.puts
         == st.store.puts + [Without(st.store.records, RecordsFor(st.cache[name], pattern))]
    ensures UpdateSucceeds(ex) ==>
      RemoveStep(st, name, ex, pattern).store.records == Without(st.store.records, RecordsFor(st.cache[name], pattern))
  {
  }

  /** A name not cached at its turn is skipped inside any batch: that step changes nothing. */
  lemma RemoveAllSkipsUncachedAt(st: SyncState, names: seq<string>, net: nat -> Exchange, pattern: string, j: nat)
    requires j < |names| && names[j] !in RemoveAll(st, names, net, pattern, j).cache
    ensures RemoveAll(st, names, net, pattern, j + 1) == RemoveAll(st, names, net, pattern, j)
  {
  }

  /** An unlabelled service is skipped inside any batch: that step changes nothing. */
  lemma AddAllSkipsUnlabelledAt(st: SyncState, services: seq<Service>, net: nat -> Exchange, pattern: string, j: nat)
    requires j < |services| && !HasPathLabel(services[j])
    ensures AddAll(st, services, net, pattern, j + 1) == AddAll(st, services, net, pattern, j)
  {
  }

  /** Names absent from the cache are skipped: no GET, no PUT, no change, no error. */
  lemma {:induction false} RemoveAllSkipsUncached(st: SyncState, names: seq<string>, net: nat -> Exchange, pattern: string, n: nat)
    requires n <= |names|
    requires forall i :: 0 <= i < n ==> names[i] !in st.cache
    ensures RemoveAll(st, names, net, pattern, n) == st
    decreases n
  {
    if n > 0 {
      RemoveAllSkipsUncached(st, names, net, pattern, n - 1);
    }
  }

  /** When every update succeeds, every name of the batch leaves the cache and nothing else does. */
  lemma {:induction false} RemoveAllRetires(st: SyncState, names: seq<string>, net: nat -> Exchange, pattern: string, n: nat)
    requires n <= |names|
    requires forall i :: 0 <= i < n ==> UpdateSucceeds(net(i))
    ensures var r := RemoveAll(st, names, net, pattern, n);
      r.cache == st.cache - (set i | 0 <= i < n :: names[i]) && r.failed == st.failed
    decreases n
  {
    if n > 0 {
      RemoveAllRetires(st, names, net, pattern, n - 1);
      var earlier := set i | 0 <= i < n - 1 :: names[i];
      assert (set i | 0 <= i < n :: names[i]) == earlier + {names[n - 1]};
      RemoveStepRetires(RemoveAll(st, names, net, pattern, n - 1), names[n - 1], net(n - 1), pattern);
      RemoveKeysAgain(st.cache, earlier, names[n - 1]);
    }
  }

  /** A successful removal step retires the name (a no-op when it was not cached). */
  lemma RemoveStepRetires(st: SyncState, name: string, ex: Exchange, pattern: string)
    requires UpdateSucceeds(ex)
    ensures RemoveStep(st, name, ex, pattern).cache == st.cache - {name}
    ensures RemoveStep(st, name, ex, pattern).failed == st.failed
  {
    if name !in st.cache {
      assert st.cache - {name} == st.cache;
    }
  }

  /**
   * A name whose removal succeeded at its turn is gone from the cache at the
   * end of the batch, whatever the later items do.
   */
  lemma {:induction false} RemoveAllDropsSuccess(st: SyncState, names: seq<string>, net: nat -> Exchange, pattern: string, n: nat, j: nat)
    requires j < n <= |names|
    requires names[j] in RemoveAll(st, names, net, pattern, j).cache && UpdateSucceeds(net(j))
    ensures names[j] !in RemoveAll(st, names, net, pattern, n).cache
    decreases n
  {
    if n - 1 > j {
      RemoveAllDropsSuccess(st, names, net, pattern, n - 1, j);
    } else {
      RemoveStepRetires(RemoveAll(st, names, net, pattern, j), names[j], net(j), pattern);
    }
  }

  /** Deleting keys in two rounds deletes their union. */
  lemma RemoveKeysAgain(cache: map<string, seq<string>>, keys: set<string>, key: string)
    ensures cache - keys - {key} == cache - (keys + {key})
  {
  }

  // ---------------------------------------------------------------------------
  // Round trip and the behaviours the route store tests exercise

  /**
   * Adding a labelled service and then removing it, both successfully,
   * restores the data group and drops the name from the cache, provided no
   * record already carried one of the service's paths. Two PUTs were sent.
   */
  lemma AddThenRemoveRestores(st: SyncState, s: Service, addNet: nat -> Exchange, removeNet: nat -> Exchange, pattern: string)
    requires HasPathLabel(s) && UpdateSucceeds(addNet(0)) && UpdateSucceeds(removeNet(0))
    requires forall i :: 0 <= i < |st.store.records| ==>
      st.store.records[i].name == "" || st.store.records[i].name !in LabelPaths(s)
    ensures var added := AddAll(st, [s], addNet, pattern, 1);
      var removed := RemoveAll(added, [s.name], removeNet, pattern, 1);
      && added.cache == st.cache[s.name := LabelPaths(s)]
      && added.store.puts == st.store.puts + [st.store.records + RecordsFor(LabelPaths(s), pattern)]
      && removed.cache == st.cache - {s.name}
      && removed.store.records == st.store.records
      && removed.store.puts == st.store.puts + [st.store.records + RecordsFor(LabelPaths(s), pattern), st.store.records]
      && removed.failed == st.failed
  {
    RemoveUndoesAppend(st.store.records, LabelPaths(s), pattern);
  }

  /**
   * An empty label still runs an update: its single empty segment builds no
   * record, so the PUT writes back what was fetched, and the cache then holds [""].
   */
  lemma EmptyLabelStillUpdates(st: SyncState, name: string, ex: Exchange, pattern: string)
    requires UpdateSucceeds(ex)
    ensures var r := AddStep(st, Service(name, map[SERVICE_PATH_LABEL := ""]), ex, pattern);
      && r.cache == st.cache[name := [""]]
      && r.store == StoreView(st.store.records, st.store.puts + [st.store.records])
  {
    assert ToLower("") == "";
    assert RecordsFor([""], pattern) == [];
  }

  /** The label "/Orders,/Billing" lower-cases and splits into two paths. */
  lemma SplitOrdersBilling()
    ensures Split(ToLower("/Orders,/Billing")) == ["/orders", "/billing"]
  {
    var paths := ["/orders", "/billing"];
    assert ToLower("/Orders,/Billing") == "/orders,/billing";
    assert Join(paths) == "/orders,/billing";
    assert ',' !in paths[0] && ',' !in paths[1];
    SplitJoin(paths);
  }

  /** A multi-path label yields one lower-cased path, and one record, per segment. */
  lemma MultiPathLabel(name: string, pattern: string)
    ensures var s := Service(name, map[SERVICE_PATH_LABEL := "/Orders,/Billing"]);
      && LabelPaths(s) == ["/orders", "/billing"]
      && RecordsFor(LabelPaths(s), pattern) == [Record("/orders", pattern), Record("/billing", pattern)]
  {
    SplitOrdersBilling();
    RecordsForPair("/orders", "/billing", pattern);
  }

  /**
   * Adding the same service twice keeps both copies of its records, and a
   * single successful removal then drops every copy.
   */
  lemma DuplicatesAccumulate(st: SyncState, s: Service, net: nat -> Exchange, pattern: string)
    requires HasPathLabel(s) && UpdateSucceeds(net(0)) && UpdateSucceeds(net(1)) && UpdateSucceeds(net(2))
    ensures var added := RecordsFor(LabelPaths(s), pattern);
      var twice := AddAll(st, [s, s], net, pattern, 2);
      && twice.store.records == st.store.records + added + added
      && RemoveStep(twice, s.name, net(2), pattern).store.records == Without(st.store.records, added)
  {
    var added := RecordsFor(LabelPaths(s), pattern);
    var once := AddAll(st, [s, s], net, pattern, 1);
    var twice := AddAll(st, [s, s], net, pattern, 2);
    assert once == AddStep(st, s, net(0), pattern);
    assert twice == AddStep(once, s, net(1), pattern);
    AddStepAppends(st, s, net(0), pattern);
    AddStepAppends(once, s, net(1), pattern);
    AddStepCache(once, s, net(1), pattern);
    var r := st.store.records;
    WithoutSelf(added);
    WithoutAppend(r + added, added, added);
    WithoutAppend(r, added, added);
    assert Without(r, added) + [] + [] == Without(r, added);
  }

  /**
   * The scenario of an empty data group: adding "svc1" with label "/a" sends
   * one PUT holding its single record; removing it sends one PUT with no records.
   */
  lemma SingleServiceScenario(net: nat -> Exchange, pattern: string)
    requires UpdateSucceeds(net(0))
    ensures var svc := Service("svc1", map[SERVICE_PATH_LABEL := "/a"]);
      var added := AddAll(SyncState(map[], StoreView([], []), false), [svc], net, pattern, 1);
      var removed := RemoveAll(added, ["svc1"], net, pattern, 1);
      && added.cache == map["svc1" := ["/a"]]
      && added.store.puts == [[Record("/a", pattern)]]
      && removed.cache == map[]
      && removed.store.puts == [[Record("/a", pattern)], []]
      && !removed.failed
  {
    var svc := Service("svc1", map[SERVICE_PATH_LABEL := "/a"]);
    var st := SyncState(map[], StoreView([], []), false);
    SplitSingle();
    RecordsForSingle("/a", pattern);
    AddThenRemoveRestores(st, svc, net, net, pattern);
  }

  /**
   * The add-then-remove round of the client's own test: the data group
   * already holds {"/test-path", pattern}, and "test-service" is added with
   * the label "/test-path" and then removed. The cache gains and loses the
   * service, no error is reported, and the data group goes from one record to
   * two copies of it and then to none.
   */
  lemma AddRemoveRoutesScenario(net: nat -> Exchange, pattern: string)
    requires UpdateSucceeds(net(0))
    ensures var p := Record("/test-path", pattern);
      var svc := Service("test-service", map[SERVICE_PATH_LABEL := "/test-path"]);
      var added := AddAll(SyncState(map[], StoreView([p], []), false), [svc], net, pattern, 1);
      var removed := RemoveAll(added, ["test-service"], net, pattern, 1);
      && added == SyncState(map["test-service" := ["/test-path"]], StoreView([p, p], [[p, p]]), false)
      && removed == SyncState(map[], StoreView([], [[p, p], []]), false)
  {
    SplitTestPath();
    AddPresentPath("test-service", "/test-path", net(0), pattern);
    RemoveDoubledPath("test-service", "/test-path", net(0), pattern);
  }

  /**
   * Adding a one-path service whose record the data group already holds:
   * a successful update appends a second copy of the record.
   */
  lemma AddPresentPath(name: string, path: string, ex: Exchange, pattern: string)
    requires path != "" && Split(ToLower(path)) == [path] && UpdateSucceeds(ex)
    ensures var p := Record(path, pattern);
      AddStep(SyncState(map[], StoreView([p], []), false), Service(name, map[SERVICE_PATH_LABEL := path]), ex, pattern)
        == SyncState(map[name := [path]], StoreView([p, p], [[p, p]]), false)
  {
    RecordsForSingle(path, pattern);
  }

  /** Removing that service again: one successful update filters out both copies and retires it. */
  lemma RemoveDoubledPath(name: string, path: string, ex: Exchange, pattern: string)
    requires path != "" && UpdateSucceeds(ex)
    ensures var p := Record(path, pattern);
      RemoveStep(SyncState(map[name := [path]], StoreView([p, p], [[p, p]]), false), name, ex, pattern)
        == SyncState(map[], StoreView([], [[p, p], []]), false)
  {
    var p := Record(path, pattern);
    RecordsForSingle(path, pattern);
    assert [p][0] == p;
    WithoutAllMatch([p, p], [p]);
    assert map[name := [path]] - {name} == map[];
  }

  /** The label "/test-path" is one path. */
  lemma SplitTestPath()
    ensures Split(ToLower("/test-path")) == ["/test-path"]
  {
    assert ToLower("/test-path") == "/test-path";
    SplitJoin(["/test-path"]);
  }

  /** The label "/a" is one path. */
  lemma SplitSingle()
    ensures Split(ToLower("/a")) == ["/a"]
  {
    assert ToLower("/a") == "/a";
    SplitJoin(["/a"]);
  }
}
