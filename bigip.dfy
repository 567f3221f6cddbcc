/**
 * The route synchroniser as the Go code holds it: an object with a route
 * cache that its batch methods update in place, driving GET-modify-PUT
 * updates of an external data group. The data group is modelled by a store
 * object; how each request fares is supplied by the `net` oracle.
 */
module BigIpClient {
  import opened Wrappers
  import opened GoStrings
  import opened Records
  import opened RouteSync

  /** The load balancer's data group: its records and the log of PUT bodies it received. */
  class DataGroupStore {
    var records: seq<Record>
    var puts: seq<seq<Record>>

    constructor (initial: seq<Record>)
      ensures records == initial && puts == []
    {
      records := initial;
      puts := [];
    }

    function View(): StoreView
      reads this
    {
      StoreView(records, puts)
    }

    /** Receives a PUT body; `applied` says whether the store took it. */
    method Put(payload: seq<Record>, applied: bool)
      modifies this
      ensures puts == old(puts) + [payload]
      ensures records == if applied then payload else old(records)
    {
      puts := puts + [payload];
      if applied {
        records := payload;
      }
    }
  }

  /** The `BigIp` synchroniser: the route cache, the backend pattern, and the data group it writes. */
  class BigIp {
    var services: map<string, seq<string>>
    const pattern: string
    const store: DataGroupStore

    constructor (pattern: string, store: DataGroupStore)
      ensures services == map[] && this.pattern == pattern && this.store == store
    {
      services := map[];
      this.pattern := pattern;
      this.store := store;
    }

    /**
     * `updateDataGroup`: fetch the records, append or filter out the records
     * built from `paths`, and PUT the whole collection back.
     */
    method UpdateDataGroup(paths: seq<string>, remove: bool, ex: Exchange) returns (err: Option<UpdateError>)
      modifies store
      ensures err == UpdateOutcome(ex)
      ensures store.View() == UpdateView(old(store.View()), paths, pattern, remove, ex)
    {
      match ex.get
      case TransportError =>
        return Some(GetFailed);
      case Status(code) =>
        if code != STATUS_OK {
          return Some(GetStatus(code));
        }
        if !ex.bodyDecodes {
          return Some(Undecodable);
        }
        var fetched := store.records;
        var records := GetRecords(paths, pattern);
        var payload: seq<Record>;
        if remove {
          var buffer := new Record[|fetched|](i requires 0 <= i < |fetched| => fetched[i]);
          assert buffer[..] == fetched;
          var kept := RemoveRecords(buffer, records);
          payload := buffer[..kept];
        } else {
          payload := fetched;
          for i := 0 to |records|
            invariant payload == fetched + records[..i]
          {
            assert records[..i + 1] == records[..i] + [records[i]];
            payload := payload + [records[i]];
          }
          assert records[..|records|] == records;
        }
        store.Put(payload, ex.put == Status(STATUS_OK) || ex.failedPutApplied);
        match ex.put
        case TransportError =>
          return Some(PutFailed);
        case Status(putCode) =>
          if putCode != STATUS_OK {
            return Some(PutStatus(putCode));
          }
          return None;
    }

    /**
     * `AddRoutes`: for every service carrying the path label, update the data
     * group and cache the paths on success; report one error if any update failed.
     */
    method AddRoutes(batch: seq<Service>, net: nat -> Exchange) returns (err: Option<string>)
      modifies this, store
      ensures SyncState(services, store.View(), err.Some?)
           == AddAll(SyncState(old(services), old(store.View()), false), batch, net, pattern, |batch|)
      ensures err.Some? ==> err.value == ADD_ROUTES_FAILED
    {
      ghost var start := SyncState(services, store.View(), false);
      var errs: seq<UpdateError> := [];
      for i := 0 to |batch|
        invariant SyncState(services, store.View(), |errs| > 0) == AddAll(start, batch, net, pattern, i)
      {
        var s := batch[i];
        if SERVICE_PATH_LABEL in s.labels {
          var lowered := ToLower(s.labels[SERVICE_PATH_LABEL]);
          var paths := Split(lowered);
          var e := UpdateDataGroup(paths, false, net(i));
          if e.Some? {
            errs := errs + [e.value];
          } else {
            services := services[s.name := paths];
          }
        }
      }
      if |errs| > 0 {
        return Some(ADD_ROUTES_FAILED);
      }
      return None;
    }

    /**
     * `RemoveRoutes`: for every cached name, filter its cached paths out of
     * the data group and drop the name on success; report one error if any update failed.
     */
    method RemoveRoutes(names: seq<string>, net: nat -> Exchange) returns (err: Option<string>)
      modifies this, store
      ensures SyncState(services, store.View(), err.Some?)
           == RemoveAll(SyncState(old(services), old(store.View()), false), names, net, pattern, |names|)
      ensures err.Some? ==> err.value == REMOVE_ROUTES_FAILED
    {
      ghost var start := SyncState(services, store.View(), false);
      var errs: seq<UpdateError> := [];
      for i := 0 to |names|
        invariant SyncState(services, store.View(), |errs| > 0) == RemoveAll(start, names, net, pattern, i)
      {
        var s := names[i];
        if s in services {
          var paths := services[s];
          var e := UpdateDataGroup(paths, true, net(i));
          if e.Some? {
            errs := errs + [e.value];
          } else {
            services := services - {s};
          }
        }
      }
      if |errs| > 0 {
        return Some(REMOVE_ROUTES_FAILED);
      }
      return None;
    }
  }
}
