/** The statuses and the subscriptions that `StaticChecker` guards with its lock. */
module HealthChecker {
  import opened Common

  type Service = string

  datatype Status = UnknownStatus | Serving | NotServing | ServiceUnknown

  type Statuses = map<Service, Status>

  /** A callback is identified by the watch it wakes. */
  type WatchId = nat

  type Watchers = map<Service, set<WatchId>>

  /** What `check_sync` returns: the server as a whole is serving unless told otherwise. */
  function Report(statuses: Statuses, service: Service): Option<Status> {
    if service in statuses then Some(statuses[service])
    else if service == "" then Some(Serving)
    else None
  }

  /** The status that Watch sends for a reading. */
  function Shown(reading: Option<Status>): Status {
    if reading.None? then ServiceUnknown else reading.value
  }

  function Callbacks(watchers: Watchers, service: Service): set<WatchId> {
    if service in watchers then watchers[service] else {}
  }

  function Subscribed(watchers: Watchers, service: Service, w: WatchId): Watchers {
    watchers[service := Callbacks(watchers, service) + {w}]
  }

  function Unsubscribed(watchers: Watchers, service: Service, w: WatchId): Watchers {
    var rest := Callbacks(watchers, service) - {w};
    if rest == {} then watchers - {service} else watchers[service := rest]
  }

  /** Every callback is registered under one service, and no service has an empty set. */
  ghost predicate NoEmptySets(watchers: Watchers) {
    forall service :: service in watchers ==> watchers[service] != {}
  }

  /** Leaving `_notify` undoes entering it, down to the keys of the dictionary. */
  lemma UnsubscribeUndoesSubscribe(watchers: Watchers, service: Service, w: WatchId)
    requires NoEmptySets(watchers)
    requires w !in Callbacks(watchers, service)
    ensures Unsubscribed(Subscribed(watchers, service, w), service, w) == watchers
  {
    var during := Subscribed(watchers, service, w);
    assert Callbacks(during, service) - {w} == Callbacks(watchers, service);
  }

  class StaticChecker {
    var statuses: Statuses
    var watchers: Watchers

    constructor (services: set<Service>)
      ensures forall s :: s in statuses <==> s in services
      ensures forall s :: s in services ==> statuses[s] == Serving
      ensures watchers == map[]
    {
      statuses := map s | s in services :: Serving;
      watchers := map[];
    }

    /** The critical section of `set_status`: the update and the snapshot of the callbacks. */
    method SetStatus(service: Service, status: Status) returns (callbacks: seq<WatchId>)
      modifies this`statuses
      ensures statuses == old(statuses)[service := status]
      ensures forall w :: w in callbacks <==> w in Callbacks(watchers, service)
      ensures forall i, j :: 0 <= i < j < |callbacks| ==> callbacks[i] != callbacks[j]
    {
      statuses := statuses[service := status];
      var remaining := Callbacks(watchers, service);
      callbacks := [];
      while remaining != {}
        invariant forall w :: w in Callbacks(watchers, service) <==> w in callbacks || w in remaining
        invariant forall w :: w in callbacks ==> w !in remaining
        invariant forall i, j :: 0 <= i < j < |callbacks| ==> callbacks[i] != callbacks[j]
        decreases remaining
      {
        var w :| w in remaining;
        callbacks := callbacks + [w];
        remaining := remaining - {w};
      }
    }

    method CheckSync(service: Service) returns (reading: Option<Status>)
      ensures reading == Report(statuses, service)
      ensures service in statuses ==> reading == Some(statuses[service])
      ensures service !in statuses ==> reading == if service == "" then Some(Serving) else None
    {
      reading := if service in statuses then Some(statuses[service]) else None;
      if reading.None? && service == "" {
        reading := Some(Serving);
      }
    }

    /** The listing holds the server as a whole and exactly the services that are known. */
    method ListSync() returns (listing: Statuses)
      ensures listing.Keys == statuses.Keys + {""}
      ensures forall s :: s in statuses ==> listing[s] == statuses[s]
      ensures "" !in statuses ==> listing[""] == Serving
    {
      listing := map["" := Serving] + statuses;
    }

    method Subscribe(service: Service, w: WatchId)
      modifies this`watchers
      ensures watchers == Subscribed(old(watchers), service, w)
    {
      if service !in watchers {
        watchers := watchers[service := {}];
      }
      watchers := watchers[service := watchers[service] + {w}];
    }

    /** The cleanup of `_notify`; false stands for the KeyError of its dictionary lookup. */
    method Unsubscribe(service: Service, w: WatchId) returns (found: bool)
      modifies this`watchers
      ensures found == (service in old(watchers))
      ensures watchers == if found then Unsubscribed(old(watchers), service, w) else old(watchers)
    {
      found := service in watchers;
      if found {
        watchers := watchers[service := watchers[service] - {w}];
        if watchers[service] == {} {
          watchers := watchers - {service};
        }
      }
    }
  }
}
