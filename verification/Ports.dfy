/** The port allocator of hayabusa/port_manager.go. */
module Ports {
  import opened Common

  const MIN_PORT := 20000
  const MAX_PORT := 32767
  const MAX_ATTEMPTS := 100

  type Id = string

  predicate InRange(port: int) { MIN_PORT <= port <= MAX_PORT }

  /** Two random bytes, reduced to the range. */
  function RandomPort(high: nat, low: nat): (port: int)
    requires high < 256 && low < 256
    ensures InRange(port)
  {
    MIN_PORT + (high * 256 + low) % (MAX_PORT - MIN_PORT + 1)
  }

  /** The port is the 16-bit number of the two bytes, counted round the 12768 ports from 20000. */
  lemma RandomPortIs(high: nat, low: nat)
    requires high < 256 && low < 256
    ensures 20000 <= RandomPort(high, low) <= 32767
    ensures (256 * high + low - (RandomPort(high, low) - 20000)) % 12768 == 0
  {
  }

  ghost predicate Distinct(s: seq<int>) {
    forall i, j | 0 <= i < j < |s| :: s[i] != s[j]
  }

  function Listed(lists: map<Id, seq<int>>, id: Id): seq<int> { if id in lists then lists[id] else [] }

  /** The used ports are the disjoint union of the lists of the ids, and all lie in the range. */
  ghost predicate Partitioned(ports: set<int>, lists: map<Id, seq<int>>) {
    && (forall port :: port in ports <==> exists id :: id in lists && port in lists[id])
    && (forall id | id in lists :: Distinct(lists[id]))
    && (forall a, b, port | a in lists && b in lists && a != b && port in lists[a] :: port !in lists[b])
    && (forall port | port in ports :: InRange(port))
  }

  lemma EmptyListKeeps(ports: set<int>, lists: map<Id, seq<int>>, id: Id)
    requires Partitioned(ports, lists)
    ensures Partitioned(ports, lists[id := Listed(lists, id)])
  {
    var lists' := lists[id := Listed(lists, id)];
    forall port ensures port in ports <==> exists i :: i in lists' && port in lists'[i] {
      if port in ports {
        var i :| i in lists && port in lists[i];
        assert i in lists' && port in lists'[i];
      }
    }
  }

  lemma AppendKeeps(ports: set<int>, lists: map<Id, seq<int>>, id: Id, port: int)
    requires Partitioned(ports, lists) && id in lists && port !in ports && InRange(port)
    ensures Partitioned(ports + {port}, lists[id := lists[id] + [port]])
  {
    var lists' := lists[id := lists[id] + [port]];
    assert port in lists'[id];
    forall p ensures p in ports + {port} <==> exists i :: i in lists' && p in lists'[i] {
      if p in ports {
        var i :| i in lists && p in lists[i];
        assert i in lists' && p in lists'[i];
      }
      if i :| i in lists' && p in lists'[i] {
        assert p == port || (i in lists && p in lists[i]);
      }
    }
    forall i | i in lists ensures port !in lists[i] {}
  }

  lemma RemoveKeeps(ports: set<int>, lists: map<Id, seq<int>>, id: Id, ports': set<int>)
    requires Partitioned(ports, lists) && id in lists
    requires forall port :: port in ports' <==> port in ports && port !in lists[id]
    ensures Partitioned(ports', lists - {id})
  {
    var lists' := lists - {id};
    forall p ensures p in ports' <==> exists i :: i in lists' && p in lists'[i] {
      if p in ports' {
        var i :| i in lists && p in lists[i];
        assert i in lists' && p in lists'[i];
      }
      if i :| i in lists' && p in lists'[i] {
        assert i in lists && p in lists[i];
      }
    }
  }

  class PortManager {
    var ports: set<int>                  // the keys of the Go map: delete removes them
    var portsByID: map<Id, seq<int>>

    ghost predicate Valid()
      reads this
    {
      Partitioned(ports, portsByID)
    }

    constructor ()
      ensures Valid() && ports == {} && portsByID == map[]
    {
      ports, portsByID := {}, map[];
    }

    /** `rndPort`. `bytes(k)` are the two random bytes of attempt k and `free(t, port)` whether
        the port can be bound at the t-th probe. No result is the panic: it happens only if the
        final sweep found every port of the range used or not bindable when it came by. */
    method RndPort(bytes: nat -> (nat, nat), free: (nat, int) -> bool) returns (r: Option<int>)
      requires forall k :: bytes(k).0 < 256 && bytes(k).1 < 256
      modifies this`ports
      ensures r.Some? ==> InRange(r.value) && r.value !in old(ports) && ports == old(ports) + {r.value}
      ensures r.Some? ==>
                || (exists k: nat | k < MAX_ATTEMPTS ::
                      && RandomPort(bytes(k).0, bytes(k).1) == r.value && free(k, r.value)
                      && forall j: nat | j < k ::
                           var port := RandomPort(bytes(j).0, bytes(j).1); port in old(ports) || !free(j, port))
                || (&& free(MAX_ATTEMPTS + r.value - MIN_PORT, r.value)
                    && (forall j: nat | j < MAX_ATTEMPTS ::
                          var port := RandomPort(bytes(j).0, bytes(j).1); port in old(ports) || !free(j, port))
                    && forall q | MIN_PORT <= q < r.value :: q in old(ports) || !free(MAX_ATTEMPTS + q - MIN_PORT, q))
      ensures r.None? ==> ports == old(ports)
      ensures r.None? ==> forall port | InRange(port) :: port in ports || !free(MAX_ATTEMPTS + port - MIN_PORT, port)
      ensures r.None? ==> forall k: nat | k < MAX_ATTEMPTS ::
                var port := RandomPort(bytes(k).0, bytes(k).1); port in ports || !free(k, port)
    {
      var attempts := 0;
      while attempts < MAX_ATTEMPTS
        invariant 0 <= attempts <= MAX_ATTEMPTS && ports == old(ports)
        invariant forall k: nat | k < attempts ::
                    var port := RandomPort(bytes(k).0, bytes(k).1); port in ports || !free(k, port)
      {
        var port := RandomPort(bytes(attempts).0, bytes(attempts).1);
        if port !in ports && free(attempts, port) {
          ports := ports + {port};
          return Some(port);
        }
        attempts := attempts + 1;
      }
      var port := MIN_PORT;
      while port <= MAX_PORT
        invariant MIN_PORT <= port <= MAX_PORT + 1 && ports == old(ports)
        invariant forall q | MIN_PORT <= q < port :: q in ports || !free(MAX_ATTEMPTS + q - MIN_PORT, q)
      {
        if port !in ports && free(MAX_ATTEMPTS + port - MIN_PORT, port) {
          ports := ports + {port};
          return Some(port);
        }
        port := port + 1;
      }
      r := None;
    }

    /** A new port is in the range, was not in use, and is appended to the list of its id only. */
    method NewPort(id: Id, bytes: nat -> (nat, nat), free: (nat, int) -> bool) returns (r: Option<int>)
      requires Valid()
      requires forall k :: bytes(k).0 < 256 && bytes(k).1 < 256
      modifies this
      ensures Valid()
      ensures r.Some? ==> InRange(r.value) && r.value !in old(ports) && ports == old(ports) + {r.value}
      ensures r.Some? ==> portsByID == old(portsByID)[id := Listed(old(portsByID), id) + [r.value]]
      ensures r.None? ==> ports == old(ports) && portsByID == old(portsByID)[id := Listed(old(portsByID), id)]
      ensures r.None? ==> forall port | InRange(port) :: port in ports || !free(MAX_ATTEMPTS + port - MIN_PORT, port)
    {
      if id !in portsByID {
        portsByID := portsByID[id := []];
      }
      EmptyListKeeps(old(ports), old(portsByID), id);
      r := RndPort(bytes, free);
      if r.Some? {
        var port := r.value;
        AppendKeeps(old(ports), portsByID, id, port);
        ports := ports + {port};
        portsByID := portsByID[id := portsByID[id] + [port]];
      }
    }

    /** Exactly the ports of this id become free; other ids keep theirs. */
    method RemovePorts(id: Id)
      requires Valid()
      modifies this
      ensures Valid()
      ensures portsByID == old(portsByID) - {id}
      ensures forall port :: port in ports <==> port in old(ports) && port !in Listed(old(portsByID), id)
    {
      if id !in portsByID { return; }
      var list := portsByID[id];
      for k := 0 to |list|
        invariant portsByID == old(portsByID)
        invariant forall port :: port in ports <==> port in old(ports) && port !in list[..k]
      {
        ports := ports - {list[k]};
        assert list[..k + 1] == list[..k] + [list[k]];
      }
      assert list[..|list|] == list;
      RemoveKeeps(old(ports), portsByID, id, ports);
      portsByID := portsByID - {id};
    }
  }
}
