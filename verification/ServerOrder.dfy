/**
  Choosing the order in which servers are asked (core/client/hft_client.go:398-440). The list is
  sorted under the read lock, so no tracker changes meanwhile: `averages` holds what each
  measured server's tracker answers.
 */
module ServerOrder {
  import opened Sorting
  import opened TimeTypes

  /** The comparator: measured servers first, by average; the others by identifier. */
  predicate RttLess(averages: map<string, int>, s: TimeServer, t: TimeServer) {
    if s.id in averages && t.id !in averages then true
    else if s.id !in averages && t.id in averages then false
    else if s.id !in averages && t.id !in averages then StringLess(s.id, t.id)
    else averages[s.id] < averages[t.id]
  }

  /** The comparator orders consistently, whatever has been measured. */
  lemma RttOrder(averages: map<string, int>)
    ensures StrictWeakOrder((s, t) => RttLess(averages, s, t))
  {
    var less := (s, t) => RttLess(averages, s, t);
    StringOrder();
    forall x: TimeServer, y: TimeServer, z: TimeServer | !less(x, y) && !less(y, z) ensures !less(x, z) {
      assert !StringLess(x.id, y.id) && !StringLess(y.id, z.id) ==> !StringLess(x.id, z.id);
    }
    forall x: TimeServer, y: TimeServer, z: TimeServer | less(x, y) && less(y, z) ensures less(x, z) {
      assert StringLess(x.id, y.id) && StringLess(y.id, z.id) ==> StringLess(x.id, z.id);
    }
    forall x: TimeServer ensures !less(x, x) {
      assert !StringLess(x.id, x.id);
    }
  }

  /** Measured servers come first, by ascending average; the others follow by ascending identifier. */
  ghost predicate Ranked(averages: map<string, int>, servers: seq<TimeServer>) {
    forall i, j :: 0 <= i < j < |servers| ==>
      && (servers[j].id in averages ==> servers[i].id in averages)
      && (servers[j].id in averages ==> averages[servers[i].id] <= averages[servers[j].id])
      && (servers[i].id !in averages ==> servers[i].id == servers[j].id || StringLess(servers[i].id, servers[j].id))
  }

  /** The servers of the region, or all of them when no region is asked for or it has none. */
  function Candidates(regionId: string, regional: seq<TimeServer>, all: seq<TimeServer>): seq<TimeServer> {
    if regionId != "" && regional != [] then regional else all
  }

  method GetServersByRtt(regionId: string, regional: seq<TimeServer>, all: seq<TimeServer>, averages: map<string, int>)
    returns (servers: seq<TimeServer>)
    ensures multiset(servers) == multiset(Candidates(regionId, regional, all))
    ensures regionId == "" || regional == [] ==> multiset(servers) == multiset(all)
    ensures regionId != "" && regional != [] ==> multiset(servers) == multiset(regional)
    ensures Ranked(averages, servers)
  {
    servers := [];
    if regionId != "" {
      servers := regional;
    }
    if |servers| == 0 {
      servers := all;
    }
    var a := new TimeServer[|servers|](i requires 0 <= i < |servers| => servers[i]);
    assert a[..] == servers;
    RttOrder(averages);
    SortSlice(a, (s, t) => RttLess(averages, s, t));
    servers := a[..];
    forall i, j | 0 <= i < j < |servers|
      ensures servers[i].id !in averages && servers[j].id !in averages ==>
                servers[i].id == servers[j].id || StringLess(servers[i].id, servers[j].id)
    {
      StringLessTotal(servers[i].id, servers[j].id);
    }
  }
}
