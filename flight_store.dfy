/** What each operation of the keyed in-memory flight store does to the map:
    the specification that the service and resource classes are proved against. */
module FlightStore {
  import opened Results
  import opened Flights

  /** `getFlight`: the stored flight, or NoSuchFlight. */
  function Get(m: FlightMap, id: int): Result<Flight, Exception> {
    if id in m then Ok(m[id]) else Err(NoSuchFlight(id))
  }

  /** `createFlight`: fails iff the id is taken; otherwise adds exactly the
      new entry, and deleting it again gives back the old map. */
  function Create(m: FlightMap, f: Flight): (r: Result<FlightMap, Exception>)
    ensures r.Err? <==> f.id in m
    ensures r.Err? ==> r.error == FlightExists(f.id)
    ensures r.Ok? ==> r.value.Keys == m.Keys + {f.id} && Get(r.value, f.id) == Ok(f)
    ensures r.Ok? ==> forall k :: k in m ==> r.value[k] == m[k]
    ensures r.Ok? ==> Delete(r.value, f.id) == Ok(m)
    ensures r.Ok? && KeyedById(m) ==> KeyedById(r.value)
  {
    if f.id in m then Err(FlightExists(f.id))
    else
      var m' := m[f.id := f];
      assert m' - {f.id} == m;
      Ok(m')
  }

  /** `updateFlight`: fails iff the id is absent; otherwise replaces exactly
      the entry at the flight's id and keeps the key set. */
  function Update(m: FlightMap, f: Flight): (r: Result<FlightMap, Exception>)
    ensures r.Err? <==> f.id !in m
    ensures r.Err? ==> r.error == NoSuchFlight(f.id)
    ensures r.Ok? ==> r.value.Keys == m.Keys && Get(r.value, f.id) == Ok(f)
    ensures r.Ok? ==> forall k :: k in m && k != f.id ==> r.value[k] == m[k]
    ensures r.Ok? && KeyedById(m) ==> KeyedById(r.value)
  {
    if f.id !in m then Err(NoSuchFlight(f.id)) else Ok(m[f.id := f])
  }

  /** `deleteFlight`: fails iff the id is absent; otherwise removes exactly
      that key, after which a lookup of the id fails. */
  function Delete(m: FlightMap, id: int): (r: Result<FlightMap, Exception>)
    ensures r.Err? <==> id !in m
    ensures r.Err? ==> r.error == NoSuchFlight(id)
    ensures r.Ok? ==> r.value.Keys == m.Keys - {id} && Get(r.value, id) == Err(NoSuchFlight(id))
    ensures r.Ok? ==> forall k :: k in r.value ==> r.value[k] == m[k]
    ensures r.Ok? && KeyedById(m) ==> KeyedById(r.value)
  {
    if id !in m then Err(NoSuchFlight(id)) else Ok(m - {id})
  }

  /** `flights.get(id).status = CANCELLED`: whatever the prior status, the
      flight becomes Cancelled and nothing else in the store changes. */
  function MarkCancelled(m: FlightMap, id: int): (r: FlightMap)
    requires id in m
    ensures r.Keys == m.Keys && r[id].status == Cancelled
    ensures r[id].(status := m[id].status) == m[id]
    ensures forall k :: k in m && k != id ==> r[k] == m[k]
    ensures KeyedById(m) ==> KeyedById(r)
  {
    m[id := m[id].(status := Cancelled)]
  }

  /** Cancelling an already cancelled flight leaves the store as it is. */
  lemma MarkCancelledIdempotent(m: FlightMap, id: int)
    requires id in m
    ensures MarkCancelled(MarkCancelled(m, id), id) == MarkCancelled(m, id)
  {
  }

  /** `r` lists stored flights, each under its id, each once, all of them. */
  ghost predicate Lists(r: seq<Flight>, m: FlightMap) {
    && |r| == |m|
    && (forall i :: 0 <= i < |r| ==> r[i].id in m && m[r[i].id] == r[i])
    && (forall i, j :: 0 <= i < j < |r| ==> r[i].id != r[j].id)
  }

  /** `flights.values().stream().toList()`: the stored flights in the map's
      iteration order, which is left unspecified. */
  method ValuesToList(m: FlightMap) returns (r: seq<Flight>)
    requires KeyedById(m)
    ensures Lists(r, m)
  {
    r := [];
    var rest := m.Items;
    while rest != {}
      invariant rest <= m.Items
      invariant |r| + |rest| == |m|
      invariant forall i :: 0 <= i < |r| ==> r[i].id in m && m[r[i].id] == r[i] && (r[i].id, r[i]) !in rest
      invariant forall i, j :: 0 <= i < j < |r| ==> r[i].id != r[j].id
    {
      var entry :| entry in rest;
      assert entry.0 in m && m[entry.0] == entry.1 && entry.1.id == entry.0;
      forall i | 0 <= i < |r| ensures r[i].id != entry.0 {
        assert (r[i].id, r[i]) != entry;
      }
      r := r + [entry.1];
      rest := rest - {entry};
    }
  }

  /** A listing holds exactly the stored values: nothing else, none missing. */
  lemma {:induction false} ListsExactlyValues(r: seq<Flight>, m: FlightMap)
    requires KeyedById(m) && Lists(r, m)
    ensures forall f :: f in r <==> f in m.Values
  {
    if r != [] {
      var last := r[|r| - 1];
      var r', m' := r[..|r| - 1], m - {last.id};
      assert |m'.Keys| == |m.Keys - {last.id}| == |m.Keys| - 1;
      forall i | 0 <= i < |r'| ensures r'[i].id in m' && m'[r'[i].id] == r'[i] {
        assert r'[i] == r[i] && r[i].id != r[|r| - 1].id;
      }
      ListsExactlyValues(r', m');
      forall k | k in m ensures m[k] in r {
        if k != last.id {
          assert m'[k] == m[k] && m[k] in m'.Values;
        }
      }
    }
  }

  /** An empty store lists nothing. */
  lemma ListsEmpty(r: seq<Flight>)
    requires Lists(r, map[])
    ensures r == []
  {
  }
}
