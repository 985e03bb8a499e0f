/** The vehicle page: the fetched list and the list shown under the
    search box, filtered by a case-insensitive substring match on the
    vehicle number, plate, brand and model. */
module VehicleSearch {
  import opened Wrappers
  import opened Text
  import opened Fleet
  import opened Seqs

  /** One of the four searched fields, lower-cased, includes `needle`. */
  predicate MatchesLowered(v: Vehicle, needle: string)
  {
    || Contains(Lower(v.vehicleNumber), needle)
    || Contains(Lower(v.licensePlate), needle)
    || Contains(Lower(v.brand), needle)
    || Contains(Lower(v.model), needle)
  }

  /** The vehicle matches the search term, ignoring case. */
  predicate Matches(v: Vehicle, term: string)
  {
    MatchesLowered(v, Lower(term))
  }

  /** The search effect: the full list for an empty term, otherwise the
      vehicles that match it. */
  function SearchFilter(vs: seq<Vehicle>, term: string): (r: seq<Vehicle>)
    ensures term == "" ==> r == vs
    ensures IsSubseq(r, vs)
    ensures forall v :: multiset(r)[v] == if Matches(v, term) then multiset(vs)[v] else 0
    ensures forall v :: v in r <==> v in vs && Matches(v, term)
  {
    if term != "" then
      var needle := Lower(term);
      Filter(vs, v => MatchesLowered(v, needle))
    else
      ContainsEmpty();
      assert forall v :: Matches(v, term);
      SubseqRefl(vs);
      vs
  }

  /** Terms that differ only in letter case select the same vehicles. */
  lemma SearchIgnoresCase(vs: seq<Vehicle>, t1: string, t2: string)
    requires Lower(t1) == Lower(t2)
    ensures SearchFilter(vs, t1) == SearchFilter(vs, t2)
  {
  }

  class VehiclesPage {
    var vehicles: seq<Vehicle>
    var filteredVehicles: seq<Vehicle>
    var searchTerm: string

    constructor ()
      ensures vehicles == [] && filteredVehicles == [] && searchTerm == ""
    {
      vehicles, filteredVehicles, searchTerm := [], [], "";
    }

    /** `fetchVehicles`: `data` is the fetched rows, or `None` when the
        query returned no data. */
    method FetchVehicles(data: Option<seq<Vehicle>>)
      modifies this
      ensures data.Some? ==> vehicles == data.value && filteredVehicles == data.value
      ensures data.None? ==> vehicles == old(vehicles) && filteredVehicles == old(filteredVehicles)
      ensures searchTerm == old(searchTerm)
    {
      if data.Some? {
        vehicles := data.value;
        filteredVehicles := data.value;
      }
    }

    /** The effect that runs whenever the term or the list changes. */
    method ApplySearch()
      modifies this`filteredVehicles
      ensures filteredVehicles == SearchFilter(vehicles, searchTerm)
    {
      if searchTerm != "" {
        var needle := Lower(searchTerm);
        filteredVehicles := Filter(vehicles, v => MatchesLowered(v, needle));
      } else {
        filteredVehicles := vehicles;
      }
    }

    /** Typing in the search box: the term changes and the effect runs. */
    method SetSearchTerm(term: string)
      modifies this
      ensures searchTerm == term && vehicles == old(vehicles)
      ensures filteredVehicles == SearchFilter(vehicles, term)
    {
      searchTerm := term;
      ApplySearch();
    }
  }
}
