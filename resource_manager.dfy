/** A keyed resource store whose insertion never overwrites an existing entry. */
module ResourceManager {
  import opened Common

  class ResourceManager<K(==), R> {
    var resources: map<K, R>

    constructor ()
      ensures resources == map[]
    {
      resources := map[];
    }

    /** The resource stored under `id`, or None (a null pointer) when there is none. */
    function Get(id: K): (r: Option<R>)
      reads this
      ensures r.None? <==> id !in resources
      ensures r.Some? ==> r.value == resources[id]
    {
      if id in resources then Some(resources[id]) else None
    }

    /** Stores `res` under `id` unless `id` is already taken. */
    method Add(id: K, res: R)
      modifies this`resources
      ensures resources == InsertAbsent(old(resources), id, res)
    {
      resources := InsertAbsent(resources, id, res);
    }
  }
}
