/** In-memory stand-ins for the data store the handlers use: one repository per entity type
    (IRepository<E>) and the unit of work whose `SaveChangesAsync` commits. */
module Persistence {
  import opened Wrappers
  import opened Exceptions

  /** A repository: the stored entities by key, and a log of the entities handed to `Add` and
      to `Update`, in call order. */
  class Repository<E(==)> {
    var entities: map<int, E>
    var added: seq<E>
    var updated: seq<E>

    constructor (entities: map<int, E>)
      ensures this.entities == entities && added == [] && updated == []
    {
      this.entities := entities;
      added, updated := [], [];
    }

    /** `Get(id)`: the stored entity, or null. */
    function Get(id: int): (r: Option<E>)
      reads this
      ensures r.Some? <==> id in entities
      ensures r.Some? ==> r.value == entities[id] && r.value in entities.Values
    {
      if id in entities then Some(entities[id]) else None
    }

    /** `Add(entity)`: the entity is tracked for insertion; its key is issued by the database. */
    method Add(entity: E)
      modifies this
      ensures added == old(added) + [entity]
      ensures entities == old(entities) && updated == old(updated)
    {
      added := added + [entity];
    }

    /** `Remove(id)`: deletes and returns the stored entity, or returns null when there is none. */
    method Remove(id: int) returns (r: Option<E>)
      modifies this
      ensures r == old(Get(id))
      ensures entities == old(entities) - {id}
      ensures added == old(added) && updated == old(updated)
      ensures r.None? ==> unchanged(this)
    {
      r := Get(id);
      if r.None? {
        return;
      }
      entities := entities - {id};
    }

    /** `Update(entity)`: the entity is marked modified. */
    method Update(entity: E)
      modifies this
      ensures updated == old(updated) + [entity]
      ensures entities == old(entities) && added == old(added)
    {
      updated := updated + [entity];
    }
  }

  /** The unit of work. `fault` is the exception the database raises on the next save, if any. */
  class UnitOfWork {
    var saves: nat
    var fault: Option<Exception>

    constructor (fault: Option<Exception>)
      ensures saves == 0 && this.fault == fault
    {
      saves := 0;
      this.fault := fault;
    }

    /** `SaveChangesAsync()`: one commit, or the database's exception. */
    method SaveChanges() returns (r: Outcome<()>)
      modifies this
      ensures fault == old(fault)
      ensures old(fault).None? ==> r.Ok? && saves == old(saves) + 1
      ensures old(fault).Some? ==> r == Throw(old(fault).value) && saves == old(saves)
    {
      if fault.Some? {
        return Throw(fault.value);
      }
      saves := saves + 1;
      return Ok(());
    }
  }
}
