/** Entities and the values they store. */
module Entity {
  import opened Common
  import Address

  type EntityName = string
  type CompName = string
  type VarName = string
  type StorageIndex = (CompName, VarName)

  /** A value, by what queries observe of it: its type, its text and its number where it has one; a bool
      counts as 1 or 0. A text is the sequence of its bytes, which is what a range counts. */
  datatype Var = Var(varType: Address.VarType, text: string, intValue: int, floatValue: real)

  /** The times, in seconds, of the last move to another worker and of the last access. */
  datatype EntityMeta = EntityMeta(lastMoved: Option<nat>, lastAccess: Option<nat>)

  datatype Entity = Entity(storage: map<StorageIndex, Var>, components: seq<CompName>, meta: EntityMeta)
  {
    function Accessed(now: nat): Entity {
      this.(meta := meta.(lastAccess := Some(now)))
    }

    function Moved(now: nat): Entity {
      this.(meta := meta.(lastMoved := Some(now)))
    }

    /** Same components and variables, whatever the bookkeeping says. */
    predicate SameData(other: Entity) {
      storage == other.storage && components == other.components
    }
  }

  type Entities = map<EntityName, Entity>

  ghost predicate SameDataEverywhere(a: Entities, b: Entities) {
    a.Keys == b.Keys && forall n :: n in a ==> a[n].SameData(b[n])
  }
}
