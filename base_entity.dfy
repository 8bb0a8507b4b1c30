/**
 * BaseEntity: the columns every catalogue entity inherits (a UUID key, the
 * creation and modification instants, and the soft-delete mark) and the
 * three operations on the mark.
 *
 * The columns are modelled as the persisted value `Audit`, which is what the
 * tables of the services hold; soft delete and restore replace a row's value.
 */
module BaseEntity {
  import opened Common

  /** The inherited columns of a persisted row. */
  datatype Audit = Audit(id: Id, createdAt: Instant, updatedAt: Instant, deletedAt: Option<Instant>)
  {
    /** isDeleted(): the row carries a deletion instant. */
    predicate IsDeleted() {
      deletedAt.Some?
    }

    /** softDelete(): stamp the deletion instant and touch nothing else. */
    function SoftDeleted(now: Instant): (a: Audit)
      ensures a.IsDeleted() && a.deletedAt == Some(now)
      ensures a.id == id && a.createdAt == createdAt && a.updatedAt == updatedAt
    {
      this.(deletedAt := Some(now))
    }

    /** restore(): clear the deletion instant and touch nothing else. */
    function Restored(): (a: Audit)
      ensures !a.IsDeleted()
      ensures a.id == id && a.createdAt == createdAt && a.updatedAt == updatedAt
    {
      this.(deletedAt := None)
    }
  }

  /** A persisted entity: the inherited columns and the entity's own data. */
  datatype Row<D> = Row(base: Audit, data: D)
  {
    function Id(): Id {
      base.id
    }

    predicate IsDeleted() {
      base.IsDeleted()
    }

    /** `deleted_at IS NULL` in a query. */
    predicate IsActive() {
      !base.IsDeleted()
    }
  }

  /** Restoring a row that was soft-deleted while active gives the row back. */
  lemma RestoreUndoesSoftDelete(a: Audit, now: Instant)
    requires !a.IsDeleted()
    ensures a.SoftDeleted(now).Restored() == a
  {
  }
}
