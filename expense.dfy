/**
 * The expense record as the Mongoose schema declares it, and the invariant of
 * the collection that holds it: records are keyed by their `id`, which the
 * schema's unique index makes a primary key.
 */
module ExpenseModel {
  import opened Wrappers
  import opened Calendar

  /**
   * One stored expense. `amount` is in minor currency units (cents);
   * `date` is the calendar day of the expense; `createdAt` is the insertion
   * time in milliseconds, never supplied by the client.
   */
  datatype Expense = Expense(
    id: string,
    amount: int,
    category: string,
    description: Option<string>,
    date: Date,
    createdAt: int)

  /**
   * The schema's `required` validators: Mongoose refuses an absent value and,
   * on a String path, the empty string. `amount` (a Number) and `date` are
   * always present in this representation, and nothing in the schema bounds
   * `amount`; `description` is optional.
   */
  predicate SchemaValid(e: Expense)
  {
    e.id != "" && e.category != ""
  }

  /**
   * A record as the schema builds it from the fields of a create call:
   * `created_at` takes its default, the insertion time `now`.
   */
  function NewExpense(id: string, amount: int, category: string, description: Option<string>, date: Date, now: int): Expense
  {
    Expense(id, amount, category, description, date, now)
  }

  /** The schema alone accepts a non-positive amount; only the server's validation refuses it. */
  lemma SchemaDoesNotBoundAmount()
    ensures SchemaValid(Expense("x", -5, "Food", None, Date(2024, 1, 1), 0))
  {
  }

  /** The unique index on `id`: every record sits under its own id. */
  predicate KeyedById(records: map<string, Expense>)
  {
    forall k :: k in records ==> records[k].id == k
  }

  /** No two stored records share an `id`. */
  lemma NoSharedIds(records: map<string, Expense>, k1: string, k2: string)
    requires KeyedById(records)
    requires k1 in records && k2 in records && k1 != k2
    ensures records[k1].id != records[k2].id
  {
  }

  /**
   * What every record in the store satisfies: keyed by id, accepted by the
   * schema, a positive amount (which only the server's validation enforces)
   * and a date that exists in the calendar.
   */
  predicate StoreInvariant(records: map<string, Expense>)
  {
    KeyedById(records)
    && forall k :: k in records ==>
         SchemaValid(records[k]) && records[k].amount > 0 && IsCalendarDate(records[k].date)
  }
}
