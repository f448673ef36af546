/**
 * The records of the roommate app: roommates, duty entries, ledger
 * transactions and sticky notes, and the view names.
 *
 * Ids are strings. A duty's `YYYY-MM-DD` date is its day number since
 * 1970-01-01; a timestamp is milliseconds since 1970-01-01T00:00:00Z; a
 * money amount is a whole number of cents.
 */
module Types {
  import opened Wrappers

  type Id = string

  /** A calendar date, `YYYY-MM-DD`, as the number of days since 1970-01-01. */
  type DayKey = int

  /** An instant, as milliseconds since 1970-01-01T00:00:00Z. */
  type Instant = int

  datatype Roommate = Roommate(id: Id, name: string, avatar: string)

  /** The test `r => r.id === id` that looks a roommate up by id. */
  function HasId(id: Id): Roommate -> bool {
    (r: Roommate) => r.id == id
  }

  /** `i` is the position of the first roommate with the given id. */
  predicate FirstWithId(roommates: seq<Roommate>, id: Id, i: int) {
    0 <= i < |roommates| && roommates[i].id == id && forall j :: 0 <= j < i ==> roommates[j].id != id
  }

  datatype Duty = Duty(id: Id, date: DayKey, roommateId: Id, task: string, isCompleted: bool)

  /** `'expense' | 'contribution'`. */
  datatype TxType = Expense | Contribution

  datatype Transaction = Transaction(
    id: Id,
    payerId: Id,
    amount: int,
    description: string,
    date: Instant,
    kind: TxType)

  /** A note with no recipient is for everyone; with one, it is directed. */
  datatype StickyNote = StickyNote(
    id: Id,
    authorId: Id,
    recipientId: Option<Id>,
    content: string,
    isAnonymous: bool,
    color: string,
    date: Instant)

  /** The five names the `ViewState` union declares. */
  const ViewStates: set<string> := {"dashboard", "duty", "money", "games", "notes"}

  type ViewState = v: string | v in ViewStates witness "dashboard"
}
