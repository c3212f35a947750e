/** The persisted records the handlers read and write. Timestamps that the
    service stamps itself are instants; the ones a client sends in a JSON
    body are kept as the text the client sent. GORM's DeletedAt column is
    not a field: a soft-deleted row is simply absent from its table. */
module Models {
  import opened Common

  /** A catalog entry; `period` is the length of the plan in days. */
  datatype PremiumSubscription = PremiumSubscription(
    id: nat,
    plan: string,
    period: nat,
    status: string,
    createdAt: string,
    updatedAt: string)

  /** Column limits of premium_subscriptions: plan is varchar(100), status varchar(50). */
  const PlanColumnWidth: nat := 100
  const StatusColumnWidth: nat := 50

  /** The database default of the status column. */
  const DefaultCatalogStatus: string := "active"

  /** The row a failed catalog lookup leaves in the handler's variable:
      Go's zero value, whose period is 0 days. */
  const ZeroSubscription: PremiumSubscription := PremiumSubscription(0, "", 0, "", "", "")

  /** A grant of access for one user over the window [startDate, endDate]. */
  datatype UserSubscription = UserSubscription(
    id: nat,
    userId: nat,
    subscriptionId: nat,
    startDate: Instant,
    endDate: Instant,
    createdAt: Instant,
    updatedAt: Instant)

  /** The record of one payment attempt. */
  datatype Transaction = Transaction(
    id: nat,
    subscriptionId: nat,
    status: string,
    createdAt: Instant,
    updatedAt: Instant)

  // Transaction statuses written by the payment workflow.
  const Paid: string := "paid"
  const Completed: string := "completed"

  /** The user fields the core reads (password and confirmation state are not used). */
  datatype User = User(id: int, name: string, email: string, roleId: nat)

  datatype Role = Role(id: nat, name: string, code: string)
}
