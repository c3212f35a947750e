/** The service's database, the one process-wide handle every handler
    shares. Three tables are written by the core (catalog, user
    subscriptions, transactions) and two are only read (users, roles).
    Rows are keyed by primary key; a soft-deleted row is no longer
    visible, but its key stays taken. */
module Database {
  import opened Common
  import opened Models

  /** Whether `s` can be assigned to a varchar(width) column: Postgres
      refuses a longer value unless every character past the width is a
      space. */
  predicate FitsWidth(s: string, width: nat) {
    forall i | width <= i < |s| :: s[i] == ' '
  }

  /** The value a varchar(width) column holds after `s` is assigned to it:
      a longer value is cut to the width. */
  function Clip(s: string, width: nat): (r: string)
    ensures |r| <= width && r <= s
    ensures |s| <= width ==> r == s
    ensures FitsWidth(s, width) ==> s == r + seq(|s| - |r|, _ => ' ')
  {
    if |s| <= width then s
    else
      var r := s[..width];
      assert FitsWidth(s, width) ==> s == r + seq(|s| - |r|, _ => ' ') by {
        if FitsWidth(s, width) {
          var pad := seq(|s| - |r|, _ => ' ');
          assert forall i | 0 <= i < |s| :: s[i] == (r + pad)[i];
        }
      }
      r
  }

  /** Whether the driver can send a catalog row's integer columns at all:
      a Go `uint` of 2^63 or more has no `bigint` encoding, so the statement
      fails in the client before it reaches the database. */
  predicate FitsBigint(row: PremiumSubscription) {
    row.id <= MaxInt && row.period <= MaxInt
  }

  /** Whether the database accepts a catalog row's columns: the Go `uint`
      id and period go into `bigint` columns, which hold at most MaxInt, and
      plan and status into varchar columns. */
  predicate FitsColumns(row: PremiumSubscription) {
    && FitsBigint(row)
    && FitsWidth(row.plan, PlanColumnWidth) && FitsWidth(row.status, StatusColumnWidth)
  }

  /** The catalog row as the table stores it: plan and status cut to their
      column widths, everything else as given. */
  function ColumnValues(row: PremiumSubscription): (r: PremiumSubscription)
    ensures r == row.(plan := r.plan, status := r.status)
    ensures r.plan <= row.plan && r.status <= row.status
    ensures |r.plan| <= PlanColumnWidth && |r.status| <= StatusColumnWidth
    ensures |row.plan| <= PlanColumnWidth && |row.status| <= StatusColumnWidth ==> r == row
    ensures FitsColumns(row) ==>
              && row.plan == r.plan + seq(|row.plan| - |r.plan|, _ => ' ')
              && row.status == r.status + seq(|row.status| - |r.status|, _ => ' ')
  {
    row.(plan := Clip(row.plan, PlanColumnWidth), status := Clip(row.status, StatusColumnWidth))
  }

  /** The row as it stands after GORM prepares an INSERT: an empty status
      is replaced by the column default, in the Go value itself, before the
      statement runs. */
  function WithDefaults(row: PremiumSubscription): (r: PremiumSubscription)
    ensures r.id == row.id && r.plan == row.plan && r.period == row.period
    ensures r.status == (if row.status == "" then DefaultCatalogStatus else row.status)
    ensures FitsColumns(r) == FitsColumns(row)
  {
    row.(status := if row.status == "" then DefaultCatalogStatus else row.status)
  }

  /** The Go value after a successful INSERT of `row` under `id`. */
  function InsertedRow(row: PremiumSubscription, id: nat): (r: PremiumSubscription)
    ensures r.id == id && r.plan == row.plan && r.period == row.period
    ensures r.status == (if row.status == "" then DefaultCatalogStatus else row.status)
  {
    WithDefaults(row).(id := id)
  }

  /** The catalog table: its visible rows, every primary key it has ever
      held (soft-deleted rows keep theirs), and the next value of its id
      sequence. */
  datatype CatalogTable = CatalogTable(rows: map<nat, PremiumSubscription>, keys: set<nat>, next: nat)

  /** The result of a write: the new table, the Go value as the handler
      holds it afterwards, and whether the database accepted the statement. */
  datatype CatalogWrite = CatalogWrite(table: CatalogTable, echo: PremiumSubscription, ok: bool)

  /** The primary key an INSERT of `row` uses: its own id, or the next
      sequence value when the id is zero. */
  function InsertKey(row: PremiumSubscription, next: nat): nat {
    if row.id == 0 then next else row.id
  }

  /** GORM's Create. A zero id is left out of the INSERT, so the sequence
      supplies the key and advances even when the database then refuses
      the row; it does not advance when it has run past the largest
      `bigint`, nor when the row cannot be encoded and the statement is
      never sent. A key already held, visible or soft-deleted, or a value that
      does not fit its column, makes the database refuse the row. */
  function Insert(t: CatalogTable, row: PremiumSubscription): (w: CatalogWrite)
    ensures w.table.next == if row.id == 0 && t.next <= MaxInt && FitsBigint(row) then t.next + 1 else t.next
    ensures w.ok <==> InsertKey(row, t.next) !in t.keys && InsertKey(row, t.next) <= MaxInt && FitsColumns(row)
    ensures w.ok ==> && w.echo == InsertedRow(row, InsertKey(row, t.next))
                     && w.table.rows == t.rows[w.echo.id := ColumnValues(w.echo)]
                     && w.table.keys == t.keys + {w.echo.id}
    ensures !w.ok ==> w.echo == WithDefaults(row) && w.table.rows == t.rows && w.table.keys == t.keys
  {
    var id := InsertKey(row, t.next);
    var next := if row.id == 0 && t.next <= MaxInt && FitsBigint(row) then t.next + 1 else t.next;
    if id in t.keys || MaxInt < id || !FitsColumns(row) then
      CatalogWrite(t.(next := next), WithDefaults(row), false)
    else
      var echo := InsertedRow(row, id);
      CatalogWrite(CatalogTable(t.rows[id := ColumnValues(echo)], t.keys + {id}, next), echo, true)
  }

  /** GORM's Save. A zero id is a Create. Otherwise all columns are
      written by `UPDATE ... WHERE id = row.id` on the visible row; when no
      visible row has that key, the row is written by `INSERT ... ON
      CONFLICT (id) DO UPDATE`, which also overwrites and revives a
      soft-deleted row, after the Go value has taken the column defaults.
      An id or period that cannot be encoded makes the UPDATE fail in the
      client, and then no INSERT is attempted. */
  function Save(t: CatalogTable, row: PremiumSubscription): (w: CatalogWrite)
    ensures row.id == 0 ==> w == Insert(t, row)
    ensures row.id != 0 ==> w.table.next == t.next && (w.ok <==> FitsColumns(row))
    ensures row.id != 0 ==> w.echo == if row.id in t.rows || !FitsBigint(row) then row else WithDefaults(row)
    ensures row.id != 0 && w.ok ==> w.table.rows == t.rows[row.id := ColumnValues(w.echo)]
    ensures row.id != 0 && !w.ok ==> w.table.rows == t.rows && w.table.keys == t.keys
  {
    if row.id == 0 then Insert(t, row)
    else if row.id in t.rows then
      if FitsColumns(row) then CatalogWrite(t.(rows := t.rows[row.id := ColumnValues(row)]), row, true)
      else CatalogWrite(t, row, false)
    else if !FitsBigint(row) then CatalogWrite(t, row, false)
    else
      var echo := WithDefaults(row);
      if FitsColumns(row) then
        CatalogWrite(CatalogTable(t.rows[row.id := ColumnValues(echo)], t.keys + {row.id}, t.next), echo, true)
      else CatalogWrite(t, echo, false)
  }

  /** Every visible row's key is among the keys the table has held. */
  predicate KeysCover(t: CatalogTable) {
    forall k | k in t.rows :: k in t.keys && t.rows[k].id == k
  }

  /** A write keeps the table's keys covering its rows, changes no row but
      the one under the echoed key, and leaves that row as the column
      values of the echo. An accepted INSERT never overwrites a row. */
  lemma {:induction false} WriteTouchesOnlyItsKey(t: CatalogTable, row: PremiumSubscription, save: bool)
    requires KeysCover(t)
    ensures var w := if save then Save(t, row) else Insert(t, row);
            && KeysCover(w.table)
            && (forall k | k in t.rows && k != w.echo.id :: k in w.table.rows && w.table.rows[k] == t.rows[k])
            && (w.ok ==> w.echo.id in w.table.rows && w.table.rows[w.echo.id] == ColumnValues(w.echo))
            && (!save && w.ok ==> w.echo.id !in t.rows)
  {
    var w := if save then Save(t, row) else Insert(t, row);
    if w.ok {
      assert w.echo.id == (if save && row.id != 0 then row.id else InsertKey(row, t.next));
    }
  }

  /** The visible user subscriptions after `DELETE ... WHERE subscription_id = id`. */
  function UserSubscriptionsWithout(m: map<nat, UserSubscription>, id: int): (r: map<nat, UserSubscription>)
    ensures forall k :: k in r <==> k in m && m[k].subscriptionId != id
    ensures forall k :: k in r ==> r[k] == m[k]
  {
    map k | k in m && m[k].subscriptionId != id :: m[k]
  }

  /** The visible transactions after `DELETE ... WHERE subscription_id = id`. */
  function TransactionsWithout(m: map<nat, Transaction>, id: int): (r: map<nat, Transaction>)
    ensures forall k :: k in r <==> k in m && m[k].subscriptionId != id
    ensures forall k :: k in r ==> r[k] == m[k]
  {
    map k | k in m && m[k].subscriptionId != id :: m[k]
  }

  /** The visible catalog after `DELETE ... WHERE id = id`. */
  function CatalogWithout(m: map<nat, PremiumSubscription>, id: int): (r: map<nat, PremiumSubscription>)
    ensures forall k :: k in r <==> k in m && k != id
    ensures forall k :: k in r ==> r[k] == m[k]
  {
    map k | k in m && k != id :: m[k]
  }

  /** A delete whose condition matches no visible row changes nothing. */
  lemma DeleteOfUnreferencedId(us: map<nat, UserSubscription>, ts: map<nat, Transaction>,
                               cs: map<nat, PremiumSubscription>, id: int)
    requires forall k :: k in us ==> us[k].subscriptionId != id
    requires forall k :: k in ts ==> ts[k].subscriptionId != id
    requires id !in cs
    ensures UserSubscriptionsWithout(us, id) == us
    ensures TransactionsWithout(ts, id) == ts
    ensures CatalogWithout(cs, id) == cs
  {
    assert UserSubscriptionsWithout(us, id).Keys == us.Keys;
    assert TransactionsWithout(ts, id).Keys == ts.Keys;
    assert CatalogWithout(cs, id).Keys == cs.Keys;
  }

  /** Deleting the same id twice is the same as deleting it once. */
  lemma DeleteTwice(us: map<nat, UserSubscription>, ts: map<nat, Transaction>,
                    cs: map<nat, PremiumSubscription>, id: int)
    ensures UserSubscriptionsWithout(UserSubscriptionsWithout(us, id), id) == UserSubscriptionsWithout(us, id)
    ensures TransactionsWithout(TransactionsWithout(ts, id), id) == TransactionsWithout(ts, id)
    ensures CatalogWithout(CatalogWithout(cs, id), id) == CatalogWithout(cs, id)
  {
    var u := UserSubscriptionsWithout(us, id);
    assert UserSubscriptionsWithout(u, id).Keys == u.Keys;
    var t := TransactionsWithout(ts, id);
    assert TransactionsWithout(t, id).Keys == t.Keys;
    var c := CatalogWithout(cs, id);
    assert CatalogWithout(c, id).Keys == c.Keys;
  }

  /** `First(&user, id)` on the users table. */
  function UserById(users: seq<User>, id: int): (r: Option<User>)
    ensures r.Some? ==> r.value in users && r.value.id == id
    ensures r.None? <==> forall i :: 0 <= i < |users| ==> users[i].id != id
  {
    match First(users, (u: User) => u.id == id)
    case None => None
    case Some(i) => Some(users[i])
  }

  /** `Where("email = ?", email).First(&user)`: the user with that email
      and the smallest id. */
  function UserByEmail(users: seq<User>, email: string): (r: Option<User>)
    ensures r.Some? ==> r.value.email == email
    ensures r.Some? ==> exists i :: 0 <= i < |users| && users[i] == r.value &&
                          forall j :: 0 <= j < i ==> users[j].email != email
    ensures r.None? <==> forall i :: 0 <= i < |users| ==> users[i].email != email
  {
    match First(users, (u: User) => u.email == email)
    case None => None
    case Some(i) => Some(users[i])
  }

  /** `Where("id = ?", id).First(&role)` on the roles table. */
  function RoleById(roles: seq<Role>, id: nat): (r: Option<Role>)
    ensures r.Some? ==> r.value in roles && r.value.id == id
    ensures r.None? <==> forall i :: 0 <= i < |roles| ==> roles[i].id != id
  {
    match First(roles, (q: Role) => q.id == id)
    case None => None
    case Some(i) => Some(roles[i])
  }

  /** The written tables as they stand when a database transaction begins. */
  datatype Snapshot = Snapshot(
    catalog: map<nat, PremiumSubscription>,
    userSubscriptions: map<nat, UserSubscription>,
    transactions: map<nat, Transaction>)

  class Store {
    var catalog: map<nat, PremiumSubscription>
    /** Primary keys ever stored in the catalog, soft-deleted ones included. */
    var catalogKeys: set<nat>
    var userSubscriptions: map<nat, UserSubscription>
    var transactions: map<nat, Transaction>
    /** Read-only tables, in primary-key order. */
    var users: seq<User>
    var roles: seq<Role>
    /** Next values of the tables' id sequences. */
    var catalogSeq: nat
    var userSubscriptionSeq: nat
    var transactionSeq: nat
    /** Transactions whose receipt the email endpoint accepted. */
    ghost var receiptsDelivered: set<nat>

    /** Every row sits under its own id; the catalog's sequence starts at 1
        and a zero key is never stored (GORM reads a zero id as "let the
        sequence choose"); the sequences of the two tables only the service
        inserts into are ahead of every id in them. */
    ghost predicate Valid()
      reads this
    {
      && 0 < catalogSeq && 0 !in catalogKeys
      && (forall k | k in catalog :: catalog[k].id == k && k in catalogKeys)
      && (forall k | k in userSubscriptions :: userSubscriptions[k].id == k && k < userSubscriptionSeq)
      && (forall k | k in transactions :: transactions[k].id == k && k < transactionSeq)
    }

    /** The purchase invariant: a completed transaction had its receipt
        accepted for delivery, and a user subscription to the same plan exists. */
    ghost predicate Consistent()
      reads this
    {
      forall k | k in transactions && transactions[k].status == Completed ::
        k in receiptsDelivered && HasUserSubscriptionTo(transactions[k].subscriptionId)
    }

    ghost predicate HasUserSubscriptionTo(subscriptionId: nat)
      reads this
    {
      exists j | j in userSubscriptions :: userSubscriptions[j].subscriptionId == subscriptionId
    }

    /** A database with empty written tables over the given users and roles. */
    constructor (users: seq<User>, roles: seq<Role>)
      ensures Valid() && Consistent()
      ensures this.users == users && this.roles == roles
      ensures catalog == map[] && catalogKeys == {}
      ensures userSubscriptions == map[] && transactions == map[]
      ensures catalogSeq == 1 && userSubscriptionSeq == 1 && transactionSeq == 1
      ensures receiptsDelivered == {}
    {
      this.users := users;
      this.roles := roles;
      catalog, catalogKeys := map[], {};
      userSubscriptions, transactions := map[], map[];
      catalogSeq, userSubscriptionSeq, transactionSeq := 1, 1, 1;
      receiptsDelivered := {};
    }

    /** The catalog table as a value. */
    function Table(): CatalogTable
      reads this
    {
      CatalogTable(catalog, catalogKeys, catalogSeq)
    }

    /** INSERT a catalog row, as `Insert` describes. */
    method CreateCatalogRow(row: PremiumSubscription) returns (echo: PremiumSubscription, ok: bool)
      requires Valid()
      modifies this`catalog, this`catalogKeys, this`catalogSeq
      ensures Valid()
      ensures CatalogWrite(Table(), echo, ok) == Insert(old(Table()), row)
    {
      var id := row.id;
      echo := WithDefaults(row);
      if id == 0 {
        if MaxInt < catalogSeq || !FitsBigint(row) {
          // the sequence is exhausted, or the statement is never sent
          return echo, false;
        }
        id := catalogSeq;
        catalogSeq := catalogSeq + 1;
      }
      if id in catalogKeys || !FitsColumns(row) {
        return echo, false;
      }
      echo := echo.(id := id);
      catalog := catalog[id := ColumnValues(echo)];
      catalogKeys := catalogKeys + {id};
      ok := true;
    }

    /** Save a catalog row with all its fields, as `Save` describes. */
    method SaveCatalogRow(row: PremiumSubscription) returns (echo: PremiumSubscription, ok: bool)
      requires Valid()
      modifies this`catalog, this`catalogKeys, this`catalogSeq
      ensures Valid()
      ensures CatalogWrite(Table(), echo, ok) == Save(old(Table()), row)
    {
      if row.id == 0 {
        echo, ok := CreateCatalogRow(row);
        return;
      }
      if row.id in catalog {
        // UPDATE ... WHERE id = row.id matched the visible row
        echo, ok := row, FitsColumns(row);
        if ok {
          catalog := catalog[row.id := ColumnValues(row)];
        }
        return;
      }
      if !FitsBigint(row) {
        // the UPDATE could not be sent, so no INSERT follows
        return row, false;
      }
      // no visible row matched: INSERT ... ON CONFLICT (id) DO UPDATE
      echo, ok := WithDefaults(row), FitsColumns(row);
      if ok {
        catalog := catalog[row.id := ColumnValues(echo)];
        catalogKeys := catalogKeys + {row.id};
      }
    }

    /** INSERT a user subscription under the next sequence value. */
    method CreateUserSubscription(row: UserSubscription) returns (stored: UserSubscription)
      requires Valid()
      modifies this`userSubscriptions, this`userSubscriptionSeq
      ensures Valid()
      ensures stored == row.(id := old(userSubscriptionSeq))
      ensures old(userSubscriptionSeq) !in old(userSubscriptions)
      ensures userSubscriptions == old(userSubscriptions)[stored.id := stored]
      ensures userSubscriptionSeq == old(userSubscriptionSeq) + 1
    {
      stored := row.(id := userSubscriptionSeq);
      userSubscriptions := userSubscriptions[stored.id := stored];
      userSubscriptionSeq := userSubscriptionSeq + 1;
    }

    /** INSERT a transaction under the next sequence value. */
    method CreateTransaction(row: Transaction) returns (stored: Transaction)
      requires Valid()
      modifies this`transactions, this`transactionSeq
      ensures Valid()
      ensures stored == row.(id := old(transactionSeq))
      ensures old(transactionSeq) !in old(transactions)
      ensures transactions == old(transactions)[stored.id := stored]
      ensures transactionSeq == old(transactionSeq) + 1
    {
      stored := row.(id := transactionSeq);
      transactions := transactions[stored.id := stored];
      transactionSeq := transactionSeq + 1;
    }

    /** UPDATE a stored transaction with all its fields. */
    method SaveTransaction(row: Transaction)
      requires Valid() && row.id in transactions
      modifies this`transactions
      ensures Valid()
      ensures transactions == old(transactions)[row.id := row]
    {
      transactions := transactions[row.id := row];
    }

    /** BEGIN: remember the written tables so that a rollback can restore them. */
    method Begin() returns (snapshot: Snapshot)
      ensures snapshot == Snapshot(catalog, userSubscriptions, transactions)
    {
      snapshot := Snapshot(catalog, userSubscriptions, transactions);
    }

    /** ROLLBACK: discard every change made since `snapshot` was taken. */
    method Rollback(snapshot: Snapshot)
      modifies this`catalog, this`userSubscriptions, this`transactions
      ensures catalog == snapshot.catalog
      ensures userSubscriptions == snapshot.userSubscriptions
      ensures transactions == snapshot.transactions
    {
      catalog := snapshot.catalog;
      userSubscriptions := snapshot.userSubscriptions;
      transactions := snapshot.transactions;
    }

    /** Soft-delete the user subscriptions of a plan. */
    method DeleteUserSubscriptionsOf(id: int)
      requires Valid()
      modifies this`userSubscriptions
      ensures Valid()
      ensures userSubscriptions == UserSubscriptionsWithout(old(userSubscriptions), id)
    {
      userSubscriptions := UserSubscriptionsWithout(userSubscriptions, id);
    }

    /** Soft-delete the transactions of a plan. */
    method DeleteTransactionsOf(id: int)
      requires Valid()
      modifies this`transactions
      ensures Valid()
      ensures transactions == TransactionsWithout(old(transactions), id)
    {
      transactions := TransactionsWithout(transactions, id);
    }

    /** Soft-delete a catalog row; its key stays taken. */
    method DeleteCatalogRow(id: int)
      requires Valid()
      modifies this`catalog
      ensures Valid()
      ensures catalog == CatalogWithout(old(catalog), id)
    {
      catalog := CatalogWithout(catalog, id);
    }
  }
}
