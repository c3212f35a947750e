/** The subscription admin handlers: create, get, update and the cascading
    delete of a catalog entry. Each handler works on the shared database;
    `body` is the decoded JSON request body (None when it does not decode)
    and `idParam` the `id` query value. */
module Subscriptions {
  import opened Common
  import opened Models
  import opened StrConv
  import opened Database

  // ---------------------------------------------------------------------
  // Finding a catalog row by the `id` query value
  // ---------------------------------------------------------------------

  /** The smallest key of a non-empty key set. */
  function LowestKey(keys: set<nat>): (k: nat)
    requires keys != {}
    ensures k in keys && forall j :: j in keys ==> k <= j
  {
    LowestKeyExists(keys);
    var k :| k in keys && forall j :: j in keys ==> k <= j;
    k
  }

  lemma LowestKeyExists(keys: set<nat>)
    requires keys != {}
    ensures exists k :: k in keys && forall j :: j in keys ==> k <= j
  {
    var x :| x in keys;
    var i := 0;
    while i !in keys
      invariant i <= x
      invariant forall j :: j in keys ==> i <= j
      decreases x - i
    {
      i := i + 1;
    }
  }

  /** The key `First(&subscription, id)` finds. A value Atoi accepts is
      compared with the primary key; an empty value adds no condition, so
      the visible row with the lowest id is found; any other text is passed
      on as a raw SQL condition, modelled here as one that fails. */
  function FindKey(catalog: map<nat, PremiumSubscription>, idParam: string): (r: Option<nat>)
    ensures r.Some? ==> r.value in catalog
    ensures Atoi(idParam).Some? ==>
              var n := Atoi(idParam).value;
              (r.Some? <==> 0 <= n && n as nat in catalog) && (r.Some? ==> r.value == n)
    ensures idParam == "" ==>
              (r.Some? <==> catalog != map[]) && (r.Some? ==> forall k :: k in catalog ==> r.value <= k)
    ensures idParam != "" && Atoi(idParam).None? ==> r.None?
  {
    if idParam == "" then
      if catalog == map[] then None
      else
        assert catalog.Keys != {} by {
          var k :| k in catalog;
          assert k in catalog.Keys;
        }
        Some(LowestKey(catalog.Keys))
    else
      match Atoi(idParam)
      case None => None
      case Some(n) => if 0 <= n && n as nat in catalog then Some(n as nat) else None
  }

  /** A row stored under id n is found again by the query value Itoa(n). */
  lemma FindStoredRow(catalog: map<nat, PremiumSubscription>, n: nat)
    requires n <= MaxInt && n in catalog
    ensures FindKey(catalog, Itoa(n)) == Some(n)
  {
    AtoiOfItoa(n);
  }

  /** After a delete of id n, the query value Itoa(n) finds nothing. */
  lemma FindDeletedRow(catalog: map<nat, PremiumSubscription>, n: nat)
    requires n <= MaxInt
    ensures FindKey(CatalogWithout(catalog, n), Itoa(n)) == None
  {
    AtoiOfItoa(n);
  }

  /** A row the database accepted is what a later GET by its id finds,
      as the table stores it. */
  lemma SavedRowIsFound(t: CatalogTable, row: PremiumSubscription, save: bool)
    requires KeysCover(t)
    requires var w := if save then Save(t, row) else Insert(t, row);
             w.ok && w.echo.id <= MaxInt
    ensures var w := if save then Save(t, row) else Insert(t, row);
            && FindKey(w.table.rows, Itoa(w.echo.id)) == Some(w.echo.id)
            && w.table.rows[w.echo.id] == ColumnValues(w.echo)
  {
    var w := if save then Save(t, row) else Insert(t, row);
    WriteTouchesOnlyItsKey(t, row, save);
    FindStoredRow(w.table.rows, w.echo.id);
  }

  // ---------------------------------------------------------------------
  // Create
  // ---------------------------------------------------------------------

  /** POST /subscription as written: the result of the INSERT is not
      looked at, so the answer is 201 with the Go value even when nothing
      was stored. */
  method CreateSubscription(db: Store, body: Option<PremiumSubscription>) returns (resp: Response<PremiumSubscription>)
    requires db.Valid() && db.Consistent()
    modifies db`catalog, db`catalogKeys, db`catalogSeq
    ensures db.Valid() && db.Consistent()
    ensures body.None? ==> resp == Failure(StatusBadRequest, "Invalid JSON") && unchanged(db)
    ensures body.Some? ==>
              var w := Insert(old(db.Table()), body.value);
              && db.Table() == w.table
              && resp == Success(StatusCreated, "Subscription created successfully", Some(w.echo))
  {
    if body.None? {
      return Failure(StatusBadRequest, "Invalid JSON");
    }
    var subscription := body.value;
    var stored;
    subscription, stored := db.CreateCatalogRow(subscription);
    resp := Success(StatusCreated, "Subscription created successfully", Some(subscription));
  }

  /** POST /subscription with the INSERT's error checked: 201 exactly when
      the row was stored, with the stored row's key. */
  method CreateSubscriptionChecked(db: Store, body: Option<PremiumSubscription>) returns (resp: Response<PremiumSubscription>)
    requires db.Valid() && db.Consistent()
    modifies db`catalog, db`catalogKeys, db`catalogSeq
    ensures db.Valid() && db.Consistent()
    ensures body.None? ==> resp == Failure(StatusBadRequest, "Invalid JSON") && unchanged(db)
    ensures body.Some? ==>
              var row, w := body.value, Insert(old(db.Table()), body.value);
              && db.Table() == w.table
              && (resp.code == StatusCreated <==>
                    var key := InsertKey(row, old(db.catalogSeq));
                    key !in old(db.catalogKeys) && key <= MaxInt && FitsColumns(row))
              && (resp.code == StatusCreated ==>
                    resp == Success(StatusCreated, "Subscription created successfully", Some(w.echo))
                    && w.echo.id in db.catalog && db.catalog[w.echo.id] == ColumnValues(w.echo))
              && (resp.code != StatusCreated ==>
                    resp == Failure(StatusInternalServerError, "Failed to create subscription")
                    && db.catalog == old(db.catalog))
  {
    if body.None? {
      return Failure(StatusBadRequest, "Invalid JSON");
    }
    var subscription := body.value;
    var ok;
    subscription, ok := db.CreateCatalogRow(subscription);
    if !ok {
      return Failure(StatusInternalServerError, "Failed to create subscription");
    }
    resp := Success(StatusCreated, "Subscription created successfully", Some(subscription));
  }

  const FirstPlan: PremiumSubscription := PremiumSubscription(7, "monthly", 30, "active", "", "")
  const SecondPlan: PremiumSubscription := PremiumSubscription(7, "yearly", 365, "active", "", "")

  /** Two creates with the same explicit id: the database keeps the first
      row and refuses the second, yet the as-written handler answers 201
      with the second body; the checked handler answers 500. */
  method DuplicateIdIsReportedCreated()
    returns (asWritten: Response<PremiumSubscription>, checked: Response<PremiumSubscription>, kept: PremiumSubscription)
    ensures asWritten == Success(StatusCreated, "Subscription created successfully", Some(SecondPlan))
    ensures checked == Failure(StatusInternalServerError, "Failed to create subscription")
    ensures kept == FirstPlan && kept != SecondPlan
  {
    var db := new Store([], []);
    var first := CreateSubscription(db, Some(FirstPlan));
    assert db.catalog == map[7 := FirstPlan] && db.catalogKeys == {7};
    asWritten := CreateSubscription(db, Some(SecondPlan));
    assert db.catalog == map[7 := FirstPlan] && db.catalogKeys == {7};
    checked := CreateSubscriptionChecked(db, Some(SecondPlan));
    kept := db.catalog[7];
  }

  // ---------------------------------------------------------------------
  // Get
  // ---------------------------------------------------------------------

  /** GET /subscription: the row the `id` query value finds, or 404. */
  method GetSubscription(db: Store, idParam: string) returns (resp: Response<PremiumSubscription>)
    requires db.Valid()
    ensures FindKey(db.catalog, idParam).None? ==> resp == Failure(StatusNotFound, "Subscription not found")
    ensures FindKey(db.catalog, idParam).Some? ==>
              var row := db.catalog[FindKey(db.catalog, idParam).value];
              resp == Success(StatusOK, "", Some(row))
  {
    var key := FindKey(db.catalog, idParam);
    if key.None? {
      return Failure(StatusNotFound, "Subscription not found");
    }
    var subscription := db.catalog[key.value];
    resp := Success(StatusOK, "", Some(subscription));
  }

  // ---------------------------------------------------------------------
  // Update
  // ---------------------------------------------------------------------

  /** The fields of an update body, each None when the JSON leaves it out. */
  datatype SubscriptionPatch = SubscriptionPatch(
    id: Option<nat>,
    plan: Option<string>,
    period: Option<nat>,
    status: Option<string>,
    createdAt: Option<string>,
    updatedAt: Option<string>)

  const EmptyPatch: SubscriptionPatch := SubscriptionPatch(None, None, None, None, None, None)

  function Pick<T>(field: Option<T>, stored: T): T {
    if field.Some? then field.value else stored
  }

  /** Decoding a body into the fetched row: a field present in the body
      overwrites the stored value, an absent one keeps it. The id is such a
      field too, so a body can name another row. */
  function Merge(row: PremiumSubscription, patch: SubscriptionPatch): (r: PremiumSubscription)
    ensures patch.id.None? ==> r.id == row.id
    ensures patch.id.Some? ==> r.id == patch.id.value
  {
    row.(id := Pick(patch.id, row.id), plan := Pick(patch.plan, row.plan), period := Pick(patch.period, row.period),
         status := Pick(patch.status, row.status), createdAt := Pick(patch.createdAt, row.createdAt),
         updatedAt := Pick(patch.updatedAt, row.updatedAt))
  }

  /** Fields absent from the body keep their stored values, present ones
      take the body's value. */
  lemma MergeOverwritesPresentFields(row: PremiumSubscription, patch: SubscriptionPatch)
    ensures var r := Merge(row, patch);
            && (patch.id.None? ==> r.id == row.id) && (patch.id.Some? ==> r.id == patch.id.value)
            && (patch.plan.None? ==> r.plan == row.plan) && (patch.plan.Some? ==> r.plan == patch.plan.value)
            && (patch.period.None? ==> r.period == row.period) && (patch.period.Some? ==> r.period == patch.period.value)
            && (patch.status.None? ==> r.status == row.status) && (patch.status.Some? ==> r.status == patch.status.value)
            && (patch.createdAt.None? ==> r.createdAt == row.createdAt)
            && (patch.createdAt.Some? ==> r.createdAt == patch.createdAt.value)
            && (patch.updatedAt.None? ==> r.updatedAt == row.updatedAt)
            && (patch.updatedAt.Some? ==> r.updatedAt == patch.updatedAt.value)
  {
  }

  /** The patch that applies `first` and then `second`: the later body wins. */
  function Then(first: SubscriptionPatch, second: SubscriptionPatch): SubscriptionPatch {
    SubscriptionPatch(
      if second.id.Some? then second.id else first.id,
      if second.plan.Some? then second.plan else first.plan,
      if second.period.Some? then second.period else first.period,
      if second.status.Some? then second.status else first.status,
      if second.createdAt.Some? then second.createdAt else first.createdAt,
      if second.updatedAt.Some? then second.updatedAt else first.updatedAt)
  }

  /** An empty body changes nothing, sending the same body twice is sending
      it once, and two updates in a row are one update with the combined body. */
  lemma MergeLaws(row: PremiumSubscription, p: SubscriptionPatch, q: SubscriptionPatch)
    ensures Merge(row, EmptyPatch) == row
    ensures Merge(Merge(row, p), p) == Merge(row, p)
    ensures Merge(Merge(row, p), q) == Merge(row, Then(p, q))
  {
  }

  /** PUT /subscription as written: 404 for a row that is not found (the
      body is not read), 400 for a body that does not decode, and otherwise
      the merged row is saved under its own id, which the body may have
      changed, and 200 returned whether or not the database accepted it. */
  method UpdateSubscription(db: Store, idParam: string, body: Option<SubscriptionPatch>)
    returns (resp: Response<PremiumSubscription>)
    requires db.Valid() && db.Consistent()
    modifies db`catalog, db`catalogKeys, db`catalogSeq
    ensures db.Valid() && db.Consistent()
    ensures FindKey(old(db.catalog), idParam).None? ==>
              resp == Failure(StatusNotFound, "Subscription not found") && unchanged(db)
    ensures FindKey(old(db.catalog), idParam).Some? && body.None? ==>
              resp == Failure(StatusBadRequest, "Invalid JSON") && unchanged(db)
    ensures FindKey(old(db.catalog), idParam).Some? && body.Some? ==>
              var key := FindKey(old(db.catalog), idParam).value;
              var w := Save(old(db.Table()), Merge(old(db.catalog)[key], body.value));
              && db.Table() == w.table
              && resp == Success(StatusOK, "Subscription updated successfully", Some(w.echo))
  {
    var key := FindKey(db.catalog, idParam);
    if key.None? {
      return Failure(StatusNotFound, "Subscription not found");
    }
    var subscription := db.catalog[key.value];
    if body.None? {
      return Failure(StatusBadRequest, "Invalid JSON");
    }
    subscription := Merge(subscription, body.value);
    var saved;
    subscription, saved := db.SaveCatalogRow(subscription);
    resp := Success(StatusOK, "Subscription updated successfully", Some(subscription));
  }

  /** PUT /subscription as intended: the row named in the query is the one
      written, whatever id the body carries, and the answer is 200 exactly
      when the database accepted it. No other row, key or sequence changes. */
  method UpdateSubscriptionChecked(db: Store, idParam: string, body: Option<SubscriptionPatch>)
    returns (resp: Response<PremiumSubscription>)
    requires db.Valid() && db.Consistent()
    modifies db`catalog, db`catalogKeys, db`catalogSeq
    ensures db.Valid() && db.Consistent()
    ensures FindKey(old(db.catalog), idParam).None? ==>
              resp == Failure(StatusNotFound, "Subscription not found") && unchanged(db)
    ensures FindKey(old(db.catalog), idParam).Some? && body.None? ==>
              resp == Failure(StatusBadRequest, "Invalid JSON") && unchanged(db)
    ensures FindKey(old(db.catalog), idParam).Some? && body.Some? ==>
              var key := FindKey(old(db.catalog), idParam).value;
              var merged := Merge(old(db.catalog)[key], body.value).(id := key);
              && db.catalogKeys == old(db.catalogKeys) && db.catalogSeq == old(db.catalogSeq)
              && (resp.code == StatusOK <==> FitsColumns(merged))
              && (FitsColumns(merged) ==>
                    db.catalog == old(db.catalog)[key := ColumnValues(merged)]
                    && resp == Success(StatusOK, "Subscription updated successfully", Some(merged)))
              && (!FitsColumns(merged) ==>
                    db.catalog == old(db.catalog)
                    && resp == Failure(StatusInternalServerError, "Failed to update subscription"))
  {
    var key := FindKey(db.catalog, idParam);
    if key.None? {
      return Failure(StatusNotFound, "Subscription not found");
    }
    var subscription := db.catalog[key.value];
    if body.None? {
      return Failure(StatusBadRequest, "Invalid JSON");
    }
    subscription := Merge(subscription, body.value).(id := key.value);
    var ok;
    subscription, ok := db.SaveCatalogRow(subscription);
    if !ok {
      return Failure(StatusInternalServerError, "Failed to update subscription");
    }
    resp := Success(StatusOK, "Subscription updated successfully", Some(subscription));
  }

  /** A plan name one character wider than its column. */
  const OverlongPlan: string := seq(PlanColumnWidth + 1, _ => 'x')

  /** An update whose plan does not fit its column: the row is left as it
      was, yet the as-written handler answers 200 with the rejected row;
      the checked handler answers 500. */
  method OverlongPlanIsReportedUpdated()
    returns (asWritten: Response<PremiumSubscription>, checked: Response<PremiumSubscription>, kept: PremiumSubscription)
    ensures asWritten == Success(StatusOK, "Subscription updated successfully", Some(FirstPlan.(plan := OverlongPlan)))
    ensures checked == Failure(StatusInternalServerError, "Failed to update subscription")
    ensures kept == FirstPlan && kept.plan != OverlongPlan
  {
    var db := new Store([], []);
    var created := CreateSubscription(db, Some(FirstPlan));
    assert db.catalog == map[7 := FirstPlan];
    var patch := EmptyPatch.(plan := Some(OverlongPlan));
    assert !FitsColumns(Merge(FirstPlan, patch)) by {
      assert OverlongPlan[PlanColumnWidth] != ' ';
    }
    AtoiOfItoa(7);
    assert FindKey(db.catalog, Itoa(7)) == Some(7);
    asWritten := UpdateSubscription(db, Itoa(7), Some(patch));
    assert db.catalog == map[7 := FirstPlan];
    checked := UpdateSubscriptionChecked(db, Itoa(7), Some(patch));
    kept := db.catalog[7];
  }

  const OtherPlan: PremiumSubscription := PremiumSubscription(8, "weekly", 7, "active", "", "")

  /** `PUT ?id=7` with the body {"id": 8, "plan": "daily"} on a catalog
      holding rows 7 and 8: row 7 is left alone and row 8 is overwritten
      with row 7's other fields, and the answer is 200. */
  method BodyIdRetargetsUpdate(db: Store) returns (asWritten: Response<PremiumSubscription>)
    requires db.Valid() && db.Consistent()
    requires db.catalog == map[7 := FirstPlan, 8 := OtherPlan]
    modifies db`catalog, db`catalogKeys, db`catalogSeq
    ensures asWritten == Success(StatusOK, "Subscription updated successfully", Some(FirstPlan.(id := 8, plan := "daily")))
    ensures db.catalog == map[7 := FirstPlan, 8 := FirstPlan.(id := 8, plan := "daily")]
  {
    var patch := EmptyPatch.(id := Some(8), plan := Some("daily"));
    AtoiOfItoa(7);
    assert FindKey(db.catalog, Itoa(7)) == Some(7);
    asWritten := UpdateSubscription(db, Itoa(7), Some(patch));
  }

  // ---------------------------------------------------------------------
  // Delete
  // ---------------------------------------------------------------------

  /** The statements of the delete, each of which the database may refuse. */
  datatype DeleteStage =
    | BeginTransaction | DeleteUserSubscriptions | DeleteTransactions | DeleteCatalogEntry | CommitTransaction

  /** The message for a refused statement: each stage has its own. */
  function DeleteFailureMessage(stage: DeleteStage): (m: string)
    ensures m == "Failed to start transaction" <==> stage == BeginTransaction
    ensures m == "Failed to delete related user subscriptions" <==> stage == DeleteUserSubscriptions
    ensures m == "Failed to delete related transactions" <==> stage == DeleteTransactions
    ensures m == "Failed to delete subscription" <==> stage == DeleteCatalogEntry
    ensures m == "Failed to commit transaction" <==> stage == CommitTransaction
  {
    match stage
    case BeginTransaction => "Failed to start transaction"
    case DeleteUserSubscriptions => "Failed to delete related user subscriptions"
    case DeleteTransactions => "Failed to delete related transactions"
    case DeleteCatalogEntry => "Failed to delete subscription"
    case CommitTransaction => "Failed to commit transaction"
  }

  /** DELETE /subscription. `failure` names the statement the database
      refuses, if any. An id that is not an integer is refused before the
      database transaction begins; a refused statement rolls everything
      back; otherwise the plan, its user subscriptions and its transactions
      are deleted together, whether or not any row matched. */
  method DeleteSubscription(db: Store, idParam: string, failure: Option<DeleteStage>)
    returns (resp: Response<PremiumSubscription>)
    requires db.Valid() && db.Consistent()
    modifies db`catalog, db`userSubscriptions, db`transactions
    ensures db.Valid() && db.Consistent()
    ensures Atoi(idParam).None? ==> resp == Failure(StatusBadRequest, "Invalid subscription ID") && unchanged(db)
    ensures Atoi(idParam).Some? && failure.Some? ==>
              resp == Failure(StatusInternalServerError, DeleteFailureMessage(failure.value)) && unchanged(db)
    ensures Atoi(idParam).Some? && failure.None? ==>
              var id := Atoi(idParam).value;
              && db.userSubscriptions == UserSubscriptionsWithout(old(db.userSubscriptions), id)
              && db.transactions == TransactionsWithout(old(db.transactions), id)
              && db.catalog == CatalogWithout(old(db.catalog), id)
              && resp == Success(StatusOK, "Subscription and related data deleted successfully", None)
  {
    var parsed := Atoi(idParam);
    if parsed.None? {
      return Failure(StatusBadRequest, "Invalid subscription ID");
    }
    var id := parsed.value;

    if failure == Some(BeginTransaction) {
      return Failure(StatusInternalServerError, DeleteFailureMessage(BeginTransaction));
    }
    var snapshot := db.Begin();
    var refused := DeleteCascade(db, id, failure);
    if refused.Some? {
      db.Rollback(snapshot);
      return Failure(StatusInternalServerError, DeleteFailureMessage(refused.value));
    }
    CascadeKeepsPurchases(db, snapshot.userSubscriptions, snapshot.transactions, id);
    resp := Success(StatusOK, "Subscription and related data deleted successfully", None);
  }

  /** The statements inside the database transaction, in order, stopping at
      the one the database refuses, which is returned; a refused statement
      has no effect of its own. A refused COMMIT leaves the deletes
      uncommitted: the caller rolls back in every refused case. */
  method DeleteCascade(db: Store, id: int, failure: Option<DeleteStage>) returns (refused: Option<DeleteStage>)
    requires db.Valid()
    requires failure != Some(BeginTransaction)
    modifies db`catalog, db`userSubscriptions, db`transactions
    ensures db.Valid()
    ensures refused == failure
    ensures failure.None? ==>
              && db.userSubscriptions == UserSubscriptionsWithout(old(db.userSubscriptions), id)
              && db.transactions == TransactionsWithout(old(db.transactions), id)
              && db.catalog == CatalogWithout(old(db.catalog), id)
  {
    if failure == Some(DeleteUserSubscriptions) {
      return failure;
    }
    db.DeleteUserSubscriptionsOf(id);

    if failure == Some(DeleteTransactions) {
      return failure;
    }
    db.DeleteTransactionsOf(id);

    if failure == Some(DeleteCatalogEntry) {
      return failure;
    }
    db.DeleteCatalogRow(id);

    // COMMIT
    refused := failure;
  }

  /** Deleting a plan's user subscriptions together with its transactions
      keeps every remaining completed transaction backed. */
  lemma CascadeKeepsPurchases(db: Store, us: map<nat, UserSubscription>, ts: map<nat, Transaction>, id: int)
    requires db.userSubscriptions == UserSubscriptionsWithout(us, id)
    requires db.transactions == TransactionsWithout(ts, id)
    requires forall k | k in ts && ts[k].status == Completed ::
               k in db.receiptsDelivered && exists j | j in us :: us[j].subscriptionId == ts[k].subscriptionId
    ensures db.Consistent()
  {
    forall k | k in db.transactions && db.transactions[k].status == Completed
      ensures k in db.receiptsDelivered && db.HasUserSubscriptionTo(db.transactions[k].subscriptionId)
    {
      var j :| j in us && us[j].subscriptionId == ts[k].subscriptionId;
      assert j in db.userSubscriptions;
    }
  }
}
