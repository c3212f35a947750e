/** The subscription payment workflow: validate the card fields, record a
    user subscription and a "paid" transaction, render a receipt, send it
    to the buyer through the email service, and only then mark the
    transaction "completed". Nothing is rolled back once the two records
    exist. */
module Payment {
  import opened Common
  import opened Models
  import opened Calendar
  import opened Database

  datatype PaymentForm = PaymentForm(cardNumber: Bytes, expirationDate: Bytes, cvv: Bytes)

  /** The decoded request body. */
  datatype PaymentRequest = PaymentRequest(userId: nat, subscriptionId: nat, form: PaymentForm)

  // ASCII codes of the characters the workflow writes or expects.
  const Star: byte := 0x2A   // '*'
  const Space: byte := 0x20  // ' '
  const Slash: byte := 0x2F  // '/'
  const Zero: byte := 0x30   // '0'

  /** "****" */
  const ShortMask: Bytes := [Star, Star, Star, Star]

  /** "**** **** **** " */
  const MaskPrefix: Bytes := [Star, Star, Star, Star, Space, Star, Star, Star, Star, Space,
                              Star, Star, Star, Star, Space]

  // ---------------------------------------------------------------------
  // Card-number masking
  // ---------------------------------------------------------------------

  /** The card number as printed on the receipt: a fixed placeholder for a
      number shorter than four bytes, otherwise only its last four bytes
      behind a fixed run of stars. */
  function MaskCard(card: Bytes): (r: Bytes)
    ensures |card| < 4 ==> r == ShortMask
    ensures |card| >= 4 ==> |r| == 19 && HasPrefix(r, MaskPrefix) && r[15..] == card[|card| - 4..]
  {
    if |card| < 4 then ShortMask else MaskPrefix + card[|card| - 4..]
  }

  /** The mask depends on nothing but the last four bytes. */
  lemma MaskCardSeesOnlyLastFour(a: Bytes, b: Bytes)
    requires |a| >= 4 && |b| >= 4 && a[|a| - 4..] == b[|b| - 4..]
    ensures MaskCard(a) == MaskCard(b)
  {
  }

  /** No byte of a card number other than its last four is shown: every
      other position of the mask holds a star or a space. */
  lemma MaskCardHidesTheRest(card: Bytes, i: nat)
    requires i < |MaskCard(card)|
    requires |card| < 4 || i < 15
    ensures MaskCard(card)[i] == Star || MaskCard(card)[i] == Space
  {
  }

  // ---------------------------------------------------------------------
  // Expiry date: time.Parse with the layout "01/2006"
  // ---------------------------------------------------------------------

  predicate IsDigitByte(b: byte) {
    Zero <= b <= Zero + 9
  }

  function DigitOf(b: byte): nat
    requires IsDigitByte(b)
  {
    (b - Zero) as nat
  }

  function DigitByte(d: nat): (b: byte)
    requires d < 10
    ensures IsDigitByte(b) && DigitOf(b) == d
  {
    Zero + d as byte
  }

  /** Parses an expiry date the way Go's time.Parse reads the layout
      "01/2006": exactly two digits forming a month 01-12, the literal '/',
      four characters that form a decimal number, and no extra text. */
  function ParseExpiry(s: Bytes): (r: Option<YearMonth>)
    ensures r.Some? ==> ValidMonth(r.value) && r.value.year <= 9999
  {
    if |s| < 2 || !IsDigitByte(s[0]) || !IsDigitByte(s[1]) then None        // "01": two digits
    else
      var month := 10 * DigitOf(s[0]) + DigitOf(s[1]);
      if month < 1 || 12 < month then None                                   // month out of range
      else if |s| < 3 || s[2] != Slash then None                             // the literal "/"
      else if |s| < 7 || !IsDigitByte(s[3]) then None                        // "2006": 4 bytes, a digit first
      else if !IsDigitByte(s[4]) || !IsDigitByte(s[5]) || !IsDigitByte(s[6]) then None  // ... all digits
      else if |s| > 7 then None                                              // extra text
      else
        var year := 1000 * DigitOf(s[3]) + 100 * DigitOf(s[4]) + 10 * DigitOf(s[5]) + DigitOf(s[6]);
        Some(YearMonth(year, month))
  }

  /** The canonical `MM/YYYY` text of a month. */
  function FormatExpiry(ym: YearMonth): (s: Bytes)
    requires ValidMonth(ym) && ym.year <= 9999
    ensures |s| == 7
  {
    var decades := ym.year / 10;
    var centuries := decades / 10;
    [DigitByte(ym.month / 10), DigitByte(ym.month % 10), Slash,
     DigitByte(centuries / 10), DigitByte(centuries % 10), DigitByte(decades % 10), DigitByte(ym.year % 10)]
  }

  /** Every month of years 0 to 9999 is accepted in its `MM/YYYY` form. */
  lemma ParseFormatExpiry(ym: YearMonth)
    requires ValidMonth(ym) && ym.year <= 9999
    ensures ParseExpiry(FormatExpiry(ym)) == Some(ym)
  {
    var s := FormatExpiry(ym);
    var decades := ym.year / 10;
    var centuries := decades / 10;
    assert ym.year == 10 * decades + ym.year % 10;
    assert decades == 10 * centuries + decades % 10;
    assert centuries == 10 * (centuries / 10) + centuries % 10;
    assert 10 * DigitOf(s[0]) + DigitOf(s[1]) == ym.month;
    assert 1000 * DigitOf(s[3]) + 100 * DigitOf(s[4]) + 10 * DigitOf(s[5]) + DigitOf(s[6]) == ym.year;
  }

  /** ...and that form is the only text accepted: nothing else parses. */
  lemma FormatParseExpiry(s: Bytes)
    requires ParseExpiry(s).Some?
    ensures FormatExpiry(ParseExpiry(s).value) == s
  {
    var ym := ParseExpiry(s).value;
    var a, b, c, d := DigitOf(s[3]), DigitOf(s[4]), DigitOf(s[5]), DigitOf(s[6]);
    DivMod10(DigitOf(s[0]), DigitOf(s[1]));
    DivMod10(100 * a + 10 * b + c, d);
    DivMod10(10 * a + b, c);
    DivMod10(a, b);
    var t := FormatExpiry(ym);
    assert t[0] == s[0] && t[1] == s[1] && t[2] == s[2];
    assert t[3] == s[3] && t[4] == s[4] && t[5] == s[5] && t[6] == s[6];
  }

  /** Splitting off the last decimal digit. */
  lemma DivMod10(q: nat, r: nat)
    requires r < 10
    ensures (10 * q + r) / 10 == q && (10 * q + r) % 10 == r
  {
  }

  // ---------------------------------------------------------------------
  // Validation gate
  // ---------------------------------------------------------------------

  datatype Rejection = InvalidPaymentDetails | InvalidExpirationFormat | CardExpired

  function RejectionStatus(r: Rejection): int {
    match r
    case InvalidPaymentDetails => StatusBadRequest
    case InvalidExpirationFormat => StatusBadRequest
    case CardExpired => StatusPaymentRequired
  }

  function RejectionMessage(r: Rejection): (m: string)
    ensures m == "Invalid payment details" <==> r == InvalidPaymentDetails
    ensures m == "Invalid expiration date format" <==> r == InvalidExpirationFormat
    ensures m == "Payment rejected: Card expired" <==> r == CardExpired
  {
    match r
    case InvalidPaymentDetails => "Invalid payment details"
    case InvalidExpirationFormat => "Invalid expiration date format"
    case CardExpired => "Payment rejected: Card expired"
  }

  predicate HasEmptyField(form: PaymentForm) {
    form.cardNumber == [] || form.expirationDate == [] || form.cvv == []
  }

  /** The checks run before anything is written, in order: all three fields
      present, a well-formed expiry, an expiry month that has not begun
      before `now`. None means the payment may proceed. */
  function Validate(form: PaymentForm, now: Instant): (r: Option<Rejection>)
    ensures r == Some(InvalidPaymentDetails) <==> HasEmptyField(form)
    ensures r == Some(InvalidExpirationFormat) <==> !HasEmptyField(form) && ParseExpiry(form.expirationDate).None?
    ensures r.None? ==> ParseExpiry(form.expirationDate).Some? && now <= MonthStart(ParseExpiry(form.expirationDate).value)
  {
    if HasEmptyField(form) then Some(InvalidPaymentDetails)
    else
      match ParseExpiry(form.expirationDate)
      case None => Some(InvalidExpirationFormat)
      case Some(expiry) => if MonthStart(expiry) < now then Some(CardExpired) else None
  }

  /** A payment passes the gate exactly when every field is present and the
      expiry is the `MM/YYYY` text of a month that has not begun before `now`. */
  lemma ValidateAccepts(form: PaymentForm, now: Instant)
    ensures Validate(form, now).None? <==>
              !HasEmptyField(form) &&
              exists ym :: ValidMonth(ym) && ym.year <= 9999 && FormatExpiry(ym) == form.expirationDate &&
                           now <= MonthStart(ym)
  {
    if Validate(form, now).None? {
      var ym := ParseExpiry(form.expirationDate).value;
      FormatParseExpiry(form.expirationDate);
      assert FormatExpiry(ym) == form.expirationDate;
    }
    if !HasEmptyField(form) &&
       exists ym :: ValidMonth(ym) && ym.year <= 9999 && FormatExpiry(ym) == form.expirationDate && now <= MonthStart(ym)
    {
      var ym :| ValidMonth(ym) && ym.year <= 9999 && FormatExpiry(ym) == form.expirationDate && now <= MonthStart(ym);
      ParseFormatExpiry(ym);
    }
  }

  /** A card dated with the current month is already refused: any instant
      after the very first nanosecond of the expiry month is too late. */
  lemma ExpiryMonthIsAlreadyTooLate(card: Bytes, cvv: Bytes, expiry: YearMonth, now: Instant)
    requires card != [] && cvv != []
    requires ValidMonth(expiry) && expiry.year <= 9999
    requires MonthStart(expiry) < now
    ensures Validate(PaymentForm(card, FormatExpiry(expiry), cvv), now) == Some(CardExpired)
  {
    ParseFormatExpiry(expiry);
  }

  /** If a card is refused as expired, so is every card that expires in an
      earlier month. */
  lemma ExpiredIsDownwardClosed(card: Bytes, cvv: Bytes, earlier: YearMonth, later: YearMonth, now: Instant)
    requires ValidMonth(earlier) && earlier.year <= 9999
    requires ValidMonth(later) && later.year <= 9999
    requires MonthIndex(earlier) <= MonthIndex(later)
    requires Validate(PaymentForm(card, FormatExpiry(later), cvv), now) == Some(CardExpired)
    ensures Validate(PaymentForm(card, FormatExpiry(earlier), cvv), now) == Some(CardExpired)
  {
    ParseFormatExpiry(earlier);
    ParseFormatExpiry(later);
    if MonthIndex(earlier) < MonthIndex(later) {
      MonthStartIncreasing(earlier, later);
    } else {
      SameIndexSameMonth(earlier, later);
    }
  }

  // ---------------------------------------------------------------------
  // Subscription period
  // ---------------------------------------------------------------------

  /** The catalog entry the handler works with: the row, or Go's zero value
      when the lookup fails (its error is not checked). */
  function CatalogEntry(catalog: map<nat, PremiumSubscription>, id: nat): (r: PremiumSubscription)
    ensures id in catalog ==> r == catalog[id]
    ensures id !in catalog ==> r.period == 0
  {
    if id in catalog then catalog[id] else ZeroSubscription
  }

  /** The end of a subscription of `periodDays` days starting at `start`. */
  function PeriodEnd(start: Instant, periodDays: nat): (r: Instant)
    ensures r >= start
    ensures r == start <==> periodDays == 0
    ensures r - start == periodDays * NanosPerDay
  {
    start + periodDays * NanosPerDay
  }

  // ---------------------------------------------------------------------
  // Receipt and email (external steps)
  // ---------------------------------------------------------------------

  /** The fields handed to the receipt renderer. */
  datatype ReceiptRequest = ReceiptRequest(
    companyName: string,
    transactionNumber: nat,
    orderDate: Instant,
    itemName: string,
    unitPrice: int,
    quantity: int,
    clientName: string,
    paymentMethod: Bytes)

  // What every receipt sells: one unit of the premium subscription at 100.
  const CompanyName: string := "Example Corp"
  const ItemName: string := "Premium Subscription"
  const UnitPrice: int := 100

  function ReceiptFor(transactionId: nat, orderDate: Instant, clientName: string, card: Bytes): (r: ReceiptRequest)
    ensures r.paymentMethod == MaskCard(card)
  {
    ReceiptRequest(CompanyName, transactionId, orderDate, ItemName, UnitPrice, 1, clientName, MaskCard(card))
  }

  /** Two card numbers with the same last four bytes give the renderer the
      same input: no earlier digit can reach the receipt. */
  lemma ReceiptSeesOnlyLastFour(transactionId: nat, orderDate: Instant, clientName: string, a: Bytes, b: Bytes)
    requires |a| >= 4 && |b| >= 4 && a[|a| - 4..] == b[|b| - 4..]
    ensures ReceiptFor(transactionId, orderDate, clientName, a) == ReceiptFor(transactionId, orderDate, clientName, b)
  {
    MaskCardSeesOnlyLastFour(a, b);
  }

  const DefaultEmailServiceUrl: string := "http://localhost:8080/send-email"
  const ReceiptSubject: string := "Payment Receipt - Example Corp"
  const ReceiptClosing: string := ",\n\nPlease find attached your payment receipt.\n\nThank you for your purchase."
  const ReceiptFileName: string := "receipt.pdf"

  /** The email service address: the configured one, or the default when none is set. */
  function EmailServiceUrl(configured: string): (url: string)
    ensures url != ""
    ensures configured != "" ==> url == configured
  {
    if configured == "" then DefaultEmailServiceUrl else configured
  }

  /** The multipart request to the email service: a JSON part (recipient,
      subject, body) and the receipt as the file part "receipt.pdf". */
  datatype EmailRequest = EmailRequest(url: string, to: string, subject: string, body: string,
                                       fileName: string, attachment: Bytes)

  function ReceiptEmail(configuredUrl: string, user: User, pdf: Bytes): (e: EmailRequest)
    ensures e.to == user.email && e.attachment == pdf
  {
    EmailRequest(EmailServiceUrl(configuredUrl), user.email, ReceiptSubject,
                 "Dear " + user.name + ReceiptClosing, ReceiptFileName, pdf)
  }

  /** Where sending the email stopped, before a reply came back. */
  datatype DeliveryStage =
    | PrepareEmailData | CreateFormField | WriteEmailJson | CreateFormFile | AttachPdf
    | CreateRequest | Send

  /** What the email step came to: a failure at some stage, or the endpoint's reply. */
  datatype Delivery = Failed(stage: DeliveryStage) | Replied(statusCode: int)

  /** The message of a delivery that did not end in a 200 answer. A reply
      with another status reads the same as a request that could not be
      sent; every earlier stage has a message of its own. */
  function DeliveryFailureMessage(d: Delivery): (m: string)
    requires d != Replied(StatusOK)
    ensures m == "Error sending email receipt" <==> d == Failed(Send) || d.Replied?
  {
    match d
    case Failed(PrepareEmailData) => "Error preparing email data"
    case Failed(CreateFormField) => "Error creating form field"
    case Failed(WriteEmailJson) => "Error writing email JSON data"
    case Failed(CreateFormFile) => "Error creating form file"
    case Failed(AttachPdf) => "Error attaching PDF file"
    case Failed(CreateRequest) => "Error creating email request"
    case Failed(Send) => "Error sending email receipt"
    case Replied(_) => "Error sending email receipt"
  }

  // ---------------------------------------------------------------------
  // The handler
  // ---------------------------------------------------------------------

  /** How the steps after recording end: stopped with a message, or the
      receipt delivered to this user. */
  datatype Fulfilment = Stopped(message: string) | Delivered(user: User, receipt: Bytes)

  /** Steps after the records exist: find the user, render the receipt,
      send it. The receipt counts as delivered exactly when the requested
      user exists, the receipt renders, and the email endpoint answers 200
      to the email carrying that receipt to that user's address. */
  function Fulfil(users: seq<User>, p: PaymentRequest, transactionId: nat, now: Instant,
                  render: ReceiptRequest -> Option<Bytes>, configuredUrl: string,
                  deliver: EmailRequest -> Delivery): (f: Fulfilment)
    ensures f.Delivered? ==>
              && UserById(users, p.userId) == Some(f.user)
              && render(ReceiptFor(transactionId, now, f.user.name, p.form.cardNumber)) == Some(f.receipt)
              && deliver(ReceiptEmail(configuredUrl, f.user, f.receipt)) == Replied(StatusOK)
    ensures UserById(users, p.userId).None? ==> f == Stopped("User not found")
  {
    match UserById(users, p.userId)
    case None => Stopped("User not found")
    case Some(user) =>
      match render(ReceiptFor(transactionId, now, user.name, p.form.cardNumber))
      case None => Stopped("Error generating PDF receipt")
      case Some(pdf) =>
        var reply := deliver(ReceiptEmail(configuredUrl, user, pdf));
        if reply == Replied(StatusOK) then Delivered(user, pdf) else Stopped(DeliveryFailureMessage(reply))
  }

  /** Conversely, an accepted email carrying the rendered receipt to the
      requested user is a delivery. */
  lemma DeliveredWhenAccepted(users: seq<User>, p: PaymentRequest, transactionId: nat, now: Instant,
                              render: ReceiptRequest -> Option<Bytes>, configuredUrl: string,
                              deliver: EmailRequest -> Delivery, user: User, pdf: Bytes)
    requires UserById(users, p.userId) == Some(user)
    requires render(ReceiptFor(transactionId, now, user.name, p.form.cardNumber)) == Some(pdf)
    requires deliver(ReceiptEmail(configuredUrl, user, pdf)) == Replied(StatusOK)
    ensures Fulfil(users, p, transactionId, now, render, configuredUrl, deliver) == Delivered(user, pdf)
  {
  }

  /** The data of a successful response: the request echoed back, the two
      records, the catalog entry and the confirmation text. */
  datatype PaymentData = PaymentData(
    payment: PaymentRequest,
    userSubscription: UserSubscription,
    transaction: Transaction,
    subscription: PremiumSubscription,
    message: string)

  /** The user subscription a validated payment records. */
  function PurchaseRecord(id: nat, p: PaymentRequest, entry: PremiumSubscription, now: Instant): (r: UserSubscription)
    ensures r.userId == p.userId && r.subscriptionId == p.subscriptionId
    ensures r.startDate == now && r.endDate - r.startDate == entry.period * NanosPerDay
  {
    UserSubscription(id, p.userId, p.subscriptionId, now, PeriodEnd(now, entry.period), now, now)
  }

  /** POST /payment. `body` is the decoded request (None when it is not valid
      JSON), `now` the clock, `render` the receipt renderer, `configuredUrl`
      the EMAIL_SERVICE_URL setting and `deliver` the email step. */
  method PaySubscription(db: Store, body: Option<PaymentRequest>, now: Instant,
                         render: ReceiptRequest -> Option<Bytes>, configuredUrl: string,
                         deliver: EmailRequest -> Delivery)
    returns (resp: Response<PaymentData>)
    requires db.Valid() && db.Consistent()
    modifies db
    ensures db.Valid() && db.Consistent()
    ensures db.catalog == old(db.catalog) && db.catalogKeys == old(db.catalogKeys)
    ensures db.catalogSeq == old(db.catalogSeq)
    ensures db.users == old(db.users) && db.roles == old(db.roles)
    // Nothing is written unless the request decodes and passes validation.
    ensures body.None? ==> resp == Failure(StatusBadRequest, "Invalid JSON") && unchanged(db)
    ensures body.Some? && Validate(body.value.form, now).Some? ==>
              var rejection := Validate(body.value.form, now).value;
              resp == Failure(RejectionStatus(rejection), RejectionMessage(rejection)) && unchanged(db)
    // Otherwise the purchase is recorded and the receipt sent.
    ensures body.Some? && Validate(body.value.form, now).None? ==>
              PurchaseOutcome(old(db.userSubscriptions), old(db.userSubscriptionSeq),
                              old(db.transactions), old(db.transactionSeq), old(db.receiptsDelivered),
                              old(db.catalog), old(db.users), body.value, now, render, configuredUrl, deliver,
                              db.userSubscriptions, db.userSubscriptionSeq, db.transactions, db.transactionSeq,
                              db.receiptsDelivered, resp)
  {
    if body.None? {
      return Failure(StatusBadRequest, "Invalid JSON");
    }
    var payment := body.value;

    var rejection := Validate(payment.form, now);
    if rejection.Some? {
      return Failure(RejectionStatus(rejection.value), RejectionMessage(rejection.value));
    }

    resp := Purchase(db, payment, now, render, configuredUrl, deliver);
  }

  /** The confirmation returned with a successful payment. */
  function ReceiptSentMessage(email: string): string {
    ReceiptSentPrefix + email
  }

  const ReceiptSentPrefix: string := "Payment successful. Receipt has been sent to "

  /** The state and response after a validated payment: exactly one user
      subscription and one transaction are added under the next serial keys;
      the transaction is "completed" only if the receipt was delivered and
      stays "paid" after any failure of a later step, which the response
      reports. */
  ghost predicate PurchaseOutcome(
    userSubscriptions: map<nat, UserSubscription>, userSubscriptionSeq: nat,
    transactions: map<nat, Transaction>, transactionSeq: nat, receiptsDelivered: set<nat>,
    catalog: map<nat, PremiumSubscription>, users: seq<User>, p: PaymentRequest, now: Instant,
    render: ReceiptRequest -> Option<Bytes>, configuredUrl: string, deliver: EmailRequest -> Delivery,
    userSubscriptions': map<nat, UserSubscription>, userSubscriptionSeq': nat,
    transactions': map<nat, Transaction>, transactionSeq': nat, receiptsDelivered': set<nat>,
    resp: Response<PaymentData>)
  {
    var usId, txId := userSubscriptionSeq, transactionSeq;
    var entry := CatalogEntry(catalog, p.subscriptionId);
    var purchase := PurchaseRecord(usId, p, entry, now);
    var f := Fulfil(users, p, txId, now, render, configuredUrl, deliver);
    var tx := Transaction(txId, p.subscriptionId, if f.Delivered? then Completed else Paid, now, now);
    && usId !in userSubscriptions && txId !in transactions
    && userSubscriptions' == userSubscriptions[usId := purchase]
    && userSubscriptionSeq' == usId + 1
    && transactions' == transactions[txId := tx]
    && transactionSeq' == txId + 1
    && receiptsDelivered' == receiptsDelivered + (if f.Delivered? then {txId} else {})
    && (f.Stopped? ==> resp == Failure(StatusInternalServerError, f.message))
    && (f.Delivered? ==>
          resp == Success(StatusOK, "Payment successful",
                          Some(PaymentData(p, purchase, tx, entry,
                                           ReceiptSentMessage(f.user.email)))))
  }

  /** Steps 1-8 of a validated payment, in order: record the purchase, look
      up the user, render the receipt, email it and, once the email endpoint
      has accepted it, complete the transaction. */
  method Purchase(db: Store, payment: PaymentRequest, now: Instant,
                  render: ReceiptRequest -> Option<Bytes>, configuredUrl: string,
                  deliver: EmailRequest -> Delivery)
    returns (resp: Response<PaymentData>)
    requires db.Valid() && db.Consistent()
    modifies db`userSubscriptions, db`userSubscriptionSeq, db`transactions, db`transactionSeq, db`receiptsDelivered
    ensures db.Valid() && db.Consistent()
    ensures PurchaseOutcome(old(db.userSubscriptions), old(db.userSubscriptionSeq),
                            old(db.transactions), old(db.transactionSeq), old(db.receiptsDelivered),
                            db.catalog, db.users, payment, now, render, configuredUrl, deliver,
                            db.userSubscriptions, db.userSubscriptionSeq, db.transactions, db.transactionSeq,
                            db.receiptsDelivered, resp)
  {
    ghost var us0, ts0, delivered0 := db.userSubscriptions, db.transactions, db.receiptsDelivered;
    var userSubscription, transaction, subscription := RecordPurchase(db, payment, now);

    var outcome := SendReceipt(db.users, payment, transaction.id, now, render, configuredUrl, deliver);
    if outcome.Stopped? {
      resp := Failure(StatusInternalServerError, outcome.message);
    } else {
      transaction := CompletePurchase(db, userSubscription, transaction, now);
      var data := PaymentData(payment, userSubscription, transaction, subscription, ReceiptSentMessage(outcome.user.email));
      resp := Success(StatusOK, "Payment successful", Some(data));
    }
    OutcomeOf(us0, ts0, delivered0, db.catalog, db.users, payment, now, render, configuredUrl, deliver,
              userSubscription, transaction, outcome, db.userSubscriptions, db.userSubscriptionSeq,
              db.transactions, db.transactionSeq, db.receiptsDelivered, resp);
  }

  /** Establishes PurchaseOutcome from the records a purchase wrote and the
      outcome of sending the receipt. */
  lemma OutcomeOf(
    userSubscriptions: map<nat, UserSubscription>, transactions: map<nat, Transaction>, receiptsDelivered: set<nat>,
    catalog: map<nat, PremiumSubscription>, users: seq<User>, p: PaymentRequest, now: Instant,
    render: ReceiptRequest -> Option<Bytes>, configuredUrl: string, deliver: EmailRequest -> Delivery,
    purchase: UserSubscription, tx: Transaction, outcome: Fulfilment,
    userSubscriptions': map<nat, UserSubscription>, userSubscriptionSeq': nat,
    transactions': map<nat, Transaction>, transactionSeq': nat, receiptsDelivered': set<nat>,
    resp: Response<PaymentData>)
    requires outcome == Fulfil(users, p, tx.id, now, render, configuredUrl, deliver)
    requires purchase.id !in userSubscriptions && tx.id !in transactions
    requires purchase == PurchaseRecord(purchase.id, p, CatalogEntry(catalog, p.subscriptionId), now)
    requires userSubscriptions' == userSubscriptions[purchase.id := purchase] && userSubscriptionSeq' == purchase.id + 1
    requires transactions' == transactions[tx.id := tx] && transactionSeq' == tx.id + 1
    requires tx == Transaction(tx.id, p.subscriptionId, if outcome.Delivered? then Completed else Paid, now, now)
    requires receiptsDelivered' == receiptsDelivered + (if outcome.Delivered? then {tx.id} else {})
    requires outcome.Stopped? ==> resp == Failure(StatusInternalServerError, outcome.message)
    requires outcome.Delivered? ==>
               resp == Success(StatusOK, "Payment successful",
                               Some(PaymentData(p, purchase, tx, CatalogEntry(catalog, p.subscriptionId),
                                                ReceiptSentMessage(outcome.user.email))))
    ensures PurchaseOutcome(userSubscriptions, purchase.id, transactions, tx.id, receiptsDelivered,
                            catalog, users, p, now, render, configuredUrl, deliver,
                            userSubscriptions', userSubscriptionSeq', transactions', transactionSeq',
                            receiptsDelivered', resp)
  {
  }

  /** Steps 5-7: look up the user, render the receipt and email it, stopping
      at the first step that fails. */
  method SendReceipt(users: seq<User>, payment: PaymentRequest, transactionId: nat, now: Instant,
                     render: ReceiptRequest -> Option<Bytes>, configuredUrl: string,
                     deliver: EmailRequest -> Delivery)
    returns (outcome: Fulfilment)
    ensures outcome == Fulfil(users, payment, transactionId, now, render, configuredUrl, deliver)
  {
    var user := UserById(users, payment.userId);
    if user.None? {
      return Stopped("User not found");
    }
    var clientName := user.value.name;

    var pdf := render(ReceiptFor(transactionId, now, clientName, payment.form.cardNumber));
    if pdf.None? {
      return Stopped("Error generating PDF receipt");
    }

    var reply := deliver(ReceiptEmail(configuredUrl, user.value, pdf.value));
    if reply != Replied(StatusOK) {
      return Stopped(DeliveryFailureMessage(reply));
    }
    outcome := Delivered(user.value, pdf.value);
  }

  /** Steps 1-4 after validation: read the plan (ignoring a failed lookup),
      compute the period, and create the user subscription and the "paid"
      transaction. */
  method RecordPurchase(db: Store, p: PaymentRequest, now: Instant)
    returns (purchase: UserSubscription, transaction: Transaction, entry: PremiumSubscription)
    requires db.Valid() && db.Consistent()
    modifies db`userSubscriptions, db`userSubscriptionSeq, db`transactions, db`transactionSeq
    ensures db.Valid() && db.Consistent()
    ensures entry == CatalogEntry(db.catalog, p.subscriptionId)
    ensures purchase == PurchaseRecord(old(db.userSubscriptionSeq), p, entry, now)
    ensures transaction == Transaction(old(db.transactionSeq), p.subscriptionId, Paid, now, now)
    ensures purchase.id !in old(db.userSubscriptions) && transaction.id !in old(db.transactions)
    ensures db.userSubscriptions == old(db.userSubscriptions)[purchase.id := purchase]
    ensures db.transactions == old(db.transactions)[transaction.id := transaction]
    ensures db.userSubscriptionSeq == purchase.id + 1 && db.transactionSeq == transaction.id + 1
  {
    // The lookup's failure is ignored: an unknown plan leaves a zero period.
    entry := CatalogEntry(db.catalog, p.subscriptionId);
    var startDate := now;
    var endDate := PeriodEnd(startDate, entry.period);
    purchase := db.CreateUserSubscription(
      UserSubscription(0, p.userId, p.subscriptionId, startDate, endDate, now, now));
    transaction := db.CreateTransaction(Transaction(0, p.subscriptionId, Paid, now, now));
    KeepsPurchases(db, old(db.userSubscriptions), old(db.transactions));
  }

  /** Step 8, once the email endpoint has accepted the receipt: mark the
      transaction "completed" and save it. */
  method CompletePurchase(db: Store, purchase: UserSubscription, transaction: Transaction, now: Instant)
    returns (completed: Transaction)
    requires db.Valid() && db.Consistent()
    requires transaction.id in db.transactions
    requires purchase.id in db.userSubscriptions && db.userSubscriptions[purchase.id] == purchase
    requires purchase.subscriptionId == transaction.subscriptionId
    modifies db`transactions, db`receiptsDelivered
    ensures db.Valid() && db.Consistent()
    ensures completed == transaction.(status := Completed, updatedAt := now)
    ensures db.transactions == old(db.transactions)[transaction.id := completed]
    ensures db.receiptsDelivered == old(db.receiptsDelivered) + {transaction.id}
  {
    db.receiptsDelivered := db.receiptsDelivered + {transaction.id};
    completed := transaction.(status := Completed, updatedAt := now);
    db.SaveTransaction(completed);
    assert db.userSubscriptions[purchase.id].subscriptionId == completed.subscriptionId;
  }

  /** Adding rows under fresh keys keeps every completed transaction and the
      user subscription that backs it. */
  lemma KeepsPurchases(db: Store, oldUs: map<nat, UserSubscription>, oldTs: map<nat, Transaction>)
    requires forall k | k in oldUs :: k in db.userSubscriptions && db.userSubscriptions[k] == oldUs[k]
    requires forall k | k in db.transactions :: k in oldTs ==> db.transactions[k] == oldTs[k]
    requires forall k | k in db.transactions && k !in oldTs :: db.transactions[k].status != Completed
    requires forall k | k in oldTs && oldTs[k].status == Completed ::
               k in db.receiptsDelivered &&
               exists j | j in oldUs :: oldUs[j].subscriptionId == oldTs[k].subscriptionId
    ensures db.Consistent()
  {
    forall k | k in db.transactions && db.transactions[k].status == Completed
      ensures k in db.receiptsDelivered && db.HasUserSubscriptionTo(db.transactions[k].subscriptionId)
    {
      var j :| j in oldUs && oldUs[j].subscriptionId == oldTs[k].subscriptionId;
      assert db.userSubscriptions[j].subscriptionId == db.transactions[k].subscriptionId;
    }
  }
}
