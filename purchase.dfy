/**
 * The decision part of a ticket purchase (`customer_purchase`): the posted
 * form, the flight row the lookup returned, the customer row, the database
 * clock and the existing ticket ids decide whether a ticket is issued and
 * under which id, or which check rejects the purchase first.
 */
module Purchase {
  import opened Wrappers
  import opened Text

  /** The posted purchase form; None when a field is absent. */
  datatype PurchaseForm = PurchaseForm(
    airline: Option<string>,
    flightNumber: Option<string>,
    departure: Option<string>,
    nameOnCard: Option<string>,
    cardType: Option<string>,
    cardNumber: Option<string>,
    expiration: Option<string>)

  /** The form fields after defaults and stripping, as the handler holds them. */
  datatype Order = Order(
    airline: string,
    flightNumber: string,
    departure: string,
    nameOnCard: string,
    cardType: string,
    cardNumber: string,
    expiration: string)

  /** The flight row found for (airline, flight number, departure); times are instants. */
  datatype FlightRow = FlightRow(status: string, departure: int)

  /** The customer row of the signed-in email; the name column may be NULL. */
  datatype CustomerRow = CustomerRow(name: Option<string>)

  /** The row inserted into Ticket. */
  datatype Ticket = Ticket(
    id: int,
    email: string,
    airline: string,
    flightNumber: string,
    departure: string,
    cardType: string,
    cardNumber: string,
    nameOnCard: string,
    expiration: string,
    purchased: int)

  /** Why a purchase is refused, in the order the checks run. */
  datatype Reason =
    | MissingFields
    | FlightNotFound
    | Cancelled
    | AlreadyDeparted
    | NoCustomer
    | NameMismatch
    | CardNotDigits
    | CardLength
  {
    /** The position of the check in the chain. */
    function Step(): nat {
      match this
      case MissingFields => 0
      case FlightNotFound => 1
      case Cancelled => 2
      case AlreadyDeparted => 3
      case NoCustomer => 4
      case NameMismatch => 5
      case CardNotDigits => 6
      case CardLength => 7
    }
  }

  datatype Outcome = Rejected(reason: Reason) | Purchased(ticket: Ticket)

  /**
   * Reads the form: every field stripped; the name on the card defaults to the
   * signed-in email and the card type to "Credit" when the field is absent.
   */
  function ReadOrder(form: PurchaseForm, email: string): Order {
    Order(
      Field(form.airline, ""),
      Field(form.flightNumber, ""),
      Field(form.departure, ""),
      Field(form.nameOnCard, email),
      Field(form.cardType, "Credit"),
      Field(form.cardNumber, ""),
      Field(form.expiration, ""))
  }

  /** `request.form.get(name, default).strip()`. */
  function Field(x: Option<string>, default: string): string {
    Strip(x.GetOr(default))
  }

  /** The account name the card is compared with: the stripped name, "" when NULL. */
  function AccountName(c: CustomerRow): string {
    Strip(c.name.GetOr(""))
  }

  /** The name on the card and the account name agree under the name normaliser `norm`. */
  predicate NamesMatch(norm: string -> string, o: Order, c: CustomerRow) {
    norm(o.nameOnCard) == norm(AccountName(c))
  }

  /** The five fields the purchase cannot do without. */
  predicate AllPresent(o: Order) {
    o.airline != "" && o.flightNumber != "" && o.departure != "" && o.cardNumber != "" && o.expiration != ""
  }

  /** A card number the purchase accepts: ASCII digits only, 13 to 19 of them. */
  predicate ValidCard(n: string) {
    IsDigits(n) && 13 <= |n| <= 19
  }

  /** The largest existing ticket id. */
  function MaxId(ids: seq<int>): (m: int)
    requires ids != []
    ensures m in ids
    ensures forall i :: 0 <= i < |ids| ==> ids[i] <= m
  {
    if |ids| == 1 then ids[0]
    else
      var rest := MaxId(ids[1..]);
      if ids[0] >= rest then ids[0] else rest
  }

  /** `COALESCE(MAX(ticket_ID), 0) + 1`: above every existing id; 1 for an empty table. */
  function NextId(ids: seq<int>): (n: int)
    ensures forall i :: 0 <= i < |ids| ==> ids[i] < n
    ensures n !in ids
    ensures ids == [] ==> n == 1
    ensures ids != [] ==> n - 1 in ids
  {
    if ids == [] then 1 else MaxId(ids) + 1
  }

  /**
   * The check chain on the read form: the first failing check decides, else a
   * ticket is issued. `norm` is the handler's name normaliser (`Norm` in `Purchase`).
   */
  function Decide(norm: string -> string, email: string, o: Order, flight: Option<FlightRow>, customer: Option<CustomerRow>,
                  now: int, ids: seq<int>): (r: Outcome)
    ensures r.Purchased? ==> r.ticket.id == NextId(ids) && r.ticket.id !in ids
    ensures r.Purchased? ==> ValidCard(r.ticket.cardNumber) && r.ticket.email == email
  {
    if !AllPresent(o) then Rejected(MissingFields)
    else if flight.None? then Rejected(FlightNotFound)
    else if flight.value.status == "CANCELLED" then Rejected(Cancelled)
    else if flight.value.departure <= now then Rejected(AlreadyDeparted)
    else if customer.None? then Rejected(NoCustomer)
    else if !NamesMatch(norm, o, customer.value) then Rejected(NameMismatch)
    else if !IsDigits(o.cardNumber) then Rejected(CardNotDigits)
    else if !(13 <= |o.cardNumber| <= 19) then Rejected(CardLength)
    else Purchased(Ticket(NextId(ids), email, o.airline, o.flightNumber, o.departure,
                          o.cardType, o.cardNumber, o.nameOnCard, o.expiration, now))
  }

  /** A purchase request by the signed-in customer `email`. */
  function Purchase(email: string, form: PurchaseForm, flight: Option<FlightRow>, customer: Option<CustomerRow>,
                    now: int, ids: seq<int>): (r: Outcome)
    ensures r.Purchased? ==> customer.Some? && Norm(r.ticket.nameOnCard) == Norm(AccountName(customer.value))
    ensures r.Purchased? ==> LowerAll(Split(r.ticket.nameOnCard)) == LowerAll(Split(AccountName(customer.value)))
  {
    var o := ReadOrder(form, email);
    var r := Decide(Norm, email, o, flight, customer, now, ids);
    if r.Purchased? then
      IssuedTicket(Norm, email, o, flight, customer, now, ids);
      NormMatch(r.ticket.nameOnCard, AccountName(customer.value));
      r
    else r
  }

  /**
   * One field as read: trimmed; an absent field gives the stripped default, and
   * a field without a default reads like any other text input.
   */
  lemma FieldRead(x: Option<string>, default: string)
    ensures Trimmed(Field(x, default))
    ensures x.None? ==> Field(x, default) == Strip(default)
    ensures x.None? && Trimmed(default) ==> Field(x, default) == default
    ensures Field(x, "") == Trim(x)
  {
    if x.None? && Trimmed(default) {
      StripTrimmed(default);
    }
  }

  /** The card type's default is already stripped. */
  lemma CreditTrimmed()
    ensures Trimmed("Credit")
  {
    assert "Credit"[0] == 'C' && "Credit"[5] == 't';
  }

  /**
   * The form as read: every field trimmed; an absent field is empty, except the
   * name on the card, which becomes the stripped email, and the card type, "Credit".
   */
  lemma ReadOrderFields(form: PurchaseForm, email: string)
    ensures Trimmed(ReadOrder(form, email).nameOnCard)
    ensures form.nameOnCard.None? ==> ReadOrder(form, email).nameOnCard == Strip(email)
    ensures Trimmed(ReadOrder(form, email).cardType)
    ensures form.cardType.None? ==> ReadOrder(form, email).cardType == "Credit"
    ensures ReadOrder(form, email).airline == Trim(form.airline)
    ensures ReadOrder(form, email).flightNumber == Trim(form.flightNumber)
    ensures ReadOrder(form, email).departure == Trim(form.departure)
    ensures ReadOrder(form, email).cardNumber == Trim(form.cardNumber)
    ensures ReadOrder(form, email).expiration == Trim(form.expiration)
  {
    FieldRead(form.nameOnCard, email);
    CreditTrimmed();
    FieldRead(form.cardType, "Credit");
    FieldRead(form.airline, "");
    FieldRead(form.flightNumber, "");
    FieldRead(form.departure, "");
    FieldRead(form.cardNumber, "");
    FieldRead(form.expiration, "");
  }

  /** Each check's failure condition on its own, whatever the other checks say. */
  predicate Fails(norm: string -> string, e: Reason, o: Order, flight: Option<FlightRow>, customer: Option<CustomerRow>, now: int) {
    match e
    case MissingFields => !AllPresent(o)
    case FlightNotFound => flight.None?
    case Cancelled => flight.Some? && flight.value.status == "CANCELLED"
    case AlreadyDeparted => flight.Some? && flight.value.departure <= now
    case NoCustomer => customer.None?
    case NameMismatch => customer.Some? && !NamesMatch(norm, o, customer.value)
    case CardNotDigits => !IsDigits(o.cardNumber)
    case CardLength => !(13 <= |o.cardNumber| <= 19)
  }

  /** No check before `e` in the chain fails. */
  predicate PassesBefore(norm: string -> string, e: Reason, o: Order, flight: Option<FlightRow>, customer: Option<CustomerRow>, now: int) {
    forall d: Reason :: d.Step() < e.Step() ==> !Fails(norm, d, o, flight, customer, now)
  }

  /**
   * The purchase is rejected for `e` exactly when check `e` fails and every
   * earlier check passes: the reported reason is the first failure.
   */
  lemma FirstFailure(norm: string -> string, email: string, o: Order, flight: Option<FlightRow>,
                     customer: Option<CustomerRow>, now: int, ids: seq<int>, e: Reason)
    ensures Decide(norm, email, o, flight, customer, now, ids) == Rejected(e)
        <==> Fails(norm, e, o, flight, customer, now) && PassesBefore(norm, e, o, flight, customer, now)
  {
    if Decide(norm, email, o, flight, customer, now, ids) == Rejected(e) {
      RejectedFails(norm, email, o, flight, customer, now, ids, e);
    }
    if Fails(norm, e, o, flight, customer, now) && PassesBefore(norm, e, o, flight, customer, now) {
      FailsRejected(norm, email, o, flight, customer, now, ids, e);
    }
  }

  lemma RejectedFails(norm: string -> string, email: string, o: Order, flight: Option<FlightRow>,
                      customer: Option<CustomerRow>, now: int, ids: seq<int>, e: Reason)
    requires Decide(norm, email, o, flight, customer, now, ids) == Rejected(e)
    ensures Fails(norm, e, o, flight, customer, now) && PassesBefore(norm, e, o, flight, customer, now)
  {
    forall d: Reason | d.Step() < e.Step()
      ensures !Fails(norm, d, o, flight, customer, now)
    {
      match d
      case MissingFields =>
      case FlightNotFound =>
      case Cancelled =>
      case AlreadyDeparted =>
      case NoCustomer =>
      case NameMismatch =>
      case CardNotDigits =>
      case CardLength =>
    }
  }

  lemma FailsRejected(norm: string -> string, email: string, o: Order, flight: Option<FlightRow>,
                      customer: Option<CustomerRow>, now: int, ids: seq<int>, e: Reason)
    requires Fails(norm, e, o, flight, customer, now) && PassesBefore(norm, e, o, flight, customer, now)
    ensures Decide(norm, email, o, flight, customer, now, ids) == Rejected(e)
  {
    var fl, cu := flight, customer;
    if e.Step() > 0 { assert !Fails(norm, MissingFields, o, fl, cu, now); assert AllPresent(o); }
    if e.Step() > 1 { assert !Fails(norm, FlightNotFound, o, fl, cu, now); assert fl.Some?; }
    if e.Step() > 2 { assert !Fails(norm, Cancelled, o, fl, cu, now); assert fl.value.status != "CANCELLED"; }
    if e.Step() > 3 { assert !Fails(norm, AlreadyDeparted, o, fl, cu, now); assert fl.value.departure > now; }
    if e.Step() > 4 { assert !Fails(norm, NoCustomer, o, fl, cu, now); assert cu.Some?; }
    if e.Step() > 5 { assert !Fails(norm, NameMismatch, o, fl, cu, now); assert NamesMatch(norm, o, cu.value); }
    if e.Step() > 6 { assert !Fails(norm, CardNotDigits, o, fl, cu, now); assert IsDigits(o.cardNumber); }
    match e
    case MissingFields =>
    case FlightNotFound =>
    case Cancelled =>
    case AlreadyDeparted =>
    case NoCustomer =>
    case NameMismatch =>
    case CardNotDigits =>
    case CardLength =>
  }

  /** A ticket is issued exactly when no check fails. */
  lemma Accepted(norm: string -> string, email: string, o: Order, flight: Option<FlightRow>,
                 customer: Option<CustomerRow>, now: int, ids: seq<int>)
    ensures Decide(norm, email, o, flight, customer, now, ids).Purchased?
        <==> forall d: Reason :: !Fails(norm, d, o, flight, customer, now)
  {
    var r := Decide(norm, email, o, flight, customer, now, ids);
    if r.Rejected? {
      RejectedFails(norm, email, o, flight, customer, now, ids, r.reason);
    } else {
      forall d: Reason ensures !Fails(norm, d, o, flight, customer, now) {
        match d
        case MissingFields =>
        case FlightNotFound =>
        case Cancelled =>
        case AlreadyDeparted =>
        case NoCustomer =>
        case NameMismatch =>
        case CardNotDigits =>
        case CardLength =>
      }
    }
  }

  /**
   * Once the flight, the clock, the customer and the names are in order, the
   * card decides: the ticket is issued iff the number is all digits and 13 to 19 long.
   */
  lemma CardDecides(norm: string -> string, email: string, o: Order, f: FlightRow,
                    c: CustomerRow, now: int, ids: seq<int>)
    requires AllPresent(o) && f.status != "CANCELLED" && f.departure > now && NamesMatch(norm, o, c)
    ensures Decide(norm, email, o, Some(f), Some(c), now, ids).Purchased? <==> ValidCard(o.cardNumber)
  {
  }

  /** An issued ticket: the flight exists, is not cancelled and departs later; the names and the card pass. */
  lemma IssuedTicket(norm: string -> string, email: string, o: Order, flight: Option<FlightRow>,
                     customer: Option<CustomerRow>, now: int, ids: seq<int>)
    requires Decide(norm, email, o, flight, customer, now, ids).Purchased?
    ensures var t := Decide(norm, email, o, flight, customer, now, ids).ticket;
      && flight.Some? && flight.value.status != "CANCELLED" && now < flight.value.departure
      && customer.Some? && norm(t.nameOnCard) == norm(AccountName(customer.value))
      && ValidCard(t.cardNumber)
      && t.id == NextId(ids) && t.id !in ids && (forall i :: 0 <= i < |ids| ==> ids[i] < t.id)
      && t.email == email && t.purchased == now
      && t.airline == o.airline && t.flightNumber == o.flightNumber && t.departure == o.departure
      && t.cardType == o.cardType && t.cardNumber == o.cardNumber && t.expiration == o.expiration
      && t.nameOnCard == o.nameOnCard
  {
    assert Decide(norm, email, o, flight, customer, now, ids).ticket
      == Ticket(NextId(ids), email, o.airline, o.flightNumber, o.departure,
                o.cardType, o.cardNumber, o.nameOnCard, o.expiration, now);
  }

  /** A cancelled flight is refused whatever the name, card, customer, ticket table or name normaliser. */
  lemma CancelledRefused(norm: string -> string, email: string, o: Order, departure: int,
                         customer: Option<CustomerRow>, now: int, ids: seq<int>)
    requires AllPresent(o)
    ensures Decide(norm, email, o, Some(FlightRow("CANCELLED", departure)), customer, now, ids) == Rejected(Cancelled)
  {
    FailsRejected(norm, email, o, Some(FlightRow("CANCELLED", departure)), customer, now, ids, Cancelled);
  }

  /** A flight departing at the very instant of the purchase has already departed. */
  lemma DepartingNowRefused(norm: string -> string, email: string, o: Order, status: string,
                            customer: Option<CustomerRow>, now: int, ids: seq<int>)
    requires AllPresent(o) && status != "CANCELLED"
    ensures Decide(norm, email, o, Some(FlightRow(status, now)), customer, now, ids) == Rejected(AlreadyDeparted)
  {
    FailsRejected(norm, email, o, Some(FlightRow(status, now)), customer, now, ids, AlreadyDeparted);
  }

  /**
   * Without a name on the card the name defaults to the signed-in email, so such
   * a purchase goes through only when the email normalises to the account name.
   */
  lemma DefaultNameIsEmail(norm: string -> string, email: string, form: PurchaseForm, flight: Option<FlightRow>,
                           customer: Option<CustomerRow>, now: int, ids: seq<int>)
    requires form.nameOnCard.None?
    requires Decide(norm, email, ReadOrder(form, email), flight, customer, now, ids).Purchased?
    ensures var t := Decide(norm, email, ReadOrder(form, email), flight, customer, now, ids).ticket;
      t.nameOnCard == Strip(email) && customer.Some? && norm(Strip(email)) == norm(AccountName(customer.value))
  {
    var o := ReadOrder(form, email);
    assert o.nameOnCard == Field(None, email);
    IssuedTicket(norm, email, o, flight, customer, now, ids);
  }

  /** No id occurs twice. */
  predicate Distinct(ids: seq<int>) {
    forall i, j :: 0 <= i < j < |ids| ==> ids[i] != ids[j]
  }

  /** Adding the issued id to a table of distinct ids keeps them distinct. */
  lemma FreshIdKeepsDistinct(ids: seq<int>)
    requires Distinct(ids)
    ensures Distinct(ids + [NextId(ids)])
  {
  }

  lemma CardExamples()
    ensures ValidCard("4111111111111111")
    ensures !ValidCard("411111111111")
    ensures !ValidCard("41111111111111111111")
    ensures !ValidCard("4111-1111-1111-1")
  {
    assert "4111-1111-1111-1"[4] == '-';
  }
}
