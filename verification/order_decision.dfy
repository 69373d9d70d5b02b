/** The POST checks of admin/create_order.php: the token, the customer's
    details, the service mode, the priced selection and the total, leading
    to the order draft to store or the message to show. */
module OrderDecision {
  import opened Util
  import opened Php
  import opened Constants
  import opened Security
  import opened OrderPricing

  /** The POSTed fields; an absent array is empty, an absent field None. */
  datatype OrderForm = OrderForm(
    csrfToken: Option<string>,
    customerName: Option<string>,
    customerEmail: Option<string>,
    customerPhone: Option<string>,
    services: seq<string>,
    quantities: seq<real>,
    serviceMode: Option<string>,
    notes: Option<string>)

  /** trim(strip_tags($_POST[...] ?? '')). */
  function Clean(field: Option<string>, php: Builtins): string {
    Trim(php.stripTags(field.GetOr("")))
  }

  const TokenError := "Invalid security token. Please refresh and try again."
  const NameLengthError := "Customer name must be between 2 and 255 characters."
  const EmailFormatError := "Invalid email format."
  const ModeError := "Invalid service mode selected."
  const MissingError := "Please enter customer name and select at least one service."
  const TotalError := "Invalid order total amount."
  const DatabaseError := "Database error. Please try again."
  const FailedPrefix := "Failed to create order: "
  const TooManyOrders := "Too many requests. Please wait a moment before creating another order."

  /** What an accepted form stores. */
  datatype Draft = Draft(
    name: string,
    email: string,
    phone: string,
    options: string,
    mode: ServiceMode,
    total: real,
    notes: string,
    items: seq<OrderItem>)

  datatype Decision =
    | Rejected(error: string)   // the page shows the error
    | NothingToStore            // every quantity was zero: no error, no order
    | Accepted(draft: Draft)

  /** "service (quantity unit)" for each line, joined by ", ". */
  function Summary(items: seq<OrderItem>, php: Builtins): string {
    Implode(", ", seq(|items|, i requires 0 <= i < |items| =>
      ServiceName(items[i].service) + " (" + php.floatToString(items[i].quantity) + " " + items[i].unit + ")"))
  }

  function Surcharge(mode: ServiceMode): real {
    if mode == Express then 100.0 else 0.0
  }

  /** The checks of lines 34-48: the first failing one's message. */
  function CustomerError(name: string, email: string, php: Builtins): (r: Option<string>)
    ensures r.None? <==> 2 <= |name| <= MaxNameLength && (IsEmpty(email) || php.isValidEmail(email))
  {
    if |name| < 2 || |name| > MaxNameLength then Some(NameLengthError)
    else if !IsEmpty(email) && !php.isValidEmail(email) then Some(EmailFormatError)
    else None
  }

  /** The POST handling of the page, up to the INSERT, on the session token
      `sessionToken`. */
  function Decide(form: OrderForm, sessionToken: Option<string>, php: Builtins): Decision {
    if form.csrfToken.None? || sessionToken != form.csrfToken then Rejected(TokenError)
    else
      var name := Clean(form.customerName, php);
      var email := Clean(form.customerEmail, php);
      var mode := ValidateServiceMode(form.serviceMode.GetOr("Regular"));
      var error := if mode.None? then Some(ModeError) else CustomerError(name, email, php);
      if error.Some? then Rejected(error.value)
      else if form.services == [] || IsEmpty(name) then Rejected(MissingError)
      else Settle(name, email, Clean(form.customerPhone, php), mode.value, Clean(form.notes, php),
                  PriceUpTo(Entries(form.services, PairedByPosition(form.services, form.quantities)), |form.services|), php)
  }

  /** The end of the POST handling once the selection is priced: the
      total bound (before the surcharge), the loop's fault, the empty
      order, or the draft to store. */
  function Settle(name: string, email: string, phone: string, mode: ServiceMode, notes: string,
                  p: Pricing, php: Builtins): Decision
  {
    if p.total < 0.0 || p.total > MaxOrderAmount as real then Rejected(TotalError)
    else if p.error.Some? then Rejected(FaultMessage(p.error.value))
    else if p.items == [] then NothingToStore
    else Accepted(Draft(name, email, phone, Summary(p.items, php), mode, p.total + Surcharge(mode),
                        Truncate(notes, MaxNotesLength), p.items))
  }

  /** A draft settled from a sound pricing has at least one valid line,
      a total that is the lines' sum plus the surcharge and lies in
      (0, MAX_ORDER_AMOUNT + 100], and notes within their limit; an order
      is only settled (stored or empty) when the loop had no fault. */
  lemma SettleIsSound(name: string, email: string, phone: string, mode: ServiceMode, notes: string,
                      p: Pricing, php: Builtins)
    requires p.total == SumTotals(p.items)
    requires forall i :: 0 <= i < |p.items| ==> ValidItem(p.items[i])
    ensures var d := Settle(name, email, phone, mode, notes, p, php);
      && (d.Accepted? || d == NothingToStore ==> p.error.None? && 0.0 <= p.total <= MaxOrderAmount as real)
      && (d.Accepted? ==>
          && d.draft.name == name && d.draft.email == email && d.draft.mode == mode
          && d.draft.items == p.items && d.draft.items != []
          && d.draft.total == SumTotals(d.draft.items) + Surcharge(mode)
          && 0.0 < d.draft.total <= MaxOrderAmount as real + 100.0
          && |d.draft.notes| <= MaxNotesLength)
  {
    if p.items != [] {
      SumPositive(p.items);
    }
  }

  /** A bad token is reported before anything else, and a bad mode before
      the customer checks. */
  lemma DecideChecksTokenThenMode(form: OrderForm, sessionToken: Option<string>, php: Builtins)
    ensures form.csrfToken.None? || sessionToken != form.csrfToken ==>
      Decide(form, sessionToken, php) == Rejected(TokenError)
    ensures && form.csrfToken.Some? && sessionToken == form.csrfToken
            && ValidateServiceMode(form.serviceMode.GetOr("Regular")).None?
            ==> Decide(form, sessionToken, php) == Rejected(ModeError)
  {
  }

  /** What an accepted form guarantees: the token matched, the customer
      passed the checks, the mode is valid, and the draft is sound; an
      order is stored or found empty only when every entry was good. */
  lemma DecisionIsSound(form: OrderForm, sessionToken: Option<string>, php: Builtins)
    ensures var d := Decide(form, sessionToken, php);
      && (d.Accepted? ==>
          && form.csrfToken.Some? && sessionToken == form.csrfToken
          && 2 <= |d.draft.name| <= MaxNameLength
          && (IsEmpty(d.draft.email) || php.isValidEmail(d.draft.email))
          && Some(d.draft.mode) == ValidateServiceMode(form.serviceMode.GetOr("Regular"))
          && d.draft.items != []
          && (forall i :: 0 <= i < |d.draft.items| ==> ValidItem(d.draft.items[i]))
          && d.draft.total == SumTotals(d.draft.items) + Surcharge(d.draft.mode)
          && 0.0 < d.draft.total <= MaxOrderAmount as real + 100.0
          && |d.draft.notes| <= MaxNotesLength)
      && (d.Accepted? || d == NothingToStore ==>
          forall i :: 0 <= i < |form.services| ==>
            && ServiceNamed(form.services[i]).Some?
            && 0.0 <= PairedByPosition(form.services, form.quantities)[i] <= MaxQuantity as real)
  {
    var d := Decide(form, sessionToken, php);
    if d.Accepted? || d == NothingToStore {
      DecidedBySettle(form, sessionToken, php);
      var name := Clean(form.customerName, php);
      var email := Clean(form.customerEmail, php);
      var mode := ValidateServiceMode(form.serviceMode.GetOr("Regular"));
      var qs := PairedByPosition(form.services, form.quantities);
      var es := Entries(form.services, qs);
      var p := PriceUpTo(es, |form.services|);
      PricingIsSound(es, |form.services|);
      SettleIsSound(name, email, Clean(form.customerPhone, php), mode.value, Clean(form.notes, php), p, php);
      NoErrorIffAllGood(es, |form.services|);
      EntriesAllGood(form.services, qs, es);
    }
  }

  /** A form that is settled passed the token, mode and customer checks,
      and its decision is Settle's on the priced selection. */
  lemma DecidedBySettle(form: OrderForm, sessionToken: Option<string>, php: Builtins)
    requires Decide(form, sessionToken, php).Accepted? || Decide(form, sessionToken, php) == NothingToStore
    ensures form.csrfToken.Some? && sessionToken == form.csrfToken
    ensures var mode := ValidateServiceMode(form.serviceMode.GetOr("Regular"));
      && mode.Some?
      && CustomerError(Clean(form.customerName, php), Clean(form.customerEmail, php), php).None?
      && Decide(form, sessionToken, php)
         == Settle(Clean(form.customerName, php), Clean(form.customerEmail, php), Clean(form.customerPhone, php),
                   mode.value, Clean(form.notes, php),
                   PriceUpTo(Entries(form.services, PairedByPosition(form.services, form.quantities)), |form.services|),
                   php)
  {
  }

  /** Entries that are all good name catalogue services with quantities
      in range. */
  lemma EntriesAllGood(services: seq<string>, qs: seq<real>, es: seq<Entry>)
    requires |qs| == |services| && es == Entries(services, qs)
    requires forall i :: 0 <= i < |es| ==> GoodEntry(es[i])
    ensures forall i :: 0 <= i < |services| ==> ServiceNamed(services[i]).Some? && 0.0 <= qs[i] <= MaxQuantity as real
  {
    forall i | 0 <= i < |services|
      ensures ServiceNamed(services[i]).Some? && 0.0 <= qs[i] <= MaxQuantity as real
    {
      assert GoodEntry(es[i]);
    }
  }

  lemma {:induction false} SumPositive(items: seq<OrderItem>)
    requires items != []
    requires forall i :: 0 <= i < |items| ==> ValidItem(items[i])
    ensures SumTotals(items) > 0.0
  {
    var last := items[|items| - 1];
    assert ValidItem(last);
    ProductPositive(last.price, last.quantity);
    if |items| > 1 {
      SumPositive(items[..|items| - 1]);
    }
  }

  /** The page's checks, statement by statement, on an already submitted
      form: the same decision as Decide. */
  method ValidateForm(form: OrderForm, sessionToken: Option<string>, php: Builtins) returns (d: Decision)
    ensures d == Decide(form, sessionToken, php)
  {
    if form.csrfToken.None? || sessionToken != form.csrfToken {
      return Rejected(TokenError);
    }
    var name, email, phone, notes, modeName, error := CheckFields(form, php);
    if error.Some? {
      return Rejected(error.value);
    }
    if form.services == [] || IsEmpty(name) {
      return Rejected(MissingError);
    }
    var qtys := PairedByPosition(form.services, form.quantities);
    d := SettleSelection(name, email, phone, ValidateServiceMode(modeName).value, notes, form.services, qtys, php);
  }

  /** The field checks of lines 34-65: the cleaned fields, the service
      mode as the page keeps it, and the first failing check's message. */
  method CheckFields(form: OrderForm, php: Builtins)
    returns (name: string, email: string, phone: string, notes: string, modeName: string, error: Option<string>)
    ensures name == Clean(form.customerName, php) && email == Clean(form.customerEmail, php)
    ensures phone == Clean(form.customerPhone, php) && notes == Clean(form.notes, php)
    ensures error == if ValidateServiceMode(form.serviceMode.GetOr("Regular")).None? then Some(ModeError)
                     else CustomerError(name, email, php)
    ensures error.None? ==> ValidateServiceMode(modeName) == ValidateServiceMode(form.serviceMode.GetOr("Regular"))
    ensures ValidateServiceMode(modeName).Some?
  {
    name := Clean(form.customerName, php);
    email := Clean(form.customerEmail, php);
    phone := Clean(form.customerPhone, php);
    error := None;
    if |name| < 2 || |name| > MaxNameLength {
      error := Some(NameLengthError);
    }
    if error.None? && !IsEmpty(email) && !php.isValidEmail(email) {
      error := Some(EmailFormatError);
    }
    assert error == CustomerError(name, email, php);
    modeName := form.serviceMode.GetOr("Regular");
    notes := Clean(form.notes, php);
    if ValidateServiceMode(modeName).None? {
      error := Some(ModeError);
      modeName := "Regular";
    }
  }

  /** The rest of the page's checks once the customer passed: the pricing
      loop, its fault, the total bound, the surcharge, the notes cut, the
      empty order. */
  method SettleSelection(name: string, email: string, phone: string, mode: ServiceMode, notes: string,
                         services: seq<string>, qtys: seq<real>, php: Builtins) returns (d: Decision)
    requires |qtys| == |services|
    ensures d == Settle(name, email, phone, mode, notes, PriceUpTo(Entries(services, qtys), |services|), php)
  {
    var p := PriceSelection(services, qtys);
    var error: Option<string> := None;
    if p.error.Some? {
      error := Some(FaultMessage(p.error.value));
    }
    if p.total < 0.0 || p.total > MaxOrderAmount as real {
      error := Some(TotalError);
    }
    var total := p.total;
    if error.None? && mode == Express {
      total := total + 100.0;
    }
    var kept := notes;
    if |kept| > MaxNotesLength {
      kept := kept[..MaxNotesLength];
    }
    if error.Some? {
      return Rejected(error.value);
    }
    if p.items == [] {
      return NothingToStore;
    }
    d := Accepted(Draft(name, email, phone, Summary(p.items, php), mode, total, kept, p.items));
  }
}
