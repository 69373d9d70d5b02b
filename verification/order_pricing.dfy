/** The pricing side of admin/create_order.php: the service cards and
    their prices, the loop that turns the ticked services and their
    quantities into order lines, and which quantity goes with which
    service. */
module OrderPricing {
  import opened Util
  import opened Php
  import opened Constants

  /** The service cards of the page, in display order; the server's table
      of allowed services has the same names, prices and units. */
  datatype Service =
    | RegularClothes | DelicateFabrics | BeddingsQueen | BeddingsKing | ComforterSingle
    | ComforterDouble | Blanket | Curtains | TableCloth | Towels


  function ServiceName(s: Service): string {
    match s
    case RegularClothes => "Regular Clothes"
    case DelicateFabrics => "Delicate Fabrics"
    case BeddingsQueen => "Beddings (Queen)"
    case BeddingsKing => "Beddings (King)"
    case ComforterSingle => "Comforter (Single)"
    case ComforterDouble => "Comforter (Double)"
    case Blanket => "Blanket"
    case Curtains => "Curtains (per panel)"
    case TableCloth => "Table Cloth"
    case Towels => "Towels (Bath)"
  }

  /** Price per unit, in pesos. */
  function Price(s: Service): (p: real)
    ensures 30.0 <= p <= 250.0
  {
    match s
    case RegularClothes => 60.0
    case DelicateFabrics => 80.0
    case BeddingsQueen => 200.0
    case BeddingsKing => 250.0
    case ComforterSingle => 150.0
    case ComforterDouble => 200.0
    case Blanket => 120.0
    case Curtains => 100.0
    case TableCloth => 80.0
    case Towels => 30.0
  }

  function Unit(s: Service): string {
    match s
    case RegularClothes => "kg"
    case DelicateFabrics => "kg"
    case BeddingsQueen => "set"
    case BeddingsKing => "set"
    case ComforterSingle => "piece"
    case ComforterDouble => "piece"
    case Blanket => "piece"
    case Curtains => "panel"
    case TableCloth => "piece"
    case Towels => "piece"
  }

  /** Position of the card on the page, which is also the position of its
      value among the posted quantities. */
  function CardIndex(s: Service): (k: nat)
    ensures k < 10
  {
    match s
    case RegularClothes => 0
    case DelicateFabrics => 1
    case BeddingsQueen => 2
    case BeddingsKing => 3
    case ComforterSingle => 4
    case ComforterDouble => 5
    case Blanket => 6
    case Curtains => 7
    case TableCloth => 8
    case Towels => 9
  }

  /** The card at a position: the inverse of CardIndex. */
  function CardAt(k: nat): (s: Service)
    requires k < 10
    ensures CardIndex(s) == k
  {
    if k == 0 then RegularClothes
    else if k == 1 then DelicateFabrics
    else if k == 2 then BeddingsQueen
    else if k == 3 then BeddingsKing
    else if k == 4 then ComforterSingle
    else if k == 5 then ComforterDouble
    else if k == 6 then Blanket
    else if k == 7 then Curtains
    else if k == 8 then TableCloth
    else Towels
  }

  /** Every service has a card, and only one. */
  lemma EveryServiceHasACard()
    ensures forall s :: CardAt(CardIndex(s)) == s
  {
  }

  /** The first card from position `k` on whose service is called `name`. */
  function FindService(name: string, k: nat): (r: Option<Service>)
    requires k <= 10
    ensures r.Some? ==> ServiceName(r.value) == name && k <= CardIndex(r.value)
    ensures r.None? ==> forall j :: k <= j < 10 ==> ServiceName(CardAt(j)) != name
    decreases 10 - k
  {
    if k == 10 then None
    else if ServiceName(CardAt(k)) == name then Some(CardAt(k))
    else FindService(name, k + 1)
  }

  /** isset($allowedServices[$name]): the service of that name, if any. */
  function ServiceNamed(name: string): (r: Option<Service>)
    ensures r.Some? ==> ServiceName(r.value) == name
  {
    FindService(name, 0)
  }

  /** A name the lookup misses names no service: the lookup covers the
      whole allow-list. */
  lemma UnlistedNameIsUnknown(name: string)
    ensures ServiceNamed(name).None? <==> forall s :: ServiceName(s) != name
  {
    if FindService(name, 0).None? {
      forall s: Service
        ensures ServiceName(s) != name
      {
        EveryServiceHasACard();
        assert ServiceName(CardAt(CardIndex(s))) != name;
      }
    }
  }

  /** One line of the order; the service is stored by name. */
  datatype OrderItem = OrderItem(service: Service, quantity: real, unit: string, price: real, total: real)

  /** A line the page can produce: the service's own price and unit, a
      quantity in (0, 1000], and price times quantity. */
  predicate ValidItem(it: OrderItem) {
    && it.price == Price(it.service)
    && it.unit == Unit(it.service)
    && 0.0 < it.quantity <= MaxQuantity as real
    && it.total == it.price * it.quantity
  }

  /** The sum of the lines' totals, last line last. */
  function SumTotals(items: seq<OrderItem>): real {
    if items == [] then 0.0 else SumTotals(items[..|items| - 1]) + items[|items| - 1].total
  }

  /** One selected service as the loop meets it: the posted name, the
      allow-listed service of that name if any, and the quantity paired
      with it. */
  datatype Entry = Entry(name: string, service: Option<Service>, qty: real)

  /** The selection with every name looked up in the allow-list. */
  function Entries(services: seq<string>, qtys: seq<real>): (es: seq<Entry>)
    requires |qtys| == |services|
    ensures |es| == |services|
    ensures forall i :: 0 <= i < |es| ==> es[i] == Entry(services[i], ServiceNamed(services[i]), qtys[i])
  {
    seq(|services|, i requires 0 <= i < |services| => Entry(services[i], ServiceNamed(services[i]), qtys[i]))
  }

  /** Why the loop stopped: an unknown service name, or a quantity outside
      [0, MAX_QUANTITY]; both carry the posted name. */
  datatype EntryFault = UnknownService(name: string) | BadQuantity(name: string)

  const InvalidServicePrefix := "Invalid service selected: "
  const InvalidQuantityPrefix := "Invalid quantity for service: "

  /** The message the page shows for a fault. */
  function FaultMessage(f: EntryFault): string {
    match f
    case UnknownService(name) => InvalidServicePrefix + HtmlEscape(name, Html401)
    case BadQuantity(name) => InvalidQuantityPrefix + HtmlEscape(name, Html401)
  }

  /** The loop's state: running total, lines so far, and the fault that
      stopped it. */
  datatype Pricing = Pricing(total: real, items: seq<OrderItem>, error: Option<EntryFault>)

  /** An entry the loop accepts: a known service and a quantity within
      [0, MAX_QUANTITY]. */
  predicate GoodEntry(e: Entry) {
    e.service.Some? && 0.0 <= e.qty <= MaxQuantity as real
  }

  /** The fault the loop stops with on a bad entry. */
  function EntryError(e: Entry): EntryFault {
    if e.service.None? then UnknownService(e.name) else BadQuantity(e.name)
  }

  /** The line for `qty` units of `s`. */
  function Line(s: Service, qty: real): OrderItem {
    OrderItem(s, qty, Unit(s), Price(s), Price(s) * qty)
  }

  /** The loop body on one entry. */
  function PriceStep(p: Pricing, e: Entry): Pricing {
    match e.service
    case None => p.(error := Some(UnknownService(e.name)))
    case Some(s) =>
      if e.qty < 0.0 || e.qty > MaxQuantity as real then p.(error := Some(BadQuantity(e.name)))
      else if e.qty > 0.0 then Pricing(p.total + Line(s, e.qty).total, p.items + [Line(s, e.qty)], None)
      else p
  }

  /** Price times quantity of an entry; an unknown service costs nothing. */
  function EntryCost(e: Entry): real {
    match e.service
    case Some(s) => Price(s) * e.qty
    case None => 0.0
  }

  lemma ProductPositive(a: real, b: real)
    requires a > 0.0 && b > 0.0
    ensures a * b > 0.0
  {
  }

  /** A line for an allowed quantity is valid and costs something. */
  lemma LineIsValid(s: Service, qty: real)
    requires 0.0 < qty <= MaxQuantity as real
    ensures ValidItem(Line(s, qty)) && Line(s, qty).total > 0.0
  {
    ProductPositive(Price(s), qty);
  }

  /** A step that adds a line adds that line's total, which is positive,
      and the line is valid. */
  lemma PriceStepKeepsTotal(p: Pricing, e: Entry)
    requires p.total == SumTotals(p.items)
    ensures var q := PriceStep(p, e);
      && q.total == SumTotals(q.items)
      && q.total >= p.total
      && q.items[..|p.items|] == p.items
      && (q.items == p.items || (|q.items| == |p.items| + 1 && ValidItem(q.items[|p.items|])))
  {
    var q := PriceStep(p, e);
    if q.items != p.items {
      var line := Line(e.service.value, e.qty);
      assert q == Pricing(p.total + line.total, p.items + [line], None);
      LineIsValid(e.service.value, e.qty);
      assert q.items[..|q.items| - 1] == p.items;
    } else {
      assert q.total == p.total;
    }
  }

  /** The loop body's verdict on one entry: a good entry leaves the loop
      running, a bad one stops it with that entry's fault. */
  lemma PriceStepFault(p: Pricing, e: Entry)
    requires p.error.None?
    ensures PriceStep(p, e).error == if GoodEntry(e) then None else Some(EntryError(e))
  {
  }

  /** A step that does not stop the loop adds price times quantity (a zero
      quantity adds nothing). */
  lemma PriceStepAddsCost(p: Pricing, e: Entry)
    requires p.error.None? && PriceStep(p, e).error.None?
    ensures PriceStep(p, e).total == p.total + EntryCost(e)
  {
  }

  /** The loop over the first `n` entries, which stops at the first bad
      one. */
  function PriceUpTo(es: seq<Entry>, n: nat): (p: Pricing)
    requires n <= |es|
    ensures |p.items| <= n
  {
    if n == 0 then Pricing(0.0, [], None)
    else
      var prev := PriceUpTo(es, n - 1);
      if prev.error.Some? then prev else PriceStep(prev, es[n - 1])
  }

  /** One more step of the loop. */
  lemma StepOfPriceUpTo(es: seq<Entry>, n: nat)
    requires 0 < n <= |es|
    ensures var prev := PriceUpTo(es, n - 1);
      PriceUpTo(es, n) == if prev.error.Some? then prev else PriceStep(prev, es[n - 1])
  {
  }

  /** The loop's total is the sum of its lines, every line is valid, and
      the total is never negative. */
  lemma {:induction false} PricingIsSound(es: seq<Entry>, n: nat)
    requires n <= |es|
    ensures var p := PriceUpTo(es, n);
      && p.total == SumTotals(p.items)
      && (forall i :: 0 <= i < |p.items| ==> ValidItem(p.items[i]))
      && p.total >= 0.0
  {
    if n > 0 {
      PricingIsSound(es, n - 1);
      StepOfPriceUpTo(es, n);
      var prev := PriceUpTo(es, n - 1);
      var p := PriceUpTo(es, n);
      if prev.error.None? {
        PriceStepKeepsTotal(prev, es[n - 1]);
        forall i | 0 <= i < |p.items|
          ensures ValidItem(p.items[i])
        {
          if i < |prev.items| {
            assert p.items[i] == p.items[..|prev.items|][i];
          }
        }
      }
    }
  }

  /** Once the loop has stopped, later entries change nothing. */
  lemma {:induction false} ErrorSticks(es: seq<Entry>, n: nat, m: nat)
    requires n <= m <= |es|
    requires PriceUpTo(es, n).error.Some?
    ensures PriceUpTo(es, m) == PriceUpTo(es, n)
    decreases m - n
  {
    if n < m {
      ErrorSticks(es, n, m - 1);
      StepOfPriceUpTo(es, m);
    }
  }

  /** The loop ends without error exactly when every entry is good. */
  lemma {:induction false} NoErrorIffAllGood(es: seq<Entry>, n: nat)
    requires n <= |es|
    ensures PriceUpTo(es, n).error.None? <==> forall i :: 0 <= i < n ==> GoodEntry(es[i])
  {
    if n > 0 {
      NoErrorIffAllGood(es, n - 1);
      StepOfPriceUpTo(es, n);
      var prev := PriceUpTo(es, n - 1);
      if prev.error.None? {
        PriceStepFault(prev, es[n - 1]);
      }
    }
  }

  /** On a bad entry, the loop reports that entry (the first bad one). */
  lemma FirstBadEntryReported(es: seq<Entry>, j: nat)
    requires j < |es|
    requires forall i :: 0 <= i < j ==> GoodEntry(es[i])
    requires !GoodEntry(es[j])
    ensures PriceUpTo(es, |es|).error == Some(EntryError(es[j]))
  {
    var prev := PriceUpTo(es, j);
    assert prev.error.None? by {
      NoErrorIffAllGood(es, j);
    }
    assert PriceUpTo(es, j + 1).error == Some(EntryError(es[j])) by {
      StepOfPriceUpTo(es, j + 1);
      PriceStepFault(prev, es[j]);
    }
    ErrorSticks(es, j + 1, |es|);
  }

  /** Price times quantity summed over the first `n` entries: an
      independent statement of what the order costs. */
  function SelectionTotal(es: seq<Entry>, n: nat): real
    requires n <= |es|
  {
    if n == 0 then 0.0 else SelectionTotal(es, n - 1) + EntryCost(es[n - 1])
  }

  /** Skipping zero quantities does not change the total: without error,
      the loop's total is price times quantity over every entry. */
  lemma {:induction false} TotalIsSelectionTotal(es: seq<Entry>, n: nat)
    requires n <= |es|
    requires PriceUpTo(es, n).error.None?
    ensures PriceUpTo(es, n).total == SelectionTotal(es, n)
  {
    if n > 0 {
      StepOfPriceUpTo(es, n);
      var prev := PriceUpTo(es, n - 1);
      TotalIsSelectionTotal(es, n - 1);
      PriceStepAddsCost(prev, es[n - 1]);
    }
  }

  /** The foreach over the selected services (lines 79-104), with its
      break on the first bad entry. */
  method PriceSelection(services: seq<string>, qtys: seq<real>) returns (p: Pricing)
    requires |qtys| == |services|
    ensures p == PriceUpTo(Entries(services, qtys), |services|)
  {
    ghost var es := Entries(services, qtys);
    var total := 0.0;
    var items: seq<OrderItem> := [];
    var error: Option<EntryFault> := None;
    var i := 0;
    while i < |services|
      invariant 0 <= i <= |services|
      invariant Pricing(total, items, None) == PriceUpTo(es, i)
      invariant error.None?
    {
      StepOfPriceUpTo(es, i + 1);
      ghost var before := Pricing(total, items, None);
      var service := ServiceNamed(services[i]);
      assert es[i] == Entry(services[i], service, qtys[i]);
      if service.None? {
        error := Some(UnknownService(services[i]));
        ErrorSticks(es, i + 1, |services|);
        break;
      }
      var qty := qtys[i];
      if qty < 0.0 || qty > MaxQuantity as real {
        error := Some(BadQuantity(services[i]));
        ErrorSticks(es, i + 1, |services|);
        break;
      }
      if qty > 0.0 {
        var line := Line(service.value, qty);
        total := total + line.total;
        items := items + [line];
      }
      i := i + 1;
    }
    p := Pricing(total, items, error);
  }

  // ------------------------------------------------------------------
  // Which quantity goes with which service
  // ------------------------------------------------------------------

  /** floatval($quantities[$k] ?? 0). */
  function QuantityAt(quantities: seq<real>, k: int): real {
    if 0 <= k < |quantities| then quantities[k] else 0.0
  }

  /** As written (line 85): the i-th ticked service takes the i-th posted
      quantity. Every card posts a quantity, ticked or not, so this is the
      quantity of card i, not of the ticked service. */
  function PairedByPosition(services: seq<string>, quantities: seq<real>): (q: seq<real>)
    ensures |q| == |services|
    ensures forall i :: 0 <= i < |q| ==> q[i] == QuantityAt(quantities, i)
  {
    seq(|services|, i requires 0 <= i < |services| => QuantityAt(quantities, i))
  }

  /** As intended: each ticked service takes the quantity of its own card. */
  function PairedByCard(services: seq<string>, quantities: seq<real>): (q: seq<real>)
    ensures |q| == |services|
    ensures forall i :: 0 <= i < |q| && ServiceNamed(services[i]).Some? ==>
      q[i] == QuantityAt(quantities, CardIndex(ServiceNamed(services[i]).value))
  {
    seq(|services|, i requires 0 <= i < |services| =>
      match ServiceNamed(services[i])
      case Some(s) => QuantityAt(quantities, CardIndex(s))
      case None => 0.0)
  }

  /** The form of a customer who ticks only "Blanket" and enters 5 on its
      card; the other cards keep their default of 1, the first card's
      value is 2. */
  const BlanketOnly: seq<string> := ["Blanket"]
  const BlanketCardsPosted: seq<real> := [2.0, 1.0, 1.0, 1.0, 1.0, 1.0, 5.0, 1.0, 1.0, 1.0]

  /** Pairing by position bills the blanket at the first card's quantity
      (2 x 120) instead of its own (5 x 120), and the price changes with a
      card the customer did not tick. */
  lemma PositionPairingBillsAnotherCard()
    ensures PriceUpTo(Entries(BlanketOnly, PairedByPosition(BlanketOnly, BlanketCardsPosted)), 1).total == 240.0
    ensures PriceUpTo(Entries(BlanketOnly, PairedByCard(BlanketOnly, BlanketCardsPosted)), 1).total == 600.0
    ensures PriceUpTo(Entries(BlanketOnly, PairedByPosition(BlanketOnly, BlanketCardsPosted[0 := 3.0])), 1).total == 360.0
  {
    assert PairedByPosition(BlanketOnly, BlanketCardsPosted) == [2.0];
    assert PairedByCard(BlanketOnly, BlanketCardsPosted) == [5.0];
    assert PairedByPosition(BlanketOnly, BlanketCardsPosted[0 := 3.0]) == [3.0];
  }

  /** Pairing by card: the price of an order depends only on the cards of
      the services ticked, and is price times that card's quantity. */
  lemma CardPairingPricesTheTickedCards(services: seq<string>, q1: seq<real>, q2: seq<real>)
    requires forall i :: 0 <= i < |services| && ServiceNamed(services[i]).Some? ==>
      QuantityAt(q1, CardIndex(ServiceNamed(services[i]).value)) == QuantityAt(q2, CardIndex(ServiceNamed(services[i]).value))
    ensures PriceUpTo(Entries(services, PairedByCard(services, q1)), |services|)
      == PriceUpTo(Entries(services, PairedByCard(services, q2)), |services|)
    ensures var es := Entries(services, PairedByCard(services, q1));
      PriceUpTo(es, |services|).error.None? ==> PriceUpTo(es, |services|).total == SelectionTotal(es, |services|)
  {
    var a := PairedByCard(services, q1);
    var b := PairedByCard(services, q2);
    forall i | 0 <= i < |services|
      ensures a[i] == b[i]
    {
    }
    assert a == b;
    var es := Entries(services, a);
    if PriceUpTo(es, |services|).error.None? {
      TotalIsSelectionTotal(es, |services|);
    }
  }
}
