/** admin/price_list.php: the price list is an append-only table. Saving
    the form checks the base and excess prices and appends a row; the
    current prices are the row with the highest id, and the page shows
    worked examples of the weight rule "the base price covers up to 6 kg,
    every kilogram above costs the excess price". */
module PriceList {
  import opened Util
  import opened Php
  import opened Constants
  import opened Schema
  import opened Security

  const BaseNotPositive := "Base price must be greater than 0."
  const ExcessNegative := "Excess price per kg cannot be negative."
  const PricesUpdated := "✅ Price list updated successfully!"
  const FailedPrefix := "Failed to update price list: "

  /** The kilograms the base price covers. */
  const BaseKilos := 6

  /** What the form shows when the table is empty (and 30 for an excess
      price stored as NULL). */
  const DefaultBase := 180.0
  const DefaultExcess := 30.0
  const DefaultDry := 50.0
  const DefaultIron := 30.0

  /** The four posted prices, after floatval(). */
  datatype PriceForm = PriceForm(base: real, excess: real, dry: real, iron: real)

  /** The checks, in order: the base price first, then the excess price;
      the dry and iron prices are not checked. */
  function CheckPrices(f: PriceForm): (err: Option<string>)
    ensures err.None? <==> f.base > 0.0 && f.excess >= 0.0
    ensures f.base <= 0.0 ==> err == Some(BaseNotPositive)
    ensures f.base > 0.0 && f.excess < 0.0 ==> err == Some(ExcessNegative)
  {
    if f.base <= 0.0 then Some(BaseNotPositive)
    else if f.excess < 0.0 then Some(ExcessNegative)
    else None
  }

  /** The dry and iron prices never decide the outcome: any values,
      negative ones included, pass. */
  lemma ExtrasAreNotChecked(f: PriceForm, dry: real, iron: real)
    ensures CheckPrices(f.(dry := dry, iron := iron)) == CheckPrices(f)
  {
  }

  /** The row a valid form appends. */
  function NewRow(f: PriceForm, id: int, now: int): PriceRow {
    PriceRow(id, f.base, Some(f.excess), f.dry, f.iron, now)
  }

  /** SELECT * FROM price_list ORDER BY id DESC LIMIT 1. */
  function Latest(rows: seq<PriceRow>): (r: Option<PriceRow>)
    ensures r.Some? <==> rows != []
    ensures r.Some? ==> r.value in rows && forall p <- rows :: p.id <= r.value.id
  {
    if rows == [] then None
    else
      var rest := Latest(rows[1..]);
      if rest.None? || rest.value.id < rows[0].id then Some(rows[0]) else rest
  }

  /** A row with a higher id than every earlier row becomes the current
      one. */
  lemma {:induction false} AppendedRowIsLatest(rows: seq<PriceRow>, p: PriceRow)
    requires forall q <- rows :: q.id < p.id
    ensures Latest(rows + [p]) == Some(p)
  {
    if rows != [] {
      assert (rows + [p])[1..] == rows[1..] + [p];
      assert forall q <- rows[1..] :: q in rows;
      AppendedRowIsLatest(rows[1..], p);
      assert rows[0] in rows;
    }
  }

  /** The values the form is filled with: the current row's prices, with
      the default only where a column is NULL, or every default when no
      row exists. */
  function FormDefaults(current: Option<PriceRow>): (f: PriceForm)
    ensures current.None? ==> f == PriceForm(DefaultBase, DefaultExcess, DefaultDry, DefaultIron)
    ensures current.Some? ==> f.base == current.value.basePrice && f.dry == current.value.priceDry
    ensures current.Some? ==> f.excess == current.value.excessPerKg.GetOr(DefaultExcess)
    ensures current.Some? ==> f.iron == current.value.priceIron
  {
    match current
    case None => PriceForm(DefaultBase, DefaultExcess, DefaultDry, DefaultIron)
    case Some(p) => PriceForm(p.basePrice, p.excessPerKg.GetOr(DefaultExcess), p.priceDry, p.priceIron)
  }

  // ------------------------------------------------------------------
  // The pricing examples
  // ------------------------------------------------------------------

  /** The weight rule: the base price up to 6 kg, the excess price for
      every kilogram above. */
  function WashCost(base: real, excess: real, kilos: nat): real {
    base + (if kilos > BaseKilos then (kilos - BaseKilos) as real * excess else 0.0)
  }

  /** One line of the examples box: a weight, whether drying and ironing
      are added, and the figure the page prints. */
  datatype Example = Example(kilos: nat, withExtras: bool, figure: real)

  /** The five lines as the page computes them. */
  function Examples(p: PriceRow): seq<Example> {
    var base := p.basePrice;
    var excess := p.excessPerKg.GetOr(DefaultExcess);
    [Example(5, false, base),
     Example(6, false, base),
     Example(8, false, base + 2.0 * excess),
     Example(10, false, base + 4.0 * excess),
     Example(8, true, base + 2.0 * excess + p.priceDry + p.priceIron)]
  }

  /** Every printed figure is what the weight rule gives, plus the dry and
      iron prices where they are added. */
  lemma ExamplesFollowTheRule(p: PriceRow)
    ensures forall e <- Examples(p) ::
      e.figure == WashCost(p.basePrice, p.excessPerKg.GetOr(DefaultExcess), e.kilos)
                  + (if e.withExtras then p.priceDry + p.priceIron else 0.0)
  {
    var ex := Examples(p);
    assert forall i :: 0 <= i < |ex| ==>
      ex[i].figure == WashCost(p.basePrice, p.excessPerKg.GetOr(DefaultExcess), ex[i].kilos)
                      + (if ex[i].withExtras then p.priceDry + p.priceIron else 0.0);
  }

  // ------------------------------------------------------------------
  // The page
  // ------------------------------------------------------------------

  /** INSERT INTO price_list ... VALUES (..., NOW()). */
  method AppendPrices(db: Db, f: PriceForm, now: int) returns (row: PriceRow)
    requires db.Valid()
    modifies db`priceList, db`nextPriceId
    ensures db.Valid()
    ensures row == NewRow(f, old(db.nextPriceId), now)
    ensures db.priceList == old(db.priceList) + [row] && db.nextPriceId == old(db.nextPriceId) + 1
    ensures Latest(db.priceList) == Some(row)
  {
    row := NewRow(f, db.nextPriceId, now);
    AppendedRowIsLatest(db.priceList, row);
    db.priceList := db.priceList + [row];
    db.nextPriceId := db.nextPriceId + 1;
  }

  /** The whole request: a posted form is checked and, when valid, stored
      (`failure` is the statement's error when the INSERT does not
      execute); `shown` is the row the page then displays. */
  method HandlePriceList(sess: Session, db: Db, form: Option<PriceForm>, failure: Option<string>, now: int)
    returns (resp: Response, shown: Option<PriceRow>)
    requires db.Valid()
    modifies db`priceList, db`nextPriceId
    ensures db.Valid()
    ensures !sess.IsAdmin() ==> resp == Redirect(LoginPage) && db.priceList == old(db.priceList)
    ensures sess.IsAdmin() ==> shown == Latest(db.priceList)
    ensures sess.IsAdmin() && form.None? ==> resp == Page(None, None) && db.priceList == old(db.priceList)
    ensures sess.IsAdmin() && form.Some? && CheckPrices(form.value).Some? ==>
      resp == Page(None, CheckPrices(form.value)) && db.priceList == old(db.priceList)
    ensures sess.IsAdmin() && form.Some? && CheckPrices(form.value).None? && failure.Some? ==>
      resp == Page(None, Some(FailedPrefix + failure.value)) && db.priceList == old(db.priceList)
    ensures sess.IsAdmin() && form.Some? && CheckPrices(form.value).None? && failure.None? ==>
      && resp == Page(Some(PricesUpdated), None)
      && db.priceList == old(db.priceList) + [NewRow(form.value, old(db.nextPriceId), now)]
      && shown == Some(NewRow(form.value, old(db.nextPriceId), now))
  {
    if !sess.IsAdmin() {
      return Redirect(LoginPage), None;
    }
    resp := Page(None, None);
    if form.Some? {
      var err := CheckPrices(form.value);
      if err.Some? {
        resp := Page(None, err);
      } else if failure.Some? {
        resp := Page(None, Some(FailedPrefix + failure.value));
      } else {
        var _ := AppendPrices(db, form.value, now);
        resp := Page(Some(PricesUpdated), None);
      }
    }
    shown := Latest(db.priceList);
  }
}
