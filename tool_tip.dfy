/**
 * The chart tooltip: it finds the metal and USD entries of the hovered
 * payload and derives the metal's own USD price per ounce.
 */
module ToolTip {
  import opened Wrappers

  /** An entry of the tooltip payload: the series' `dataKey` and its value. */
  datatype PayloadItem = PayloadItem(dataKey: string, value: real)

  /** What the tooltip shows: both prices and the metal price (shown as "1 Oz" when positive). */
  datatype Content = Content(priceMetal: real, priceUSD: real, metalPriceUSD: real)

  const MetalDataKey := "priceMetal"
  const USDDataKey := "PriceUSD"

  /** `payload.find(p => p.dataKey === key)`. */
  function Find(payload: seq<PayloadItem>, key: string): (r: Option<PayloadItem>)
    ensures r.None? <==> forall i :: 0 <= i < |payload| ==> payload[i].dataKey != key
    ensures r.Some? ==> r.value in payload && r.value.dataKey == key
  {
    if payload == [] then None
    else if payload[0].dataKey == key then Some(payload[0])
    else
      assert forall i :: 1 <= i < |payload| ==> payload[i] == payload[1..][i - 1];
      Find(payload[1..], key)
  }

  /** The entry found is the first one with the key, whatever the order of the payload. */
  lemma {:induction false} FindIsFirst(payload: seq<PayloadItem>, key: string, i: nat)
    requires i < |payload| && payload[i].dataKey == key
    requires forall j :: 0 <= j < i ==> payload[j].dataKey != key
    ensures Find(payload, key) == Some(payload[i])
  {
    if i > 0 {
      assert payload[0].dataKey != key;
      FindIsFirst(payload[1..], key, i - 1);
    }
  }

  /** `item ? item.value : 0`. */
  function ValueOr0(item: Option<PayloadItem>): real {
    if item.Some? then item.value.value else 0.0
  }

  /** The component: nothing when inactive or when the payload is empty. */
  function Render(active: bool, payload: seq<PayloadItem>): (c: Option<Content>)
    ensures c.None? <==> !active || |payload| == 0
    ensures c.Some? ==> c.value.priceMetal == ValueOr0(Find(payload, MetalDataKey))
    ensures c.Some? ==> c.value.priceUSD == ValueOr0(Find(payload, USDDataKey))
  {
    if !active || |payload| == 0 then None
    else
      var priceMetal := ValueOr0(Find(payload, MetalDataKey));
      var priceUSD := ValueOr0(Find(payload, USDDataKey));
      var metalPriceUSD := if priceMetal > 0.0 then priceUSD / priceMetal else 0.0;
      Some(Content(priceMetal, priceUSD, metalPriceUSD))
  }

  /**
   * The metal price undoes the ounce price: with a positive ounce price, the
   * asset priced in ounces times the metal's USD price is the asset's USD
   * price; otherwise the metal price is 0.
   */
  lemma MetalPriceUndoesOunces(active: bool, payload: seq<PayloadItem>)
    requires active && |payload| > 0
    ensures var c := Render(active, payload).value;
      && (c.priceMetal > 0.0 ==> c.metalPriceUSD * c.priceMetal == c.priceUSD)
      && (c.priceMetal <= 0.0 ==> c.metalPriceUSD == 0.0)
  {
  }

  /** The "1 Oz" row is shown exactly when both prices are positive. */
  lemma OunceRowShown(active: bool, payload: seq<PayloadItem>)
    requires active && |payload| > 0
    ensures var c := Render(active, payload).value;
      c.metalPriceUSD > 0.0 <==> c.priceMetal > 0.0 && c.priceUSD > 0.0
  {
    var c := Render(active, payload).value;
    if c.priceMetal > 0.0 {
      var q := c.priceUSD / c.priceMetal;
      assert q * c.priceMetal == c.priceUSD;
      if q > 0.0 {
        assert q * c.priceMetal > 0.0;
      } else {
        assert (-q) * c.priceMetal >= 0.0;
      }
    }
  }

  /** A payload without a metal or USD entry shows 0 for it. */
  lemma MissingEntryReadsZero(payload: seq<PayloadItem>, key: string)
    requires forall i :: 0 <= i < |payload| ==> payload[i].dataKey != key
    ensures ValueOr0(Find(payload, key)) == 0.0
  {
  }
}
