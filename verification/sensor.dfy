/** The sensor entity's reading of the coordinator's stored snapshot: its
    state value and its extra attributes, including the derived colour. */
module Sensor {
  import opened Wrappers
  import opened Json
  import opened Const
  import opened Color
  import opened Coordinator

  /** The attribute keys published when there is data. */
  const AttributeKeys: set<string> := SnapshotKeys - {AttrPrice} + {AttrColor}

  /** `if self.coordinator.data:` on a dict that may be `None`; an empty dict
      is falsy too. */
  predicate HasData(data: Option<map<string, Value>>)
  {
    data.Some? && |data.value| > 0
  }

  /** `native_value`: the stored price, or `None` without data. */
  function NativeValue(data: Option<map<string, Value>>): Value
  {
    if HasData(data) then Get(data.value, AttrPrice, Null) else Null
  }

  /** `extra_state_attributes`: nothing without data; otherwise the
      seven non-price fields (a missing `price_yesterday` read as 0, any
      other missing field as `None`) and the colour of the price change,
      or the `TypeError` computing that colour raised. */
  function ExtraStateAttributes(data: Option<map<string, Value>>): (r: Result<map<string, Value>, Error>)
    ensures !HasData(data) ==> r == Success(map[])
    ensures HasData(data) && r.Success? ==> r.value.Keys == AttributeKeys
    ensures HasData(data) ==>
              (r.Failure? <==>
                ColorOfValues(Get(data.value, AttrPrice, Num(0.0)),
                              Get(data.value, AttrPriceYesterday, Num(0.0))).Failure?)
  {
    if !HasData(data) then Success(map[])
    else
      var d := data.value;
      var currentPrice := Get(d, AttrPrice, Num(0.0));
      var yesterdayPrice := Get(d, AttrPriceYesterday, Num(0.0));
      match ColorOfValues(currentPrice, yesterdayPrice)
      case Failure(e) => Failure(e)
      case Success(color) =>
        Success(map[
          AttrPriceYesterday := yesterdayPrice,
          AttrVolumeYesterday := Get(d, AttrVolumeYesterday, Null),
          AttrSymbol := Get(d, AttrSymbol, Null),
          AttrName := Get(d, AttrName, Null),
          AttrBlockchain := Get(d, AttrBlockchain, Null),
          AttrDataSource := Get(d, AttrDataSource, Null),
          AttrLastUpdated := Get(d, AttrLastUpdated, Null),
          AttrColor := Str(color)
        ])
  }

  /** Before the first successful fetch, or with an empty dict, the sensor has
      no value and no attributes. */
  lemma NoDataNoState(data: Option<map<string, Value>>)
    requires data == None || data == Some(map[])
    ensures NativeValue(data) == Null
    ensures ExtraStateAttributes(data) == Success(map[])
  {
  }

  /** On a snapshot the value is the stored price, and the attributes are the
      snapshot with the price replaced by the colour of the change between the
      stored prices (when that colour can be computed). */
  lemma SnapshotState(snapshot: map<string, Value>)
    requires IsSnapshot(snapshot)
    ensures NativeValue(Some(snapshot)) == snapshot[AttrPrice]
    ensures ExtraStateAttributes(Some(snapshot)) ==
              match ColorOfValues(snapshot[AttrPrice], snapshot[AttrPriceYesterday])
              case Failure(e) => Failure(e)
              case Success(color) => Success((snapshot - {AttrPrice})[AttrColor := Str(color)])
  {
    assert AttrPrice in snapshot;
    assert HasData(Some(snapshot));
    match ColorOfValues(snapshot[AttrPrice], snapshot[AttrPriceYesterday])
    case Failure(e) =>
    case Success(color) =>
      var expected := (snapshot - {AttrPrice})[AttrColor := Str(color)];
      var attrs := ExtraStateAttributes(Some(snapshot)).value;
      assert attrs.Keys == expected.Keys;
      assert forall k :: k in attrs ==> attrs[k] == expected[k];
      assert attrs == expected;
  }

  /** For a snapshot parsed from a payload whose prices are numbers or absent,
      the attributes never fail, the value is the payload's price (0 when
      absent), and the colour is `get_price_change_color` of the two prices. */
  lemma ParsedSnapshotState(payload: map<string, Value>)
    requires Get(payload, "Price", Num(0.0)).Num?
    requires Get(payload, "PriceYesterday", Num(0.0)).Num?
    ensures var data := Some(ParsePayload(payload));
            var current := Get(payload, "Price", Num(0.0));
            var yesterday := Get(payload, "PriceYesterday", Num(0.0));
            && NativeValue(data) == current
            && ExtraStateAttributes(data).Success?
            && ExtraStateAttributes(data).value[AttrColor] ==
                 Str(PriceChangeColor(Some(current.n), Some(yesterday.n)))
            && ExtraStateAttributes(data).value[AttrSymbol] == Get(payload, "Symbol", Str("ALPH"))
  {
    var snapshot := ParsePayload(payload);
    SnapshotState(snapshot);
  }
}
