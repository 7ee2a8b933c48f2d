/** The coordinator's parsing step: the decoded JSON body of a quotation is
    turned into the fixed eight-key snapshot the sensor reads. */
module Coordinator {
  import opened Json
  import opened Const

  /** The eight fields of a price snapshot. */
  datatype Field =
    | Price | PriceYesterday | VolumeYesterday | Symbol
    | Name | Blockchain | DataSource | LastUpdated

  /** The key a field is stored under in the snapshot. */
  function AttrKey(f: Field): string
  {
    match f
    case Price => AttrPrice
    case PriceYesterday => AttrPriceYesterday
    case VolumeYesterday => AttrVolumeYesterday
    case Symbol => AttrSymbol
    case Name => AttrName
    case Blockchain => AttrBlockchain
    case DataSource => AttrDataSource
    case LastUpdated => AttrLastUpdated
  }

  /** The key a field is read from in the quotation payload. */
  function PayloadKey(f: Field): string
  {
    match f
    case Price => "Price"
    case PriceYesterday => "PriceYesterday"
    case VolumeYesterday => "VolumeYesterdayUSD"
    case Symbol => "Symbol"
    case Name => "Name"
    case Blockchain => "Blockchain"
    case DataSource => "Source"
    case LastUpdated => "Time"
  }

  /** The value a field takes when the payload lacks its key. */
  function DefaultValue(f: Field): Value
  {
    match f
    case Price => Num(0.0)
    case PriceYesterday => Num(0.0)
    case VolumeYesterday => Num(0.0)
    case Symbol => Str("ALPH")
    case Name => Str("Alephium")
    case Blockchain => Str("Alephium")
    case DataSource => Str("diadata.org")
    case LastUpdated => Str("")
  }

  const SnapshotKeys: set<string> :=
    {AttrPrice, AttrPriceYesterday, AttrVolumeYesterday, AttrSymbol,
     AttrName, AttrBlockchain, AttrDataSource, AttrLastUpdated}

  /** A dict with exactly the snapshot's eight keys. */
  predicate IsSnapshot(m: map<string, Value>)
  {
    m.Keys == SnapshotKeys
  }

  /** The dict built from the decoded response, each key taken from the
      payload when present and defaulted otherwise. */
  function ParsePayload(payload: map<string, Value>): (snapshot: map<string, Value>)
    ensures IsSnapshot(snapshot)
    ensures |snapshot| == 8
  {
    map[
      AttrPrice := Get(payload, "Price", Num(0.0)),
      AttrPriceYesterday := Get(payload, "PriceYesterday", Num(0.0)),
      AttrVolumeYesterday := Get(payload, "VolumeYesterdayUSD", Num(0.0)),
      AttrSymbol := Get(payload, "Symbol", Str("ALPH")),
      AttrName := Get(payload, "Name", Str("Alephium")),
      AttrBlockchain := Get(payload, "Blockchain", Str("Alephium")),
      AttrDataSource := Get(payload, "Source", Str("diadata.org")),
      AttrLastUpdated := Get(payload, "Time", Str(""))
    ]
  }

  /** Every field of the snapshot is the payload's value under the field's
      payload key when there is one (even `null`), and the field's default
      otherwise. */
  lemma ParsePayloadFields(payload: map<string, Value>)
    ensures forall f: Field :: AttrKey(f) in ParsePayload(payload)
    ensures forall f: Field :: ParsePayload(payload)[AttrKey(f)] ==
              if PayloadKey(f) in payload then payload[PayloadKey(f)] else DefaultValue(f)
  {
    var snapshot := ParsePayload(payload);
    forall f: Field
      ensures AttrKey(f) in snapshot
      ensures snapshot[AttrKey(f)] ==
                if PayloadKey(f) in payload then payload[PayloadKey(f)] else DefaultValue(f)
    {
      match f
      case Price =>
      case PriceYesterday =>
      case VolumeYesterday =>
      case Symbol =>
      case Name =>
      case Blockchain =>
      case DataSource =>
      case LastUpdated =>
    }
  }

  /** Payloads that agree on the eight payload keys give the same snapshot:
      every other key is ignored. */
  lemma ParseIgnoresOtherKeys(p1: map<string, Value>, p2: map<string, Value>)
    requires forall f: Field :: (PayloadKey(f) in p1 <==> PayloadKey(f) in p2)
    requires forall f: Field :: PayloadKey(f) in p1 ==> p1[PayloadKey(f)] == p2[PayloadKey(f)]
    ensures ParsePayload(p1) == ParsePayload(p2)
  {
    assert Get(p1, "Price", Num(0.0)) == Get(p2, "Price", Num(0.0)) by {
      assert PayloadKey(Price) == "Price";
    }
    assert Get(p1, "PriceYesterday", Num(0.0)) == Get(p2, "PriceYesterday", Num(0.0)) by {
      assert PayloadKey(PriceYesterday) == "PriceYesterday";
    }
    assert Get(p1, "VolumeYesterdayUSD", Num(0.0)) == Get(p2, "VolumeYesterdayUSD", Num(0.0)) by {
      assert PayloadKey(VolumeYesterday) == "VolumeYesterdayUSD";
    }
    assert Get(p1, "Symbol", Str("ALPH")) == Get(p2, "Symbol", Str("ALPH")) by {
      assert PayloadKey(Symbol) == "Symbol";
    }
    assert Get(p1, "Name", Str("Alephium")) == Get(p2, "Name", Str("Alephium")) by {
      assert PayloadKey(Name) == "Name";
    }
    assert Get(p1, "Blockchain", Str("Alephium")) == Get(p2, "Blockchain", Str("Alephium")) by {
      assert PayloadKey(Blockchain) == "Blockchain";
    }
    assert Get(p1, "Source", Str("diadata.org")) == Get(p2, "Source", Str("diadata.org")) by {
      assert PayloadKey(DataSource) == "Source";
    }
    assert Get(p1, "Time", Str("")) == Get(p2, "Time", Str("")) by {
      assert PayloadKey(LastUpdated) == "Time";
    }
  }

  /** The quotation payload that carries a snapshot's fields under the
      provider's key names. */
  function Unparse(snapshot: map<string, Value>): map<string, Value>
    requires IsSnapshot(snapshot)
  {
    map[
      "Price" := snapshot[AttrPrice],
      "PriceYesterday" := snapshot[AttrPriceYesterday],
      "VolumeYesterdayUSD" := snapshot[AttrVolumeYesterday],
      "Symbol" := snapshot[AttrSymbol],
      "Name" := snapshot[AttrName],
      "Blockchain" := snapshot[AttrBlockchain],
      "Source" := snapshot[AttrDataSource],
      "Time" := snapshot[AttrLastUpdated]
    ]
  }

  /** Parsing the payload that carries a snapshot gives the snapshot back:
      no field is lost or altered on the way through the provider's names. */
  lemma ParseUnparse(snapshot: map<string, Value>)
    requires IsSnapshot(snapshot)
    ensures ParsePayload(Unparse(snapshot)) == snapshot
  {
    var s' := ParsePayload(Unparse(snapshot));
    assert s'.Keys == snapshot.Keys;
    assert forall k :: k in snapshot ==> s'[k] == snapshot[k];
  }
}
