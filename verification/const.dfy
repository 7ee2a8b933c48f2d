/** Attribute keys of the sensor, as declared by the integration's constants. */
module Const {
  const AttrPrice: string := "price"
  const AttrPriceYesterday: string := "price_yesterday"
  const AttrVolumeYesterday: string := "volume_yesterday_usd"
  const AttrSymbol: string := "symbol"
  const AttrName: string := "name"
  const AttrBlockchain: string := "blockchain"
  const AttrDataSource: string := "data_source"
  const AttrLastUpdated: string := "last_updated"
  const AttrColor: string := "color"
}
