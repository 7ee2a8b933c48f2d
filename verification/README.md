# Alephium Price sensor — Dafny model

A model of the deterministic core of the Alephium Price integration for Home
Assistant. The integration polls a price-quotation API, stores the decoded
response as an eight-key snapshot, and exposes one sensor whose state is the
current USD price and whose attributes include a colour for the price change
since yesterday. Three pieces are modelled as pure functions:

- `Color.PriceChangeColor` is `get_price_change_color`. A missing or zero
  price gives the default `#0000FF`. Otherwise the percentage change is clamped
  to [-2, 2]. A fall fades blue into red and a rise or no change fades blue into
  green. Each channel is truncated with `int(...)` and printed as two lower-case
  hex digits.
- `Coordinator.ParsePayload` is the dict built in
  `AlephiumPriceCoordinator._async_update_data`. It maps the provider's keys
  (`Price`, …, `Time`) onto the sensor's attribute keys and fills in defaults.
- `Sensor.NativeValue` and `Sensor.ExtraStateAttributes` are the entity's
  `native_value` and `extra_state_attributes`, as functions of the
  coordinator's `data`. That data is `None` before the first fetch, and a dict
  afterwards.

Prices are `real`, which abstracts Python floats. JSON scalars are `Json.Value`:
a number, a string or `null`. Python's truthiness and `dict.get` are written out
in `Json`. `Color.PriceChangeColor` takes `Option<real>` prices, and both `None`
and `Some(0.0)` count as falsy. `Color.ColorOfValues` lifts it to JSON values
as Python evaluates it. A falsy value yields the default before any arithmetic
runs, and a non-empty string that reaches the subtraction raises `TypeError`.
That error becomes `Failure(TypeError)`. Python's `int()` is `Color.Truncate`,
which rounds toward zero. Python's `format(n, '02x')` is `Hex.Format02x`.

Modules: `Wrappers` (Option, Result), `Json`, `Const` (the attribute keys of
`const.py`), `Hex`, `HexColor` (`#rrggbb` strings and their channels), `Color`,
`Coordinator` and `Sensor`.

Behaviour of the code a reader might not expect. The model follows the code
in each point:

- Each channel is truncated with `int()`. A 1% rise has intensity one half,
  and `int(127.5)` is 127 in both lit channels, which gives `#007f7f`
  (`Color.OnePercentRise`).
- The default is upper-case `#0000FF`, and a zero change gives lower-case
  `#0000ff`. These are different strings for the same colour
  (`Color.DefaultDenotesBlue`).
- A JSON `null` under a payload key is stored as `null`. The default applies
  only when the key is absent (`Coordinator.ParsePayloadFields`).
- A non-empty string price raises `TypeError` once both prices are truthy
  (`Color.ColorOfValues`).
- A current price of zero counts as missing. It shows the default blue, while
  a price at 1% of yesterday's shows full red, although the docstring at
  sensor.py:74-78 describes red for a fall (`Color.ZeroPriceIsNotADrop`).

## Model

| member | source | states |
|---|---|---|
| `Hex.ToHex` | sensor.py:95 | the hex spelling has lower-case digits only, has no leading zero, is one digit exactly below 16 and at most two digits below 256 |
| `Hex.Format02x` | sensor.py:95 | `{:02x}` gives lower-case hex digits, at least two of them, and exactly two exactly when the value is below 256 |
| `Hex.ParseToHex` | sensor.py:95 | reading the hex spelling of any natural number gives the number back |
| `Hex.Format02xRoundTrip` | sensor.py:103 | reading `{:02x}` of any natural number gives the number back; the zero padding adds no value |
| `Hex.Format02xOfParse` | sensor.py:103 | every two-digit lower-case hex string spells a byte whose `{:02x}` is that string, so `{:02x}` is a bijection from bytes onto such strings |
| `Hex.Format02xOfByte` | sensor.py:95 | `{:02x}` of a byte is its high hex digit followed by its low hex digit |
| `HexColor.FormatRgb` | sensor.py:95 | a colour with channels in 0..255 is written as `#` and six lower-case digits, two per channel in the order red, green, blue |
| `HexColor.ParseRgb` | sensor.py:95 | the reference decoding of the strings written at sensor.py:95 and :103, used by the round-trip lemmas (the integration itself never reads colours): a string denotes a colour exactly when it is `#` and six hex digits of either case, and the channels read are in 0..255 |
| `HexColor.ParseFormatRgb` | sensor.py:95 | reading a formatted colour gives back its three channels |
| `HexColor.FormatParseRgb` | sensor.py:103 | every lower-case `#rrggbb` string is the formatting of the colour it denotes |
| `HexColor.FormatWithoutGreen` | sensor.py:95 | the falling template `#{red:02x}00{blue:02x}` is the `#rrggbb` spelling of red, zero green and blue |
| `HexColor.FormatWithoutRed` | sensor.py:103 | the rising template `#00{green:02x}{blue:02x}` is the `#rrggbb` spelling of zero red, green and blue |
| `Color.Truncate` | sensor.py:93-94 | `int(x)` drops the fraction toward zero: the result is within one of `x`, is never farther from zero than `x`, and is never of the opposite sign |
| `Color.Clamp` | sensor.py:86 | the clamped change lies in [-2, 2], equals the change inside that interval, and is the nearer bound outside it |
| `Color.TruncatedSplit` | sensor.py:91-94 | truncating `255*i` and `255*(1-i)` gives two channels in 0..255 whose sum is 254 or 255, and 255 exactly when `255*i` is whole |
| `Color.Gradient` | sensor.py:86-102 | a fall has zero green, a rise or no change has zero red, every channel lies in 0..255, and the two lit channels sum to 254 or 255 |
| `Color.ColorForChange` | sensor.py:88-103 | both f-string templates give the `#rrggbb` spelling of the gradient's channels |
| `Color.PriceChangeColor` | sensor.py:73-103 | the result is the default `#0000FF` if and only if either price is absent or zero; otherwise it is the `#rrggbb` spelling of the gradient at the percentage change |
| `Color.DefaultIsUpperCase` | sensor.py:80 | the default colour is not a lower-case `#rrggbb` string, so no gradient result equals it |
| `Color.ColorOfValues` | sensor.py:79-83 | on JSON values, a falsy price gives the default; the call raises `TypeError` exactly when both prices are truthy and one is a string; two numbers give `get_price_change_color` of the numbers |
| `Color.ZeroChangeIsBlue` | sensor.py:88-103 | equal nonzero prices are a 0% change, which takes the rising branch and gives lower-case `#0000ff` |
| `Color.DefaultDenotesBlue` | sensor.py:80 | the default `#0000FF` and the no-change `#0000ff` are different strings that denote the same colour (0, 0, 255) |
| `Color.SaturatedRise` | sensor.py:96-103 | every change of +2% or more gives channels (0, 255, 0) and the string `#00ff00` |
| `Color.SaturatedDrop` | sensor.py:88-95 | every change of -2% or less gives channels (255, 0, 0) and the string `#ff0000` |
| `Color.PriceSaturation` | sensor.py:83-103 | for nonzero prices, a change of at least +2% gives `#00ff00` and a change of at most -2% gives `#ff0000`, so a 2% move and a 20% move look the same |
| `Color.ColorShape` | sensor.py:88-103 | outside the default case, the colour is `#` and six lower-case hex digits; the green pair is `00` on a fall and the red pair is `00` otherwise; the channels read back are the gradient's; the two lit channels sum to 254 or 255 |
| `Color.TruncateMonotone` | sensor.py:93-94 | `int()` preserves order on non-negative reals |
| `Color.DropDeepensRed` | sensor.py:88-95 | on the falling gradient, a deeper fall never decreases red and never increases blue |
| `Color.RiseDeepensGreen` | sensor.py:96-103 | on the rising gradient, a larger rise never decreases green and never increases blue |
| `Color.PercentChangeMonotone` | sensor.py:83 | for a fixed positive price yesterday, the percentage change grows with today's price |
| `Color.GradientMonotoneInPrice` | sensor.py:74-78 | for a fixed positive price yesterday, the gradient at a lower price below yesterday's never has less red, and the gradient at a higher price above yesterday's never has less green |
| `Color.ShownColorMonotoneInPrice` | sensor.py:74-103 | for a fixed positive price yesterday and nonzero prices today, the colour `get_price_change_color` shows, read back as channels, never has less red at a lower price below yesterday's and never less green at a higher price above it; a price of zero is excluded because it shows the default blue |
| `Color.ZeroPriceIsNotADrop` | sensor.py:79-80 | a current price of 0 against a positive price yesterday gives the default `#0000FF`, while 1% of yesterday's price gives full red |
| `Color.OnePercentRise` | sensor.py:99-103 | a rise from 100 to 101 gives `#007f7f`, because the code truncates 127.5 in both channels |
| `Color.SaturationExamples` | sensor.py:83-103 | 100→102 and 100→110 both give `#00ff00`, and 100→98 gives `#ff0000` |
| `Coordinator.ParsePayload` | sensor.py:59-68 | the snapshot always has exactly the eight keys `price`, `price_yesterday`, `volume_yesterday_usd`, `symbol`, `name`, `blockchain`, `data_source`, `last_updated` |
| `Coordinator.ParsePayloadFields` | sensor.py:59-68 | each snapshot field is the payload's value under its provider key (`Price`, `PriceYesterday`, `VolumeYesterdayUSD`, `Symbol`, `Name`, `Blockchain`, `Source`, `Time`) when the key is present, even if that value is `null`; otherwise it is the default `0, 0, 0, "ALPH", "Alephium", "Alephium", "diadata.org", ""` |
| `Coordinator.ParseIgnoresOtherKeys` | sensor.py:59-68 | two payloads that agree on the eight provider keys give the same snapshot, so all other keys are ignored |
| `Coordinator.ParseUnparse` | sensor.py:59-68 | parsing a payload that carries a snapshot's fields under the provider's keys gives that snapshot back, so no field is lost or swapped |
| `Sensor.ExtraStateAttributes` | sensor.py:125-143 | with no data (None or an empty dict) the attributes are empty; with data they have exactly the seven non-price keys plus `color`, and they fail exactly when computing the colour raises |
| `Sensor.NoDataNoState` | sensor.py:118-129 | without data, or with an empty dict, `native_value` is `None` and the attributes are the empty map |
| `Sensor.SnapshotState` | sensor.py:118-143 | on a snapshot, `native_value` is the stored price, and the attributes are the snapshot minus `price` plus `color`, where `color` is the colour of the two stored prices; a `TypeError` from the colour is passed on |
| `Sensor.ParsedSnapshotState` | sensor.py:118-143 | for a payload whose prices are numbers or absent, the value is the payload price (0 if absent), the attributes do not fail, `color` is `get_price_change_color` of the two prices, and `symbol` is the payload's or `"ALPH"` |

## Left out

- The HTTP GET, the 10-second timeout, the `aiohttp` session and the wrapping of
  errors into `UpdateFailed` (sensor.py:51-58, 69-70). These are network I/O and
  exception plumbing. The payload is given as an already decoded JSON object.
  Non-object bodies, HTTP status codes and JSON decoding failures are not
  modelled.
- Scheduling, `last_update_success`, keeping the last snapshot after a failure,
  and the coalescing of refreshes all belong to Home Assistant's
  `DataUpdateCoordinator`, which is not part of this model. `available`
  (sensor.py:145-148) only forwards to it.
- Listener registration and refresh requests (sensor.py:150-158), entity setup
  (sensor.py:31-37, 109-116), and the setup and unload hooks of `__init__.py`
  and `platform.py`. These are host lifecycle glue with no logic of their own.
- IEEE-754 floating point. Prices and percentages are exact reals, so a float
  result that lands just below a whole number of `255*intensity` is not modelled.
- JSON booleans, arrays and objects as field values. `Json.Value` has only
  numbers, strings and `null`.
- `Sensor.NativeValue` has no contract of its own. Its behaviour is stated by
  `Sensor.NoDataNoState`, `Sensor.SnapshotState` and
  `Sensor.ParsedSnapshotState`.
