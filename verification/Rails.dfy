/** The payment rails and the payment options observed on them (live402/payment.py). */
module Rails {
  import opened Collections

  datatype Rail = Base | Solana | Algorand

  /** A network id: the exact chain id of a rail, its short alias, or anything else. */
  datatype Network = Chain(rail: Rail) | Alias(rail: Rail) | Foreign(name: string)

  /** What makes two assets comparable (asset_identity). */
  datatype AssetKey = KnownUsdc(rail: Rail) | Asset(rail: Rail, name: string)

  /** One observed payment option. `key` and `usdc` (known USDC, which alone has decimals and
      dollars) follow from the asset; `cost` and `settle` are the option's economics, when known. */
  datatype Opt = Opt(
    rail: Rail, network: Network, asset: string, key: AssetKey, usdc: bool, atomic: nat, display: Option<string>,
    payTo: string, facilitator: Option<string>, cost: Option<real>, settle: Option<int>)

  /** How long a payment takes to settle (RAIL_FINALITY), in milliseconds. */
  function FinalityMs(rail: Rail): Option<int> {
    match rail
    case Base => Some(2000)
    case Algorand => Some(2820)
    case Solana => None
  }

  /** Dollars of known USDC, which has six decimals. */
  function Usd(o: Opt): Option<real> {
    if o.usdc then Some(o.atomic as real / 1000000.0) else None
  }

  /** An amount of known USDC on a rail. */
  function Coin(rail: Rail, atomic: nat): Opt {
    Opt(rail, Chain(rail), "USDC", KnownUsdc(rail), true, atomic, None, "payee", None, None, FinalityMs(rail))
  }
}
