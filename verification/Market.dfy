/** Values shared by the exchange's components. */
module Market {

  datatype Option<+T> = None | Some(value: T)

  /** An order's side. The source compares the string with "buy" and treats every
      other value as a sell. */
  datatype Side = Buy | Sell

  type PositiveReal = x: real | x > 0.0 witness 1.0

  /** One trade. `aggressor` is "buyer" exactly when `side` is "buy", so it is not repeated here. */
  datatype TradeTick = TradeTick(
    instrument: string,
    price: real,
    quantity: int,
    side: Side,
    timestamp: int,
    isAmbient: bool)
}
