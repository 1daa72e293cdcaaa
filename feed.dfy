/**
 The typed shape of one book message of the feed, as the JSON layer hands
 it over (the `Trade` and `Data` records of src/orderbook.rs).

 Prices arrive already scaled to integer keys: the source turns a float
 price `p` into the key `(p * 10.0) as u32`, and that conversion is not
 part of this model. Sizes are an opaque type `S`: the book stores them
 and never computes with them.
 */
module Feed {
  import opened Wrappers

  /** The action word of one price level in a message. Decoding maps the
      words "new", "change" and "delete" to their own constructors, so
      `Unknown` only ever holds some other word. */
  datatype Action = New | Change | Delete | Unknown(name: string)

  /** One price level of a message: action, scaled price key, size. */
  datatype Trade<S> = Trade(action: Action, price: nat, size: S)

  /** The message type word. Decoding maps "snapshot" and "change" to
      their own constructors, so `Other` only ever holds some other word. */
  datatype Kind = Snapshot | Change | Other(name: string)

  /** One book message. `prevChangeId` is optional here, as the message
      loop of src/main.rs treats it; src/orderbook.rs declares the field
      as a plain `u64`. */
  datatype Data<S> = Data(
    kind: Kind,
    prevChangeId: Option<nat>,
    changeId: nat,
    bids: seq<Trade<S>>,
    asks: seq<Trade<S>>)

}
