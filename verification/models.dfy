/**
 * The values the tracking engine passes around: the simplified Ethereum
 * transaction and block records, and an Option type for fallible answers.
 */
module Models {

  /** Some(value) for an answer, None for a failure. */
  datatype Option<+T> = None | Some(value: T)

  /**
   * A simplified Ethereum transaction. Every field but BlockNumberInt is a
   * string as the node sends it (Value stays opaque: no arithmetic is done
   * on it); BlockNumberInt is filled in by the engine after the block's
   * number has been parsed.
   */
  datatype Transaction = Transaction(
    Hash: string,
    From: string,
    To: string,
    Value: string,
    BlockNumber: string,
    BlockNumberInt: int)

  /** A block: its number as a hex string and its transactions in block order. */
  datatype Block = Block(Number: string, Transactions: seq<Transaction>)

  /** Go's m[k] on a map of slices: the missing key reads as the empty (nil) slice. */
  function Lookup<K, V>(m: map<K, seq<V>>, k: K): seq<V>
  {
    if k in m then m[k] else []
  }
}
