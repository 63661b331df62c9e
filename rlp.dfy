/** The slice of the RLP library (Appendix B of the Ethereum Yellow Paper) that the
    action codec relies on, on items rather than on bytes. */
module Rlp {
  import opened Wrappers
  import opened Primitives

  /** A decoded RLP item: a byte string or a list of items. */
  datatype Item = Str(bytes: seq<byte>) | List(items: seq<Item>)

  /** The decoder errors the 20-byte value decoder can produce; the remaining
      variants of `rlp::DecoderError` are collapsed into one. */
  datatype DecoderError =
    | RlpIsTooBig
    | RlpIsTooShort
    | RlpExpectedToBeData
    | OtherDecoderError(detail: string)

  /** `Rlp::is_empty`: true for the empty string (0x80) and the empty list (0xc0).
      Neither is a twenty-byte value, so emptiness never hides an address. */
  predicate IsEmpty(item: Item): (r: bool)
    ensures r ==> AsAddress(item).Err?
  {
    item == Str([]) || item == List([])
  }

  /** `Rlp::as_val::<Address>()`: a data item of exactly twenty bytes. */
  function AsAddress(item: Item): (r: Result<Address, DecoderError>)
    ensures r.Ok? <==> item.Str? && |item.bytes| == 20
    ensures r.Ok? ==> r.value == item.bytes
  {
    match item
    case List(_) => Err(RlpExpectedToBeData)
    case Str(b) =>
      if |b| < 20 then Err(RlpIsTooShort)
      else if |b| > 20 then Err(RlpIsTooBig)
      else Ok(b)
  }
}
