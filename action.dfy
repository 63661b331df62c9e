/** The transaction target and its wire form: `Create` travels as an empty RLP
    item, `Call(a)` as the twenty bytes of `a`. */
module ActionCodec {
  import opened Wrappers
  import opened Primitives
  import opened Rlp

  datatype Action =
    /** Creates a new contract. */
    | Create
    /** Calls the contract at the address, or transfers value to it. */
    | Call(to: Address)

  /** `Action::default()`. */
  function Default(): (a: Action)
    ensures a.Create?
  {
    Create
  }

  /** `Decodable::decode`: emptiness alone tells a creation from a call; any other
      item must decode as an address, and a failure to do so is passed on. */
  function Decode(item: Item): (r: Result<Action, DecoderError>)
    ensures r == Ok(Create) <==> IsEmpty(item)
    ensures (exists a :: r == Ok(Call(a))) <==> item.Str? && |item.bytes| == 20
    ensures r.Ok? && r.value.Call? ==> item == Str(r.value.to)
    ensures r.Err? ==> r == Err(AsAddress(item).error)
  {
    if IsEmpty(item) then
      Ok(Create)
    else
      match AsAddress(item)
      case Ok(a) => Ok(Call(a))
      case Err(e) => Err(e)
  }

  /** `Encodable::rlp_append`: the item this action appends to the stream. */
  function Encode(a: Action): (item: Item)
    ensures item.Str?
    ensures IsEmpty(item) <==> a.Create?
  {
    match a
    case Create => Str([])
    case Call(to) => Str(to)
  }

  /** Encoding then decoding gives back every action. */
  lemma DecodeEncode(a: Action)
    ensures Decode(Encode(a)) == Ok(a)
  {
  }

  /** Decoding then encoding gives back every item that decodes, except the empty
      list, which decodes to `Create` like the empty string does. */
  lemma EncodeDecode(item: Item)
    requires Decode(item).Ok?
    ensures item != List([]) ==> Encode(Decode(item).value) == item
  {
  }

  /** The decoder is not injective: both empty items mean `Create`. */
  lemma EmptyItemsDecodeAlike()
    ensures Str([]) != List([])
    ensures Decode(Str([])) == Decode(List([])) == Ok(Create)
  {
  }
}
