/** The transactional key/value store: a map from byte keys to values with a type byte and an expiry. */
module Store {
  import opened ByteStrings

  datatype Item = Item(value: Bytes, meta: Byte, expiry: Option<int>)

  type Data = map<Bytes, Item>

  /** The errors of a command; a panic of the program counts as one. */
  datatype DbError = KeyNotFound | WrongType | KeyExists | Corrupt | Message(text: string) | Panic

  /** One transaction: reads see its own writes. */
  class Tx {
    var data: Data

    constructor (data: Data)
      ensures this.data == data
    {
      this.data := data;
    }

    function Get(key: Bytes): Option<Item>
      reads this
    {
      if key in data then Some(data[key]) else None
    }

    method Set(key: Bytes, item: Item)
      modifies this
      ensures data == old(data)[key := item]
    {
      data := data[key := item];
    }

    method Delete(key: Bytes)
      modifies this
      ensures data == old(data) - {key}
    {
      data := data - {key};
    }
  }

  function Lookup(data: Data, e: Bytes): Option<Item> { if e in data then Some(data[e]) else None }

  /** The expiry a key keeps when its entry is rewritten. */
  function ExpiryOf(data: Data, key: Bytes): Option<int> {
    if key in data then data[key].expiry else None
  }
}
