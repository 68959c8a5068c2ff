/** `UserDefaults.standard`: a process-wide map from keys to property-list
    values. Bytes written with `set(_:forKey:)` are modelled by the JSON
    document they hold, or `Malformed` when they do not parse. */
module Storage {
  import opened Support
  import opened Foundation

  datatype Data = JsonData(document: Json) | Malformed

  /** The kinds of value the app stores; `OtherValue` stands for anything
      else another writer may have left under a key. */
  datatype StoredValue =
    | DataValue(data: Data)
    | StringValue(text: string)
    | StringArrayValue(strings: seq<string>)
    | OtherValue

  class UserDefaults {
    var entries: map<string, StoredValue>

    constructor (initial: map<string, StoredValue>)
      ensures entries == initial
    {
      entries := initial;
    }

    /** `set(_:forKey:)` */
    method Set(key: string, value: StoredValue)
      modifies this
      ensures entries == old(entries)[key := value]
    {
      entries := entries[key := value];
    }
  }

  /** `data(forKey:)`: the bytes under `key`, or nil when the key is absent
      or holds another kind of value. */
  function DataFor(entries: map<string, StoredValue>, key: string): Option<Data>
  {
    if key in entries && entries[key].DataValue? then Some(entries[key].data) else None
  }

  /** `string(forKey:)` */
  function StringFor(entries: map<string, StoredValue>, key: string): Option<string>
  {
    if key in entries && entries[key].StringValue? then Some(entries[key].text) else None
  }

  /** `stringArray(forKey:)` */
  function StringArrayFor(entries: map<string, StoredValue>, key: string): Option<seq<string>>
  {
    if key in entries && entries[key].StringArrayValue? then Some(entries[key].strings) else None
  }
}
