/** The browser's key-value stores. The dashboard's "persisted" mode and the
    participant page use the same key for the tap log, so one store object
    shared by both models `localStorage`; a second one models `sessionStorage`,
    which holds the session-start marker. */
module Storage {

  /** Key of the participant's tap log in `localStorage`, read back by the dashboard. */
  const LOG_KEY: string := "resonance-my-log"
  /** Key of the session-start marker in `sessionStorage`. */
  const SESSION_START_KEY: string := "resonance-session-start"

  /** A stored log string as `JSON.parse` sees it: the empty string, text that
      fails to parse, JSON that is not an array, or an array of timestamps. */
  datatype LogText = EmptyText | Malformed | NonArray | IntArray(elems: seq<int>)

  /** `getItem`/`setItem` over a string-keyed map; an absent key is `null`. */
  class KeyValueStore<V> {
    var items: map<string, V>

    constructor (initial: map<string, V>)
      ensures items == initial
    {
      items := initial;
    }

    method SetItem(key: string, value: V)
      modifies this
      ensures items == old(items)[key := value]
    {
      items := items[key := value];
    }
  }
}
