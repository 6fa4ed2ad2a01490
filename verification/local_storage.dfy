/**
 * The browser's `localStorage`. Plain string items (the access, refresh and CSRF tokens) and the
 * JSON-encoded rate-limit records are kept in two maps; the records are stored as values, without
 * their JSON text.
 */
module LocalStorage {

  /** A fixed-window counter: calls counted so far and the instant the window closes. */
  datatype RateRecord = RateRecord(count: int, resetAt: int)

  class Storage {
    var text: map<string, string>
    var rateRecords: map<string, RateRecord>

    constructor()
      ensures text == map[] && rateRecords == map[]
    {
      text := map[];
      rateRecords := map[];
    }

    /** `localStorage.setItem(key, value)` for a string item. */
    method SetItem(key: string, value: string)
      modifies this
      ensures text == old(text)[key := value] && rateRecords == old(rateRecords)
    {
      text := text[key := value];
    }

    /** `localStorage.removeItem(key)` for a string item. */
    method RemoveItem(key: string)
      modifies this
      ensures text == old(text) - {key} && rateRecords == old(rateRecords)
    {
      text := text - {key};
    }

    /** `localStorage.setItem(key, JSON.stringify(record))`. */
    method SetRecord(key: string, record: RateRecord)
      modifies this
      ensures rateRecords == old(rateRecords)[key := record] && text == old(text)
    {
      rateRecords := rateRecords[key := record];
    }
  }
}
