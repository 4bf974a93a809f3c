/**
 * The browser's localStorage: a map from key to stored text. How much more it accepts is
 * modelled as a count of further writes; a write past that count throws
 * QuotaExceededError and changes nothing. The iteration order of its keys is unspecified.
 */
module LocalStore {
  import opened Wrappers
  import opened Js

  const QuotaExceeded := "QuotaExceededError: the quota has been exceeded"

  /** The write budget after one attempted write. */
  function Spend(w: Option<nat>): Option<nat> {
    if w.Some? && w.value > 0 then Some(w.value - 1) else w
  }

  /** Whether a write is accepted with budget w. */
  predicate Accepts(w: Option<nat>) {
    w != Some(0)
  }

  class LocalStorage {
    var items: map<string, Text>
    /** None: every write is accepted; Some(n): the next n writes are accepted, no more. */
    var writesLeft: Option<nat>

    constructor (initial: map<string, Text>, budget: Option<nat>)
      ensures items == initial && writesLeft == budget
    {
      items := initial;
      writesLeft := budget;
    }

    /** localStorage.getItem(key): null (None) for a missing key. */
    function GetItem(key: string): (r: Option<Text>)
      reads this
      ensures r.Some? <==> key in items
      ensures r.Some? ==> r.value == items[key]
    {
      if key in items then Some(items[key]) else None
    }

    /** localStorage.setItem(key, value). */
    method SetItem(key: string, value: Text) returns (r: Result<()>)
      modifies this
      ensures r.Ok? <==> Accepts(old(writesLeft))
      ensures r.Err? ==> r.message == QuotaExceeded
      ensures items == if r.Ok? then old(items)[key := value] else old(items)
      ensures writesLeft == Spend(old(writesLeft))
    {
      if writesLeft == Some(0) {
        return Err(QuotaExceeded);
      }
      items := items[key := value];
      writesLeft := Spend(writesLeft);
      r := Ok(());
    }

    /** localStorage.removeItem(key): removing never needs quota. */
    method RemoveItem(key: string)
      modifies this
      ensures items == old(items) - {key}
      ensures writesLeft == old(writesLeft)
    {
      items := items - {key};
    }

    /** localStorage.clear(). */
    method Clear()
      modifies this
      ensures items == map[]
      ensures writesLeft == old(writesLeft)
    {
      items := map[];
    }
  }
}
