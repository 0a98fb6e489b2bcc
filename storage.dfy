/**
 * The browser's `localStorage`, as the pages use it: a map from keys to
 * string values, read with `getItem` and changed with `setItem` and
 * `removeItem`.
 */
module Storage {
  import opened Wrappers

  type Store = map<string, string>

  /** `getItem(key)`: the stored value, or `null` when the key is absent. */
  function GetItem(s: Store, key: string): Option<string>
  {
    if key in s then Some(s[key]) else None
  }

  /** `setItem(key, value)`: `key` now holds `value`; every other key is untouched. */
  function SetItem(s: Store, key: string, value: string): (r: Store)
    ensures r.Keys == s.Keys + {key}
    ensures GetItem(r, key) == Some(value)
    ensures forall k :: k != key ==> GetItem(r, k) == GetItem(s, k)
  {
    s[key := value]
  }

  /** `removeItem(key)`: `key` is absent afterwards; every other key is untouched. */
  function RemoveItem(s: Store, key: string): (r: Store)
    ensures r.Keys == s.Keys - {key}
    ensures GetItem(r, key) == None
    ensures forall k :: k != key ==> GetItem(r, k) == GetItem(s, k)
  {
    s - {key}
  }
}
