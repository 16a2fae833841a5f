/** The browser's `localStorage`: one string map shared by every store. */
module Storage {
  import opened Wrappers

  /** The key under which the signed-in user is saved, JSON-encoded. */
  const UserKey := "user"
  /** The key that records a connected wallet (`"true"` or absent). */
  const WalletConnectedKey := "walletConnected"
  /** The key that records the connected wallet's address. */
  const WalletAddressKey := "walletAddress"

  class LocalStorage {
    var entries: map<string, string>

    constructor (initial: map<string, string>)
      ensures entries == initial
    {
      entries := initial;
    }

    /** `localStorage.getItem(key)`: `None` for `null`. */
    function GetItem(key: string): (r: Option<string>)
      reads this
      ensures r.Some? <==> key in entries
      ensures r.Some? ==> r.value == entries[key]
    {
      if key in entries then Some(entries[key]) else None
    }

    /** `localStorage.setItem(key, value)` */
    method SetItem(key: string, value: string)
      modifies this
      ensures entries == old(entries)[key := value]
    {
      entries := entries[key := value];
    }

    /** `localStorage.removeItem(key)`: no effect when the key is absent. */
    method RemoveItem(key: string)
      modifies this
      ensures entries == old(entries) - {key}
    {
      entries := entries - {key};
    }
  }
}
