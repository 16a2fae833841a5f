/** The wallet session (`WalletContext`): a simulated connection with three
    fields and two `localStorage` entries. `Math.random` is the parameter
    `draw`, the value of the `i`-th call scaled to a hex digit. */
module Wallet {
  import opened Wrappers
  import opened Types
  import opened Storage

  /** `Math.floor(Math.random() * 16)` */
  type Nibble = n: nat | n < 16

  const HexDigits := "0123456789abcdef"

  /** `n.toString(16)` for a single hex digit. */
  function HexDigit(n: Nibble): char {
    HexDigits[n]
  }

  /** A lower-case hexadecimal digit. */
  predicate IsHexDigit(c: char) {
    '0' <= c <= '9' || 'a' <= c <= 'f'
  }

  /** The digit's value: the inverse of `HexDigit`. */
  function HexValue(c: char): (n: Nibble)
    requires IsHexDigit(c)
    ensures HexDigit(n) == c
  {
    if c <= '9' then c as int - '0' as int else c as int - 'a' as int + 10
  }

  /** The address `connect` builds: `"0x"` and forty random hex digits. */
  function MockAddress(draw: nat -> Nibble): string {
    "0x" + seq(40, i requires 0 <= i < 40 => HexDigit(draw(i)))
  }

  /** A well-formed address: `"0x"` followed by 40 lower-case hex digits. */
  predicate IsAddress(a: string) {
    |a| == 42 && a[..2] == "0x" && forall i :: 2 <= i < 42 ==> IsHexDigit(a[i])
  }

  /** `connect` always builds a 42-character address, and the address spells
      out exactly the forty draws, in order. */
  lemma MockAddressFacts(draw: nat -> Nibble)
    ensures IsAddress(MockAddress(draw))
    ensures forall i :: 0 <= i < 40 ==> HexValue(MockAddress(draw)[i + 2]) == draw(i)
  {
    var a := MockAddress(draw);
    forall i | 0 <= i < 40 ensures IsHexDigit(a[i + 2]) && HexValue(a[i + 2]) == draw(i) {
      var n := draw(i);
      assert a[i + 2] == HexDigits[n];
      assert HexValue(HexDigits[n]) == n;
    }
  }

  /** The three state fields of the context. */
  datatype Session = Session(isConnected: bool, address: Option<string>, balance: Option<string>)

  /** The initial state: not connected, no address, no balance. */
  const Disconnected := Session(false, None, None)

  /** The placeholder balance `connect` sets. */
  const ConnectedBalance := "1.5 ETH"
  /** The placeholder balance a restored session gets. */
  const RestoredBalance := "0.0 ETH"

  /** The restore effect: reconnects when the flag is `"true"` and the saved
      address is present and non-empty, and otherwise keeps `current`. */
  function Restored(current: Session, entries: map<string, string>): Session {
    if WalletConnectedKey in entries && entries[WalletConnectedKey] == "true"
       && WalletAddressKey in entries && entries[WalletAddressKey] != ""
    then Session(true, Some(entries[WalletAddressKey]), Some(RestoredBalance))
    else current
  }

  /** What `connect` writes to storage. */
  function ConnectWrites(entries: map<string, string>, address: string): map<string, string> {
    entries[WalletConnectedKey := "true"][WalletAddressKey := address]
  }

  /** What `disconnect` removes from storage. */
  function DisconnectWrites(entries: map<string, string>): map<string, string> {
    entries - {WalletConnectedKey, WalletAddressKey}
  }

  /** Restoring from what `connect` wrote gives a connected session with
      the same address. */
  lemma RestoreAfterConnect(entries: map<string, string>, draw: nat -> Nibble)
    ensures Restored(Disconnected, ConnectWrites(entries, MockAddress(draw)))
            == Session(true, Some(MockAddress(draw)), Some(RestoredBalance))
  {
    MockAddressFacts(draw);
  }

  /** Restoring after `disconnect`, or from a flag without an address, gives
      a disconnected session. */
  lemma RestoreNeedsBothEntries(entries: map<string, string>)
    ensures Restored(Disconnected, DisconnectWrites(entries)) == Disconnected
    ensures WalletAddressKey !in entries ==> Restored(Disconnected, entries) == Disconnected
    ensures WalletConnectedKey !in entries ==> Restored(Disconnected, entries) == Disconnected
  {
  }

  /** Two `connect`s leave the second address in storage. */
  lemma ConnectTwice(entries: map<string, string>, first: string, second: string)
    ensures ConnectWrites(ConnectWrites(entries, first), second) == ConnectWrites(entries, second)
  {
  }

  class WalletStore {
    var isConnected: bool
    var address: Option<string>
    var balance: Option<string>
    const storage: LocalStorage

    /** The provider's initial state, before its restore effect runs. */
    constructor (storage: LocalStorage)
      ensures this.storage == storage
      ensures isConnected == false && address == None && balance == None
    {
      this.storage := storage;
      isConnected := false;
      address := None;
      balance := None;
    }

    /** The three fields as one value. */
    function State(): Session
      reads this
    {
      Session(isConnected, address, balance)
    }

    /** The restore effect. */
    method Restore()
      modifies this
      ensures State() == Restored(old(State()), storage.entries)
    {
      var savedWalletState := storage.GetItem(WalletConnectedKey);
      var savedAddress := storage.GetItem(WalletAddressKey);
      if savedWalletState == Some("true") && savedAddress.Some? && savedAddress.value != "" {
        isConnected := true;
        address := savedAddress;
        balance := Some(RestoredBalance);
      }
    }

    /** `connect()`: a new address, the placeholder balance, connected, and
        both entries written. */
    method Connect(draw: nat -> Nibble, rejected: bool) returns (r: Result<string, StoreError>)
      modifies this, storage
      ensures rejected ==> r == Err(Rejected) && State() == old(State()) && storage.entries == old(storage.entries)
      ensures !rejected ==>
                r == Ok(MockAddress(draw)) &&
                State() == Session(true, Some(MockAddress(draw)), Some(ConnectedBalance)) &&
                storage.entries == ConnectWrites(old(storage.entries), MockAddress(draw))
    {
      if rejected {
        r := Err(Rejected);
      } else {
        var mockAddress := MockAddress(draw);
        address := Some(mockAddress);
        balance := Some(ConnectedBalance);
        isConnected := true;
        storage.SetItem(WalletConnectedKey, "true");
        storage.SetItem(WalletAddressKey, mockAddress);
        r := Ok(mockAddress);
      }
    }

    /** `disconnect()`: all three fields cleared and both entries removed. */
    method Disconnect(rejected: bool) returns (r: Result<(), StoreError>)
      modifies this, storage
      ensures rejected ==> r == Err(Rejected) && State() == old(State()) && storage.entries == old(storage.entries)
      ensures !rejected ==>
                r == Ok(()) && State() == Disconnected &&
                storage.entries == DisconnectWrites(old(storage.entries))
    {
      if rejected {
        r := Err(Rejected);
      } else {
        address := None;
        balance := None;
        isConnected := false;
        storage.RemoveItem(WalletConnectedKey);
        storage.RemoveItem(WalletAddressKey);
        r := Ok(());
      }
    }
  }
}
