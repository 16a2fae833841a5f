/** The connect-wallet button (`ConnectWalletButton`): its loading flag around
    `connect`/`disconnect`, the shortened address and what the button shows. */
module WalletButton {
  import opened Wrappers
  import opened Types
  import opened Seqs
  import opened Wallet

  /** `formatAddress(a)`: `` `${a.slice(0, 6)}...${a.slice(-4)}` `` */
  function FormatAddress(a: string): string {
    Slice(a, 0, 6) + "..." + SliceLast(a, 4)
  }

  /** An address of ten or more characters is shortened to its first six and
      last four around `"..."`; the empty string becomes `"..."`. */
  lemma FormatAddressFacts(a: string)
    ensures |a| >= 10 ==>
      var r := FormatAddress(a);
      |r| == 13 && r[..6] == a[..6] && r[6..9] == "..." && r[9..] == a[|a| - 4..]
    ensures FormatAddress("") == "..."
  {
  }

  /** On an address from `connect` the label is 13 characters: `"0x"`, four
      hex digits, `"..."`, four hex digits (the address's last four). */
  lemma FormatMockAddress(draw: nat -> Nibble)
    ensures var r := FormatAddress(MockAddress(draw));
      && |r| == 13 && r[..2] == "0x" && r[6..9] == "..."
      && (forall i :: 2 <= i < 6 ==> IsHexDigit(r[i]))
      && (forall i :: 9 <= i < 13 ==> IsHexDigit(r[i]))
      && r[9..] == MockAddress(draw)[38..]
  {
    var a := MockAddress(draw);
    MockAddressFacts(draw);
    FormatAddressFacts(a);
    var r := FormatAddress(a);
    assert forall i :: 2 <= i < 6 ==> r[i] == a[i];
    assert forall i :: 9 <= i < 13 ==> r[i] == a[i + 29];
  }

  /** What the button shows. */
  datatype ButtonView =
    | AddressButton(text: string, disabled: bool)      // connected: click disconnects
    | ConnectButton(spinner: bool, disabled: bool)      // "Connect Wallet"

  /** The rendered button for a wallet state and the loading flag. */
  function Button(s: Session, isLoading: bool): (v: ButtonView)
    ensures v.AddressButton? <==> s.isConnected
    ensures v.AddressButton? && s.address.Some? ==> v.text == FormatAddress(s.address.value)
    ensures v.AddressButton? && s.address.None? ==> v.text == "..."
    ensures v.disabled == isLoading
    ensures v.ConnectButton? ==> v.spinner == isLoading
  {
    FormatAddressFacts("");
    if s.isConnected then AddressButton(FormatAddress(s.address.GetOr("")), isLoading)
    else ConnectButton(isLoading, isLoading)
  }

  class ConnectWalletButton {
    var isLoading: bool
    const wallet: WalletStore

    constructor (wallet: WalletStore)
      ensures this.wallet == wallet && !isLoading
    {
      this.wallet := wallet;
      isLoading := false;
    }

    /** `handleConnect()`: a failing `connect` is caught and logged. */
    method HandleConnect(draw: nat -> Nibble, rejected: bool)
      modifies this, wallet, wallet.storage
      ensures !isLoading
      ensures rejected ==> wallet.State() == old(wallet.State()) && wallet.storage.entries == old(wallet.storage.entries)
      ensures !rejected ==>
                wallet.State() == Session(true, Some(MockAddress(draw)), Some(ConnectedBalance)) &&
                wallet.storage.entries == ConnectWrites(old(wallet.storage.entries), MockAddress(draw))
    {
      isLoading := true;
      var _ := wallet.Connect(draw, rejected);
      isLoading := false;
    }

    /** `handleDisconnect()`: a failing `disconnect` is caught and logged. */
    method HandleDisconnect(rejected: bool)
      modifies this, wallet, wallet.storage
      ensures !isLoading
      ensures rejected ==> wallet.State() == old(wallet.State()) && wallet.storage.entries == old(wallet.storage.entries)
      ensures !rejected ==>
                wallet.State() == Disconnected &&
                wallet.storage.entries == DisconnectWrites(old(wallet.storage.entries))
    {
      isLoading := true;
      var _ := wallet.Disconnect(rejected);
      isLoading := false;
    }

    /** The button as rendered now. */
    function View(): ButtonView
      reads this, wallet
    {
      Button(wallet.State(), isLoading)
    }
  }
}
