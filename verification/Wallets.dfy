/** Wallets and holds over the ledger, as functions on their joint state. */
module Wallets {
  import opened Outcomes
  import opened Decimal
  import opened LedgerTypes
  import opened Ledger

  datatype Status = Pending | Partial | Confirmed | Voided

  datatype Wallet = Wallet(id: string, ledger: string, name: string)

  datatype Hold = Hold(id: string, walletId: string, asset: string, amount: string, destination: string,
                       remaining: string, status: Status)
  {
    predicate Open() {
      status == Pending || status == Partial
    }
  }

  /** The service's maps and counter, the ledger below, and the amounts each hold has confirmed so far
      (a record for the laws; the service does not keep it). */
  datatype World = World(books: State, wallets: map<string, Wallet>, holds: map<string, Hold>, nextID: int,
                         confirms: map<string, seq<int>>)

  const NEW_WORLD := World(EMPTY, map[], map[], 0, map[])

  function WalletId(n: int): string { "wal_" + Print(n) }

  function HoldId(n: int): string { "hold_" + Print(n) }

  function MainAddress(walletId: string): string { "wallets:" + walletId + ":main" }

  function HoldAddress(walletId: string, holdId: string): string { "wallets:" + walletId + ":hold:" + holdId }

  function HoldReference(holdId: string): string { "hold:" + holdId }

  function ConfirmReference(holdId: string, amount: int): string { "confirm:" + holdId + ":" + Print(amount) }

  function VoidReference(holdId: string): string { "void:" + holdId }

  function Transfer(reference: string, source: string, destination: string, asset: string, amount: string): Request {
    Request(reference, [Posting(0, 0, source, destination, asset, amount)])
  }

  function OrWorld(address: string): string {
    if address == "" then "world" else address
  }

  function CreateWallet(w: World, ledger: string, name: string): (World, Result<Wallet>) {
    var id := WalletId(w.nextID + 1);
    var (books, account) := CreateAccount(w.books, ledger, MainAddress(id), "asset");
    var w' := w.(nextID := w.nextID + 1, books := books);
    match account
    case Err(e) => (w', Err(LedgerRefused(e)))
    case Ok(_) => (w'.(wallets := w.wallets[id := Wallet(id, ledger, name)]), Ok(Wallet(id, ledger, name)))
  }

  function Pay(w: World, walletId: string, source: string, destination: string, asset: string, amount: string)
    : (World, Result<()>)
    requires walletId in w.wallets
  {
    var (books, tx) := Post(w.books, w.wallets[walletId].ledger, Transfer("", source, destination, asset, amount));
    (w.(books := books), if tx.Ok? then Ok(()) else Err(tx.error))
  }

  function Credit(w: World, walletId: string, asset: string, amount: string, source: string): (World, Result<()>) {
    if walletId !in w.wallets then (w, Err(WalletNotFound))
    else Pay(w, walletId, OrWorld(source), MainAddress(walletId), asset, amount)
  }

  function Debit(w: World, walletId: string, asset: string, amount: string, destination: string): (World, Result<()>) {
    if walletId !in w.wallets then (w, Err(WalletNotFound))
    else Pay(w, walletId, MainAddress(walletId), OrWorld(destination), asset, amount)
  }

  /** The request that moves a new hold's funds; the hold takes the next id. */
  function HoldTransfer(w: World, walletId: string, asset: string, amount: string): Request {
    var id := HoldId(w.nextID + 1);
    Transfer(HoldReference(id), MainAddress(walletId), HoldAddress(walletId, id), asset, amount)
  }

  /** The part of CreateHold after the hold's account has been named in the books. */
  function FundHold(w: World, named: State, walletId: string, asset: string, amount: string, destination: string)
    : (World, Result<Hold>)
    requires walletId in w.wallets
  {
    var id := HoldId(w.nextID + 1);
    var (books, tx) := Post(named, w.wallets[walletId].ledger, HoldTransfer(w, walletId, asset, amount));
    var hold := Hold(id, walletId, asset, amount, destination, amount, Pending);
    match tx
    case Err(e) => (w.(books := books, nextID := w.nextID + 1), Err(LedgerRefused(e)))
    case Ok(_) =>
      (World(books, w.wallets, w.holds[id := hold], w.nextID + 1, w.confirms[id := []]), Ok(hold))
  }

  function CreateHold(w: World, walletId: string, asset: string, amount: string, destination: string)
    : (World, Result<Hold>)
  {
    if walletId !in w.wallets then (w, Err(WalletNotFound))
    else
      var address := HoldAddress(walletId, HoldId(w.nextID + 1));
      var (named, account) := CreateAccount(w.books, w.wallets[walletId].ledger, address, "asset");
      match account
      case Err(e) => (w.(books := named, nextID := w.nextID + 1), Err(e))
      case Ok(_) => FundHold(w, named, walletId, asset, amount, destination)
  }

  /** The amount a confirm call asks for: the whole remainder when none is given. */
  function ConfirmAmount(remaining: int, amount: string): Result<int> {
    if amount == "" then Ok(remaining)
    else if Parse(amount) == None || Value(amount) <= 0 then Err(BadConfirmAmount)
    else if Value(amount) > remaining then Err(ConfirmExceedsRemaining)
    else Ok(Value(amount))
  }

  function AfterConfirm(hold: Hold, left: int): Hold {
    hold.(remaining := Print(left), status := if left == 0 then Confirmed else Partial)
  }

  /** The checks both closing calls make before they touch the ledger. */
  function HoldError(w: World, holdId: string): Option<Error> {
    if holdId !in w.holds then Some(HoldNotFound)
    else if !w.holds[holdId].Open() then Some(HoldClosed)
    else if w.holds[holdId].walletId !in w.wallets then Some(WalletNotFound)
    else if Parse(w.holds[holdId].remaining) == None then Some(NilRemaining)
    else None
  }

  /** The ledger payment and the bookkeeping of a confirm call that passed its checks. */
  function PayConfirmed(w: World, holdId: string, confirmed: int): (World, Result<Hold>)
    requires HoldError(w, holdId) == None
  {
    var hold := w.holds[holdId];
    var source, destination := HoldAddress(hold.walletId, holdId), OrWorld(hold.destination);
    var (books, tx) := Post(w.books, w.wallets[hold.walletId].ledger,
                            Transfer(ConfirmReference(holdId, confirmed), source, destination, hold.asset,
                                     Print(confirmed)));
    match tx
    case Err(e) => (w.(books := books), Err(LedgerRefused(e)))
    case Ok(_) =>
      var hold' := AfterConfirm(hold, Value(hold.remaining) - confirmed);
      var earlier := if holdId in w.confirms then w.confirms[holdId] else [];
      (w.(books := books, holds := w.holds[holdId := hold'], confirms := w.confirms[holdId := earlier + [confirmed]]),
       Ok(hold'))
  }

  function ConfirmHold(w: World, holdId: string, amount: string): (World, Result<Hold>) {
    if HoldError(w, holdId).Some? then (w, Err(HoldError(w, holdId).value))
    else
      match ConfirmAmount(Value(w.holds[holdId].remaining), amount)
      case Err(e) => (w, Err(e))
      case Ok(confirmed) => PayConfirmed(w, holdId, confirmed)
  }

  function PayVoided(w: World, holdId: string): (World, Result<Hold>)
    requires HoldError(w, holdId) == None
  {
    var hold := w.holds[holdId];
    var source, destination := HoldAddress(hold.walletId, holdId), MainAddress(hold.walletId);
    var (books, tx) := Post(w.books, w.wallets[hold.walletId].ledger,
                            Transfer(VoidReference(holdId), source, destination, hold.asset,
                                     Print(Value(hold.remaining))));
    match tx
    case Err(e) => (w.(books := books), Err(LedgerRefused(e)))
    case Ok(_) =>
      var hold' := hold.(remaining := "0", status := Voided);
      (w.(books := books, holds := w.holds[holdId := hold']), Ok(hold'))
  }

  function VoidHold(w: World, holdId: string): (World, Result<Hold>) {
    if HoldError(w, holdId).Some? then (w, Err(HoldError(w, holdId).value))
    else if Value(w.holds[holdId].remaining) <= 0 then (w, Err(NothingRemaining))
    else PayVoided(w, holdId)
  }

  /*** Runs ***/

  datatype Call =
    | CreateWalletCall(ledger: string, name: string)
    | CreditCall(walletId: string, asset: string, amount: string, other: string)
    | DebitCall(walletId: string, asset: string, amount: string, other: string)
    | CreateHoldCall(walletId: string, asset: string, amount: string, other: string)
    | ConfirmCall(holdId: string, amount: string)
    | VoidCall(holdId: string)
    | LedgerCall(op: Op) // somebody else using the same ledger service

  function Step(w: World, call: Call): World {
    match call
    case CreateWalletCall(ledger, name) => CreateWallet(w, ledger, name).0
    case CreditCall(walletId, asset, amount, other) => Credit(w, walletId, asset, amount, other).0
    case DebitCall(walletId, asset, amount, other) => Debit(w, walletId, asset, amount, other).0
    case CreateHoldCall(walletId, asset, amount, other) => CreateHold(w, walletId, asset, amount, other).0
    case ConfirmCall(holdId, amount) => ConfirmHold(w, holdId, amount).0
    case VoidCall(holdId) => VoidHold(w, holdId).0
    case LedgerCall(op) => w.(books := Apply(w.books, op))
  }

  function After(calls: seq<Call>): World {
    if calls == [] then NEW_WORLD else Step(After(calls[..|calls| - 1]), calls[|calls| - 1])
  }
}
