/** A wallet's total: what is available plus what is held moves only with credits, debits and confirms. */
module WalletTotals {
  import opened Outcomes
  import opened Decimal
  import opened Text
  import opened LedgerTypes
  import opened Volumes
  import opened Effects
  import opened Ledger
  import opened LedgerSteps
  import opened LedgerLaws
  import opened LedgerEffects
  import opened Wallets
  import opened WalletNames
  import opened HoldLaws

  /*** Sums over finite sets of ids ***/

  ghost function SumOver(ids: set<string>, f: string -> int): int {
    if ids == {} then 0
    else
      var id :| id in ids;
      f(id) + SumOver(ids - {id}, f)
  }

  /** The order in which a set is summed does not matter. */
  lemma {:induction false} SumPick(ids: set<string>, f: string -> int, id: string)
    requires id in ids
    ensures SumOver(ids, f) == f(id) + SumOver(ids - {id}, f)
  {
    var first :| first in ids && SumOver(ids, f) == f(first) + SumOver(ids - {first}, f);
    if first != id {
      SumPick(ids - {first}, f, id);
      SumPick(ids - {id}, f, first);
      assert ids - {first} - {id} == ids - {id} - {first};
    }
  }

  lemma {:induction false} SumSame(ids: set<string>, f: string -> int, g: string -> int)
    requires forall id :: id in ids ==> f(id) == g(id)
    ensures SumOver(ids, f) == SumOver(ids, g)
  {
    if ids != {} {
      var id :| id in ids;
      SumPick(ids, f, id);
      SumPick(ids, g, id);
      SumSame(ids - {id}, f, g);
    }
  }

  lemma {:induction false} SumZero(ids: set<string>, f: string -> int)
    requires forall id :: id in ids ==> f(id) == 0
    ensures SumOver(ids, f) == 0
  {
    if ids != {} {
      var id :| id in ids;
      SumPick(ids, f, id);
      SumZero(ids - {id}, f);
    }
  }

  /*** Held and available ***/

  function Share(hold: Hold, walletId: string, asset: string): int {
    if hold.walletId == walletId && hold.Open() && hold.asset == asset then Value(hold.remaining) else 0
  }

  function HeldBy(holds: map<string, Hold>, walletId: string, asset: string): string -> int {
    (h: string) => if h in holds then Share(holds[h], walletId, asset) else 0
  }

  /** The sum GetBalances builds: Remaining over the wallet's open holds in one asset. */
  ghost function HeldTotal(holds: map<string, Hold>, walletId: string, asset: string): int {
    SumOver(holds.Keys, HeldBy(holds, walletId, asset))
  }

  lemma HeldAfterUpdate(holds: map<string, Hold>, h: string, hold: Hold, walletId: string, asset: string)
    ensures HeldTotal(holds[h := hold], walletId, asset) == HeldTotal(holds, walletId, asset)
      - (if h in holds then Share(holds[h], walletId, asset) else 0) + Share(hold, walletId, asset)
  {
    var holds' := holds[h := hold];
    var f, g := HeldBy(holds, walletId, asset), HeldBy(holds', walletId, asset);
    SumPick(holds'.Keys, g, h);
    if h in holds {
      SumPick(holds.Keys, f, h);
    } else {
      assert holds.Keys - {h} == holds.Keys;
    }
    assert holds'.Keys - {h} == holds.Keys - {h};
    SumSame(holds.Keys - {h}, f, g);
  }

  /** What is available plus what is held. */
  ghost function TotalOf(w: World, walletId: string, asset: string): int {
    if walletId in w.wallets then
      BalanceOf(w.books, w.wallets[walletId].ledger, MainAddress(walletId), asset) + HeldTotal(w.holds, walletId, asset)
    else 0
  }

  /** The same, leaving out what reverts took back from the main account. */
  ghost function ClientTotal(w: World, walletId: string, asset: string): int {
    if walletId in w.wallets then
      ClientBalance(w.books, w.wallets[walletId].ledger, MainAddress(walletId), asset) +
        HeldTotal(w.holds, walletId, asset)
    else 0
  }

  /*** Which calls the law is about ***/

  predicate IsWalletAddress(address: string) {
    "wallets:" <= address
  }

  ghost predicate AvoidsWallets(es: seq<Entry>) {
    forall i :: 0 <= i < |es| ==> !IsWalletAddress(es[i].source) && !IsWalletAddress(es[i].destination)
  }

  ghost predicate LedgerApart(st: State, op: Op) {
    match op
    case AccountOp(_, _, _) => true
    case PostOp(_, req) => !IsWalletReference(req.reference) && AvoidsWallets(Entries(req.postings))
    case RevertOp(_, _) => true
  }

  /** The other end of every transfer, and every other post to the ledger, lies outside the wallets: addresses. */
  ghost predicate Apart(w: World, call: Call) {
    match call
    case CreateWalletCall(_, _) => true
    case CreditCall(_, _, _, other) => !IsWalletAddress(other)
    case DebitCall(_, _, _, other) => !IsWalletAddress(other)
    case CreateHoldCall(_, _, _, other) => !IsWalletAddress(other)
    case ConfirmCall(_, _) => true
    case VoidCall(_) => true
    case LedgerCall(op) => LedgerApart(w.books, op)
  }

  ghost predicate AllApart(calls: seq<Call>) {
    forall i :: 0 <= i < |calls| ==> Apart(After(calls[..i]), calls[i])
  }

  lemma HoldAddressIsWalletAddress(address: string)
    ensures IsHoldAddress(address) ==> IsWalletAddress(address)
  {
  }

  lemma ApartIsAllowed(w: World, call: Call)
    requires Apart(w, call)
    ensures Allowed(w, call)
  {
    forall address ensures IsHoldAddress(address) ==> IsWalletAddress(address) {
      HoldAddressIsWalletAddress(address);
    }
  }

  /*** Main accounts ***/

  ghost predicate MainAt(w: World, ledger: string, walletId: string, asset: string) {
    && Clean(w.books, ledger, MainAddress(walletId), asset)
    && (!(walletId in w.wallets && w.wallets[walletId].ledger == ledger) ==>
          ClientBalance(w.books, ledger, MainAddress(walletId), asset) == 0)
  }

  ghost predicate MainSound(w: World) {
    && Sound(w)
    && (forall ledger, walletId, asset :: ColonFree(walletId) ==> MainAt(w, ledger, walletId, asset))
    && (forall h :: h in w.holds ==> !IsWalletAddress(OrWorld(w.holds[h].destination)))
  }

  /** One main account changes by an amount in one asset; every other main account stays as it is. */
  ghost predicate MainShift(st: State, st': State, l: string, id: string, unit: string, change: int,
                            ledger: string, walletId: string, asset: string) {
    && ClientBalance(st', ledger, MainAddress(walletId), asset) ==
      ClientBalance(st, ledger, MainAddress(walletId), asset) +
       (if ledger == l && walletId == id && asset == unit then change else 0)
    && (Clean(st, ledger, MainAddress(walletId), asset) ==> Clean(st', ledger, MainAddress(walletId), asset))
  }

  ghost predicate MainShifted(st: State, st': State, l: string, id: string, unit: string, change: int) {
    forall ledger, walletId, asset :: ColonFree(walletId) ==>
      MainShift(st, st', l, id, unit, change, ledger, walletId, asset)
  }

  /** The effect of one entry on the main account of a wallet. */
  function MainNet(e: Entry, walletId: string): int {
    var main := MainAddress(walletId);
    (if e.destination == main then e.amount else 0) - (if e.source == main then e.amount else 0)
  }

  lemma TookMain(st: State, st': State, l: string, reference: string, e: Entry, id: string)
    requires Took(st, st', l, reference, [e]) && !IsRevertReference(reference)
    requires forall walletId :: ColonFree(walletId) && walletId != id ==> MainNet(e, walletId) == 0
    ensures MainShifted(st, st', l, id, e.asset, MainNet(e, id))
  {
    forall ledger, walletId, asset | ColonFree(walletId)
      ensures MainShift(st, st', l, id, e.asset, MainNet(e, id), ledger, walletId, asset)
    {
      assert Shifted(st, st', l, [e], ledger, MainAddress(walletId), asset);
      assert ClientShifted(st, st', l, reference, [e], ledger, MainAddress(walletId), asset);
      OneAssetDoesNotClash([e], e.asset);
      assert [e][..0] == [];
      assert NetOf([e], MainAddress(walletId), asset) == EntryNet(e, MainAddress(walletId), asset);
    }
  }

  lemma QuietMain(st: State, st': State, id: string)
    requires forall ledger, account, asset :: IsWalletAddress(account) ==> QuietAt(st, st', ledger, account, asset)
    ensures MainShifted(st, st', "", id, "", 0)
  {
    forall ledger, walletId, asset | ColonFree(walletId)
      ensures MainShift(st, st', "", id, "", 0, ledger, walletId, asset)
    {
      assert IsWalletAddress(MainAddress(walletId));
      assert QuietAt(st, st', ledger, MainAddress(walletId), asset);
    }
  }

  /** Main accounts stay sound when a wallet that exists gains or loses. */
  lemma MainAfter(w: World, w': World, l: string, id: string, unit: string, change: int)
    requires MainSound(w) && Sound(w') && MainShifted(w.books, w'.books, l, id, unit, change)
    requires change != 0 ==> id in w.wallets && w.wallets[id].ledger == l
    requires forall k :: k in w.wallets ==> k in w'.wallets && w'.wallets[k] == w.wallets[k]
    requires forall h :: h in w'.holds ==> !IsWalletAddress(OrWorld(w'.holds[h].destination))
    ensures MainSound(w')
  {
    forall ledger, walletId, asset | ColonFree(walletId) ensures MainAt(w', ledger, walletId, asset) {
      assert MainAt(w, ledger, walletId, asset);
      assert MainShift(w.books, w'.books, l, id, unit, change, ledger, walletId, asset);
    }
  }

  /** How the total of an existing wallet moves when its main account and its held sum move. */
  lemma TotalAfter(w: World, w': World, l: string, id: string, unit: string, change: int, walletId: string,
                   asset: string)
    requires MainShifted(w.books, w'.books, l, id, unit, change)
    requires walletId in w.wallets && ColonFree(walletId)
    requires walletId in w'.wallets && w'.wallets[walletId] == w.wallets[walletId]
    ensures ClientTotal(w', walletId, asset) == ClientTotal(w, walletId, asset)
      + HeldTotal(w'.holds, walletId, asset) - HeldTotal(w.holds, walletId, asset)
      + if w.wallets[walletId].ledger == l && walletId == id && asset == unit then change else 0
  {
    assert MainShift(w.books, w'.books, l, id, unit, change, w.wallets[walletId].ledger, walletId, asset);
  }

  /*** One step ***/

  /** What a call adds to a wallet's total: credits in, debits and confirmed amounts out, each as the call gave it. */
  function FlowOf(w: World, call: Call, walletId: string, asset: string): int {
    match call
    case CreditCall(id, unit, amount, other) =>
      if id == walletId && unit == asset && Credit(w, id, unit, amount, other).1.Ok? then Value(amount) else 0
    case DebitCall(id, unit, amount, other) =>
      if id == walletId && unit == asset && Debit(w, id, unit, amount, other).1.Ok? then -Value(amount) else 0
    case ConfirmCall(h, amount) =>
      if ConfirmHold(w, h, amount).1.Ok? && w.holds[h].walletId == walletId && w.holds[h].asset == asset
      then -ConfirmAmount(Value(w.holds[h].remaining), amount).value else 0
    case _ => 0
  }

  /** The step law for one call and one wallet. */
  ghost predicate Totals(w: World, w': World, walletId: string, asset: string, flow: int) {
    MainSound(w') && ClientTotal(w', walletId, asset) == ClientTotal(w, walletId, asset) + flow
  }

  lemma WalletIdOf(w: World, walletId: string)
    requires Records(w) && walletId in w.wallets
    ensures ColonFree(walletId)
  {
    IssuedIsColonFree(w, walletId);
  }

  lemma UnmovedMain(st: State, st': State)
    requires Unmoved(st, st')
    ensures MainShifted(st, st', "", "", "", 0)
  {
    forall ledger, walletId, asset | ColonFree(walletId)
      ensures MainShift(st, st', "", "", "", 0, ledger, walletId, asset)
    {
      UnmovedBalances(st, st', ledger, MainAddress(walletId), asset, "");
    }
  }

  /** Nothing happened to the books or the holds; wallets may have been added. */
  lemma IdleTotals(w: World, w': World, walletId: string, asset: string)
    requires MainSound(w) && Sound(w') && MainShifted(w.books, w'.books, "", "", "", 0) && w'.holds == w.holds
    requires forall k :: k in w.wallets ==> k in w'.wallets && w'.wallets[k] == w.wallets[k]
    ensures Totals(w, w', walletId, asset, 0)
  {
    MainAfter(w, w', "", "", "", 0);
    if walletId in w.wallets {
      WalletIdOf(w, walletId);
      TotalAfter(w, w', "", "", "", 0, walletId, asset);
    } else if walletId in w'.wallets {
      WalletIdOf(w', walletId);
      var l := w'.wallets[walletId].ledger;
      assert MainAt(w, l, walletId, asset);
      assert MainShift(w.books, w'.books, "", "", "", 0, l, walletId, asset);
      forall h | h in w.holds.Keys ensures HeldBy(w.holds, walletId, asset)(h) == 0 {
        assert HoldSound(w, h);
      }
      SumZero(w.holds.Keys, HeldBy(w.holds, walletId, asset));
    }
  }

  /** Only the books moved, on one wallet's main account. */
  lemma PaidTotals(w: World, w': World, id: string, unit: string, change: int, walletId: string, asset: string)
    requires MainSound(w) && Sound(w') && id in w.wallets
    requires MainShifted(w.books, w'.books, w.wallets[id].ledger, id, unit, change)
    requires w'.holds == w.holds && w'.wallets == w.wallets
    ensures Totals(w, w', walletId, asset, if walletId == id && asset == unit then change else 0)
  {
    MainAfter(w, w', w.wallets[id].ledger, id, unit, change);
    if walletId in w.wallets {
      WalletIdOf(w, walletId);
      TotalAfter(w, w', w.wallets[id].ledger, id, unit, change, walletId, asset);
    }
  }

  lemma OtherMainNets(e: Entry, id: string)
    requires !IsWalletAddress(e.source) || e.source == MainAddress(id) || IsHoldAddress(e.source)
    requires !IsWalletAddress(e.destination) || e.destination == MainAddress(id) || IsHoldAddress(e.destination)
    ensures forall walletId :: ColonFree(walletId) && walletId != id ==> MainNet(e, walletId) == 0
  {
    forall walletId | ColonFree(walletId) && walletId != id ensures MainNet(e, walletId) == 0 {
      MainIsNoHoldAddress(walletId);
      assert IsWalletAddress(MainAddress(walletId));
      if MainAddress(walletId) == MainAddress(id) {
        MainAddressInjective(walletId, id);
      }
    }
  }

  lemma WorldIsNotWallet()
    ensures !IsWalletAddress("world") && !IsWalletAddress("")
  {
    assert "wallets:"[1] == 'a' && "world"[1] == 'o';
  }

  lemma PayTotals(w: World, id: string, other: string, incoming: bool, unit: string, amount: string,
                  walletId: string, asset: string)
    requires MainSound(w) && id in w.wallets && !IsWalletAddress(other)
    ensures
      var source := if incoming then other else MainAddress(id);
      var destination := if incoming then MainAddress(id) else other;
      var (w', r) := Pay(w, id, source, destination, unit, amount);
      Totals(w, w', walletId, asset, if walletId == id && asset == unit && r.Ok?
                                     then (if incoming then Value(amount) else -Value(amount)) else 0)
  {
    var source := if incoming then other else MainAddress(id);
    var destination := if incoming then MainAddress(id) else other;
    var (w', r) := Pay(w, id, source, destination, unit, amount);
    var l := w.wallets[id].ledger;
    WalletIdOf(w, id);
    HoldAddressIsWalletAddress(other);
    MainIsNoHoldAddress(id);
    PaySound(w, id, source, destination, unit, amount);
    TransferTakes(w.books, l, "", source, destination, unit, amount);
    if r.Ok? {
      var e := Entry(source, destination, unit, Value(amount));
      OtherMainNets(e, id);
      NotReversals("", 0);
      TookMain(w.books, w'.books, l, "", e, id);
      assert IsWalletAddress(MainAddress(id));
      PaidTotals(w, w', id, unit, MainNet(e, id), walletId, asset);
    } else {
      UnmovedMain(w.books, w'.books);
      IdleTotals(w, w', walletId, asset);
    }
  }

  function OpenValue(holds: map<string, Hold>, h: string): int {
    if h in holds && holds[h].Open() then Value(holds[h].remaining) else 0
  }

  /** One hold of one wallet was written while the wallet's main account moved. */
  ghost predicate RewritesHold(w: World, w': World, id: string, unit: string, change: int, h: string) {
    && id in w.wallets && w'.wallets == w.wallets
    && MainShifted(w.books, w'.books, w.wallets[id].ledger, id, unit, change)
    && h in w'.holds && w'.holds == w.holds[h := w'.holds[h]]
    && w'.holds[h].walletId == id && w'.holds[h].asset == unit
    && (h in w.holds ==> w.holds[h].walletId == id && w.holds[h].asset == unit)
    && !IsWalletAddress(OrWorld(w'.holds[h].destination))
  }

  lemma TotalAfterHold(w: World, w': World, id: string, unit: string, change: int, h: string, walletId: string,
                       asset: string)
    requires id in w.wallets && walletId in w.wallets && w'.wallets == w.wallets && ColonFree(walletId)
    requires MainShifted(w.books, w'.books, w.wallets[id].ledger, id, unit, change)
    requires h in w'.holds && w'.holds == w.holds[h := w'.holds[h]]
    requires w'.holds[h].walletId == id && w'.holds[h].asset == unit
    requires h in w.holds ==> w.holds[h].walletId == id && w.holds[h].asset == unit
    ensures ClientTotal(w', walletId, asset) == ClientTotal(w, walletId, asset) +
      if walletId == id && asset == unit then change + OpenValue(w'.holds, h) - OpenValue(w.holds, h) else 0
  {
    TotalAfter(w, w', w.wallets[id].ledger, id, unit, change, walletId, asset);
    HeldAfterUpdate(w.holds, h, w'.holds[h], walletId, asset);
  }

  lemma HoldTotals(w: World, w': World, id: string, unit: string, change: int, h: string, walletId: string,
                   asset: string)
    requires MainSound(w) && Sound(w') && RewritesHold(w, w', id, unit, change, h)
    ensures Totals(w, w', walletId, asset,
                   if walletId == id && asset == unit
                   then change + OpenValue(w'.holds, h) - OpenValue(w.holds, h) else 0)
  {
    MainAfter(w, w', w.wallets[id].ledger, id, unit, change);
    if walletId in w.wallets {
      WalletIdOf(w, walletId);
      TotalAfterHold(w, w', id, unit, change, h, walletId, asset);
    }
  }

  lemma CreateWalletTotals(w: World, ledger: string, name: string, walletId: string, asset: string)
    requires MainSound(w)
    ensures Totals(w, CreateWallet(w, ledger, name).0, walletId, asset, 0)
  {
    hide Print, Books;
    var w' := CreateWallet(w, ledger, name).0;
    assert Sound(w') by { CreateWalletSound(w, ledger, name); }
    assert MainShifted(w.books, w'.books, "", "", "", 0) by {
      PutAccountKeepsBooks(w.books, ledger, MainAddress(WalletId(w.nextID + 1)), "asset");
      UnmovedMain(w.books, w'.books);
    }
    assert WalletId(w.nextID + 1) !in w.wallets by { FreshHold(w); }
    IdleTotals(w, w', walletId, asset);
  }

  /** The entry moves one wallet's main account by this much and no other wallet's. */
  ghost predicate OnlyMoves(e: Entry, id: string, change: int) {
    && MainNet(e, id) == change
    && forall walletId :: ColonFree(walletId) && walletId != id ==> MainNet(e, walletId) == 0
  }

  lemma HoldingMoves(e: Entry, id: string, h: string)
    requires ColonFree(id) && ColonFree(h) && e.source == MainAddress(id) && e.destination == HoldAddress(id, h)
    ensures OnlyMoves(e, id, -e.amount)
  {
    assert IsHoldAddress(HoldAddress(id, h));
    MainIsNoHoldAddress(id);
    OtherMainNets(e, id);
  }

  lemma MainShiftedFrom(st: State, same: State, st': State, l: string, id: string, unit: string, change: int)
    requires Unmoved(st, same) && MainShifted(same, st', l, id, unit, change)
    ensures MainShifted(st, st', l, id, unit, change)
  {
    forall ledger, walletId, asset | ColonFree(walletId)
      ensures MainShift(st, st', l, id, unit, change, ledger, walletId, asset)
    {
      assert MainShift(same, st', l, id, unit, change, ledger, walletId, asset);
      UnmovedBalances(st, same, ledger, MainAddress(walletId), asset, "");
    }
  }

  lemma FundedMain(w: World, named: State, books: State, id: string, unit: string, amount: string)
    requires MainSound(w) && id in w.wallets && Unmoved(w.books, named) && Held(w, named, books, id, unit, amount)
    ensures MainShifted(w.books, books, w.wallets[id].ledger, id, unit, -Value(amount))
  {
    hide Print, Books;
    var l, h := w.wallets[id].ledger, HoldId(w.nextID + 1);
    var e := Entry(MainAddress(id), HoldAddress(id, h), unit, Value(amount));
    assert ColonFree(id) by { WalletIdOf(w, id); }
    assert ColonFree(h) by { FreshHold(w); }
    assert OnlyMoves(e, id, -Value(amount)) by { HoldingMoves(e, id, h); }
    assert Took(named, books, l, HoldReference(h), [e]);
    NotReversals(h, 0);
    TookMain(named, books, l, HoldReference(h), e, id);
    MainShiftedFrom(w.books, named, books, l, id, unit, -Value(amount));
  }

  lemma FundTotals(w: World, named: State, books: State, id: string, unit: string, amount: string, other: string,
                   walletId: string, asset: string)
    requires MainSound(w) && id in w.wallets && Unmoved(w.books, named) && !IsWalletAddress(other)
    requires Held(w, named, books, id, unit, amount)
    ensures var h := HoldId(w.nextID + 1);
      Totals(w, World(books, w.wallets, w.holds[h := Hold(h, id, unit, amount, other, amount, Pending)],
                      w.nextID + 1, w.confirms[h := []]), walletId, asset, 0)
  {
    hide Print;
    var h := HoldId(w.nextID + 1);
    var hold := Hold(h, id, unit, amount, other, amount, Pending);
    var w' := World(books, w.wallets, w.holds[h := hold], w.nextID + 1, w.confirms[h := []]);
    assert Sound(w') by {
      HoldAddressIsWalletAddress(other);
      HeldSound(w, named, books, id, unit, amount, other);
    }
    assert MainShifted(w.books, w'.books, w.wallets[id].ledger, id, unit, -Value(amount)) by {
      FundedMain(w, named, books, id, unit, amount);
    }
    assert h !in w.holds by { FreshHold(w); }
    assert !IsWalletAddress(OrWorld(other)) by { WorldIsNotWallet(); }
    assert w'.holds[h] == hold;
    assert OpenValue(w.holds, h) == 0 && OpenValue(w'.holds, h) == Value(amount);
    HoldTotals(w, w', id, unit, -Value(amount), h, walletId, asset);
  }

  lemma FundHoldTotals(w: World, named: State, id: string, unit: string, amount: string, other: string,
                       walletId: string, asset: string)
    requires MainSound(w) && id in w.wallets && Unmoved(w.books, named) && Books(named) && !IsWalletAddress(other)
    requires Totals(w, w.(books := named, nextID := w.nextID + 1), walletId, asset, 0)
    ensures Totals(w, FundHold(w, named, id, unit, amount, other).0, walletId, asset, 0)
  {
    TransferOutcome(w, named, id, unit, amount);
    var (books, r) := Post(named, w.wallets[id].ledger, HoldTransfer(w, id, unit, amount));
    if r.Ok? {
      FundTotals(w, named, books, id, unit, amount, other, walletId, asset);
    }
  }

  lemma IdleStep(w: World, walletId: string, asset: string)
    requires MainSound(w)
    ensures Totals(w, w, walletId, asset, 0)
  {
    UnmovedMain(w.books, w.books);
    IdleTotals(w, w, walletId, asset);
  }

  lemma CreateHoldTotals(w: World, id: string, unit: string, amount: string, other: string, walletId: string,
                         asset: string)
    requires MainSound(w) && !IsWalletAddress(other)
    ensures Totals(w, CreateHold(w, id, unit, amount, other).0, walletId, asset, 0)
  {
    IdleStep(w, walletId, asset);
    if id in w.wallets {
      var l, address := w.wallets[id].ledger, HoldAddress(id, HoldId(w.nextID + 1));
      NamedQuietly(w, l, address);
      var (named, account) := CreateAccount(w.books, l, address, "asset");
      UnmovedMain(w.books, named);
      IdleTotals(w, w.(books := named, nextID := w.nextID + 1), walletId, asset);
      if account.Ok? {
        FundHoldTotals(w, named, id, unit, amount, other, walletId, asset);
      }
    }
  }

  lemma StillMain(st: State, l: string, id: string, unit: string)
    ensures MainShifted(st, st, l, id, unit, 0)
  {
    forall ledger, walletId, asset | ColonFree(walletId)
      ensures MainShift(st, st, l, id, unit, 0, ledger, walletId, asset)
    {
    }
  }

  /** What a payment out of a hold does to main accounts. */
  lemma PaymentMain(w: World, h: string, reference: string, destination: string, amount: int)
    requires MainSound(w) && HoldError(w, h) == None && reference != "" && !IsRevertReference(reference)
    requires !IsWalletAddress(destination) || destination == MainAddress(w.holds[h].walletId)
    ensures var hold := w.holds[h]; var l := w.wallets[hold.walletId].ledger;
      var (books, r) := Post(w.books, l, Transfer(reference, HoldAddress(hold.walletId, h), destination, hold.asset,
                                                  Print(amount)));
      MainShifted(w.books, books, l, hold.walletId, hold.asset,
        if r.Ok? && !Has(w.books, l, reference) && destination == MainAddress(hold.walletId) then amount else 0)
  {
    hide Print, Sound;
    var hold := w.holds[h];
    var id, l := hold.walletId, w.wallets[hold.walletId].ledger;
    var source := HoldAddress(id, h);
    SoundHold(w, h);
    ParsePrint(amount);
    TransferTakes(w.books, l, reference, source, destination, hold.asset, Print(amount));
    var (books, r) := Post(w.books, l, Transfer(reference, source, destination, hold.asset, Print(amount)));
    var e := Entry(source, destination, hold.asset, amount);
    assert IsHoldAddress(source);
    MainIsNoHoldAddress(id);
    OtherMainNets(e, id);
    if r.Ok? && !Has(w.books, l, reference) {
      TookMain(w.books, books, l, reference, e, id);
      assert IsWalletAddress(MainAddress(id));
    } else {
      StillMain(w.books, l, id, hold.asset);
    }
  }

  /** A hold of a wallet was rewritten by a payment out of it. */
  lemma SettledTotals(w: World, w': World, h: string, change: int, walletId: string, asset: string)
    requires MainSound(w) && Sound(w') && HoldError(w, h) == None && Rewrites(w, w', h)
    requires w'.holds[h].walletId == w.holds[h].walletId && w'.holds[h].asset == w.holds[h].asset
    requires w'.holds[h].destination == w.holds[h].destination
    requires MainShifted(w.books, w'.books, w.wallets[w.holds[h].walletId].ledger, w.holds[h].walletId,
                         w.holds[h].asset, change)
    ensures Totals(w, w', walletId, asset,
                   if w.holds[h].walletId == walletId && w.holds[h].asset == asset
                   then change + OpenValue(w'.holds, h) - OpenValue(w.holds, h) else 0)
  {
    HoldTotals(w, w', w.holds[h].walletId, w.holds[h].asset, change, h, walletId, asset);
  }

  /** Confirming pays out to the hold's destination, which is no wallet address. */
  lemma ConfirmedMain(w: World, h: string, confirmed: int)
    requires MainSound(w) && HoldError(w, h) == None && PayConfirmed(w, h, confirmed).1.Ok?
    ensures MainShifted(w.books, PayConfirmed(w, h, confirmed).0.books, w.wallets[w.holds[h].walletId].ledger,
                        w.holds[h].walletId, w.holds[h].asset, 0)
  {
    KindsDiffer(h, h, confirmed);
    var hold := w.holds[h];
    assert IsWalletAddress(MainAddress(hold.walletId));
    NotReversals(h, confirmed);
    PaymentMain(w, h, ConfirmReference(h, confirmed), OrWorld(hold.destination), confirmed);
  }

  lemma PayConfirmedTotals(w: World, h: string, confirmed: int, walletId: string, asset: string)
    requires MainSound(w) && HoldError(w, h) == None && 0 < confirmed <= Value(w.holds[h].remaining)
    requires Sound(PayConfirmed(w, h, confirmed).0)
    ensures var (w', r) := PayConfirmed(w, h, confirmed);
      Totals(w, w', walletId, asset,
             if r.Ok? && w.holds[h].walletId == walletId && w.holds[h].asset == asset then -confirmed else 0)
  {
    hide Print;
    var hold := w.holds[h];
    var (w', r) := PayConfirmed(w, h, confirmed);
    PayConfirmedOutcome(w, h, confirmed);
    if r.Ok? {
      assert OpenValue(w'.holds, h) - OpenValue(w.holds, h) == -confirmed by {
        ParsePrint(Value(hold.remaining) - confirmed);
      }
      ConfirmedMain(w, h, confirmed);
      SettledTotals(w, w', h, 0, walletId, asset);
    } else {
      IdleStep(w, walletId, asset);
    }
  }

  lemma VoidIsFresh(w: World, h: string)
    requires Sound(w) && HoldError(w, h) == None
    ensures !Has(w.books, w.wallets[w.holds[h].walletId].ledger, VoidReference(h)) && VoidReference(h) != ""
  {
    assert HoldSound(w, h);
    IssuedIsColonFree(w, h);
    KindsDiffer(h, h, 0);
    assert RefsAt(w, w.wallets[w.holds[h].walletId].ledger, h);
  }

  lemma PayVoidedTotals(w: World, h: string, walletId: string, asset: string)
    requires MainSound(w) && HoldError(w, h) == None
    requires Sound(PayVoided(w, h).0)
    ensures Totals(w, PayVoided(w, h).0, walletId, asset, 0)
  {
    var hold := w.holds[h];
    var (w', r) := PayVoided(w, h);
    PayVoidedOutcome(w, h);
    if r.Ok? {
      VoidIsFresh(w, h);
      NotReversals(h, 0);
      PaymentMain(w, h, VoidReference(h), MainAddress(hold.walletId), Value(hold.remaining));
      SettledTotals(w, w', h, Value(hold.remaining), walletId, asset);
    } else {
      IdleStep(w, walletId, asset);
    }
  }

  /*** The law ***/

  lemma PostApart(st: State, l: string, req: Request, ledger: string, account: string, asset: string)
    requires AvoidsWallets(Entries(req.postings)) && IsWalletAddress(account)
    ensures QuietAt(st, Post(st, l, req).0, ledger, account, asset)
  {
    var es, st' := Entries(req.postings), Post(st, l, req).0;
    PostTakes(st, l, req);
    if st' != st {
      assert Shifted(st, st', l, es, ledger, account, asset);
      assert ClientShifted(st, st', l, req.reference, es, ledger, account, asset);
      UntouchedNet(es, account, asset);
    }
  }

  lemma LedgerQuietForWallets(st: State, op: Op)
    requires Books(st) && LedgerApart(st, op)
    ensures forall ledger, account, asset :: IsWalletAddress(account) ==>
      QuietAt(st, Apply(st, op), ledger, account, asset)
  {
    forall ledger, account, asset | IsWalletAddress(account)
      ensures QuietAt(st, Apply(st, op), ledger, account, asset)
    {
      match op {
        case AccountOp(l, address, kind) =>
          PutAccountKeepsBooks(st, l, address, kind);
          UnmovedBalances(st, Apply(st, op), ledger, account, asset, "");
        case PostOp(l, req) => PostApart(st, l, req, ledger, account, asset);
        case RevertOp(_, _) =>
          RevertTakes(st, op);
          assert RevertedAt(st, Apply(st, op), op, ledger, account, asset);
      }
    }
  }

  lemma LedgerCallTotals(w: World, op: Op, walletId: string, asset: string)
    requires MainSound(w) && Apart(w, LedgerCall(op))
    ensures Totals(w, Step(w, LedgerCall(op)), walletId, asset, 0)
  {
    ApartIsAllowed(w, LedgerCall(op));
    LedgerCallSound(w, op);
    LedgerQuietForWallets(w.books, op);
    QuietMain(w.books, Apply(w.books, op), "");
    IdleTotals(w, Step(w, LedgerCall(op)), walletId, asset);
  }

  lemma ConfirmTotals(w: World, h: string, amount: string, walletId: string, asset: string)
    requires MainSound(w)
    ensures Totals(w, ConfirmHold(w, h, amount).0, walletId, asset, FlowOf(w, ConfirmCall(h, amount), walletId, asset))
  {
    IdleStep(w, walletId, asset);
    if HoldError(w, h) == None {
      var c := ConfirmAmount(Value(w.holds[h].remaining), amount);
      if c.Ok? {
        assert HoldSound(w, h);
        ConfirmHoldSound(w, h, amount);
        PayConfirmedTotals(w, h, c.value, walletId, asset);
      }
    }
  }

  lemma VoidTotals(w: World, h: string, walletId: string, asset: string)
    requires MainSound(w)
    ensures Totals(w, VoidHold(w, h).0, walletId, asset, 0)
  {
    IdleStep(w, walletId, asset);
    if HoldError(w, h) == None && Value(w.holds[h].remaining) > 0 {
      VoidHoldSound(w, h);
      PayVoidedTotals(w, h, walletId, asset);
    }
  }

  lemma StepTotals(w: World, call: Call, walletId: string, asset: string)
    requires MainSound(w) && Apart(w, call)
    ensures Totals(w, Step(w, call), walletId, asset, FlowOf(w, call, walletId, asset))
  {
    WorldIsNotWallet();
    IdleStep(w, walletId, asset);
    match call {
      case CreateWalletCall(ledger, name) => CreateWalletTotals(w, ledger, name, walletId, asset);
      case CreditCall(id, unit, amount, other) =>
        if id in w.wallets {
          PayTotals(w, id, OrWorld(other), true, unit, amount, walletId, asset);
        }
      case DebitCall(id, unit, amount, other) =>
        if id in w.wallets {
          PayTotals(w, id, OrWorld(other), false, unit, amount, walletId, asset);
        }
      case CreateHoldCall(id, unit, amount, other) => CreateHoldTotals(w, id, unit, amount, other, walletId, asset);
      case ConfirmCall(h, amount) => ConfirmTotals(w, h, amount, walletId, asset);
      case VoidCall(h) => VoidTotals(w, h, walletId, asset);
      case LedgerCall(op) => LedgerCallTotals(w, op, walletId, asset);
    }
  }

  /** Credits minus debits minus confirmed amounts over a run. */
  function Flow(calls: seq<Call>, walletId: string, asset: string): int {
    if calls == [] then 0
    else
      Flow(calls[..|calls| - 1], walletId, asset) +
      FlowOf(After(calls[..|calls| - 1]), calls[|calls| - 1], walletId, asset)
  }

  lemma {:induction false} ClientTotalLaw(calls: seq<Call>, walletId: string, asset: string)
    requires AllApart(calls)
    ensures MainSound(After(calls))
    ensures ClientTotal(After(calls), walletId, asset) == Flow(calls, walletId, asset)
  {
    if calls == [] {
      assert AllAllowed(calls);
      RunSound(calls);
      forall ledger, id, unit ensures MainAt(NEW_WORLD, ledger, id, unit) {
        assert Txs(EMPTY, ledger) == [];
      }
    } else {
      var n := |calls| - 1;
      assert forall i :: 0 <= i < n ==> calls[..n][..i] == calls[..i];
      ClientTotalLaw(calls[..n], walletId, asset);
      StepTotals(After(calls[..n]), calls[n], walletId, asset);
    }
  }

  lemma ApartIsUnforged(calls: seq<Call>, account: string, asset: string)
    requires AllApart(calls) && IsWalletAddress(account)
    ensures AllUnforged(calls, account, asset)
  {
    forall i | 0 <= i < |calls| && calls[i].LedgerCall? ensures Unforged(calls[i].op, account, asset) {
      assert Apart(After(calls[..i]), calls[i]);
      if calls[i].op.PostOp? {
        UntouchedNet(Entries(calls[i].op.request.postings), account, asset);
      }
    }
  }

  /** What the reverts of a run took back from the main account of a wallet. */
  function TakenFromMain(calls: seq<Call>, walletId: string, asset: string): int {
    var w := After(calls);
    if walletId in w.wallets then Reversed(calls, w.wallets[walletId].ledger, MainAddress(walletId), asset) else 0
  }

  /** The wallet total law: available plus held equals credits minus debits minus confirmed amounts, plus what ledger
      reverts took back from the main account. */
  lemma TotalLaw(calls: seq<Call>, walletId: string, asset: string)
    requires AllApart(calls)
    ensures MainSound(After(calls))
    ensures TotalOf(After(calls), walletId, asset) ==
            Flow(calls, walletId, asset) + TakenFromMain(calls, walletId, asset)
  {
    hide Reversed, MainSound, Flow;
    ClientTotalLaw(calls, walletId, asset);
    var w := After(calls);
    if walletId in w.wallets {
      assert IsWalletAddress(MainAddress(walletId));
      ApartIsUnforged(calls, MainAddress(walletId), asset);
      RunReversals(calls, w.wallets[walletId].ledger, MainAddress(walletId), asset);
    }
  }

  /** The same law for what GetBalances reports. */
  lemma ReportedTotalLaw(calls: seq<Call>, walletId: string, asset: string)
    requires AllApart(calls) && walletId in After(calls).wallets
    ensures var w := After(calls);
      Reported(w.books, w.wallets[walletId].ledger, MainAddress(walletId), asset) + HeldTotal(w.holds, walletId, asset)
      == Flow(calls, walletId, asset) + TakenFromMain(calls, walletId, asset)
  {
    hide Reversed, Flow, TakenFromMain;
    TotalLaw(calls, walletId, asset);
    var w := After(calls);
    WalletIdOf(w, walletId);
    assert MainAt(w, w.wallets[walletId].ledger, walletId, asset);
    var ops := BooksAreRun(calls);
    ReportedIsReplayed(ops, w.wallets[walletId].ledger, MainAddress(walletId), asset);
  }

  lemma SameWallets(w: World, call: Call, walletId: string)
    requires call.CreateHoldCall? || call.VoidCall?
    ensures Step(w, call).wallets == w.wallets
  {
    hide Post, CreateAccount;
  }

  /** Holding and voiding never change a total. */
  lemma HoldsKeepTotals(calls: seq<Call>, call: Call, walletId: string, asset: string)
    requires AllApart(calls) && Apart(After(calls), call) && (call.CreateHoldCall? || call.VoidCall?)
    ensures TotalOf(Step(After(calls), call), walletId, asset) == TotalOf(After(calls), walletId, asset)
  {
    hide Step, MainSound;
    var w := After(calls);
    ClientTotalLaw(calls, walletId, asset);
    StepTotals(w, call, walletId, asset);
    SameWallets(w, call, walletId);
    if walletId in w.wallets {
      WalletCallReversals(w, call, w.wallets[walletId].ledger, MainAddress(walletId), asset);
    }
  }
}
