/** The wallet service: its maps and counter updated in place, each call equal to the wallet functions. */
module WalletService {
  import opened Outcomes
  import opened Decimal
  import opened LedgerTypes
  import opened Ledger
  import opened MemStore
  import LedgerService
  import opened Wallets
  import opened HoldLaws
  import opened WalletTotals
  import opened WalletRuns

  datatype WalletBalance = WalletBalance(asset: string, available: string, held: string, total: string)

  function MakeRow(asset: string, available: int, held: int): WalletBalance {
    WalletBalance(asset, Print(available), Print(held), Print(available + held))
  }

  /** The row a wallet shows for one asset of its main account. */
  ghost function WalletRow(w: World, walletId: string, asset: string): WalletBalance
    requires walletId in w.wallets
  {
    var available := Reported(w.books, w.wallets[walletId].ledger, MainAddress(walletId), asset);
    var held := HeldTotal(w.holds, walletId, asset);
    MakeRow(asset, available, held)
  }

  function TotalFor(totals: map<string, int>, asset: string): int {
    if asset in totals then totals[asset] else 0
  }

  predicate Listed(rows: seq<WalletBalance>, asset: string) {
    exists i :: 0 <= i < |rows| && rows[i].asset == asset
  }

  /** Exactly one row per asset with a move on the main account, each as WalletRow says. */
  ghost predicate ShowsWallet(rows: seq<WalletBalance>, w: World, walletId: string)
    requires walletId in w.wallets
  {
    && (forall i :: 0 <= i < |rows| ==> rows[i] == WalletRow(w, walletId, rows[i].asset))
    && (forall i, j :: 0 <= i < j < |rows| ==> rows[i].asset != rows[j].asset)
    && (forall asset :: LatestMove(w.books.moves, w.wallets[walletId].ledger, MainAddress(walletId), asset).Some? ==>
          Listed(rows, asset))
  }

  /** What a row says: the main account's balance as the ledger reports it, the Remaining of the wallet's open holds
      summed, and the sum of the two, each printed. */
  ghost predicate RowTells(row: WalletBalance, w: World, walletId: string)
    requires walletId in w.wallets
  {
    var available := Reported(w.books, w.wallets[walletId].ledger, "wallets:" + walletId + ":main", row.asset);
    var held := HeldTotal(w.holds, walletId, row.asset);
    && Value(row.available) == available && row.available == Print(available)
    && Value(row.held) == held && row.held == Print(held)
    && Value(row.total) == available + held && row.total == Print(available + held)
  }

  lemma RowsTell(rows: seq<WalletBalance>, w: World, walletId: string)
    requires walletId in w.wallets && ShowsWallet(rows, w, walletId)
    ensures forall i :: 0 <= i < |rows| ==> RowTells(rows[i], w, walletId)
  {
    hide Print, Parse, Reported, HeldTotal;
    forall i | 0 <= i < |rows| ensures RowTells(rows[i], w, walletId) {
      var available := Reported(w.books, w.wallets[walletId].ledger, MainAddress(walletId), rows[i].asset);
      var held := HeldTotal(w.holds, walletId, rows[i].asset);
      assert rows[i] == WalletRow(w, walletId, rows[i].asset);
      ParsePrint(available);
      ParsePrint(held);
      ParsePrint(available + held);
    }
  }

  /** The shown total over any run: credits minus debits minus confirmed amounts, plus what ledger reverts took back
      from the main account. */
  lemma ShownTotalLaw(calls: seq<Call>, walletId: string, rows: seq<WalletBalance>, i: nat)
    requires AllApart(calls) && walletId in After(calls).wallets && ShowsWallet(rows, After(calls), walletId)
    requires i < |rows|
    ensures Value(rows[i].total) == Flow(calls, walletId, rows[i].asset) + TakenFromMain(calls, walletId, rows[i].asset)
    ensures Value(rows[i].total) == Value(rows[i].available) + Value(rows[i].held)
  {
    hide ShowsWallet, AllApart, After, HeldTotal, Reported;
    RowsTell(rows, After(calls), walletId);
    assert RowTells(rows[i], After(calls), walletId);
    ReportedTotalLaw(calls, walletId, rows[i].asset);
  }

  lemma TotalsStep(before: map<string, int>, after: map<string, int>, holds: map<string, Hold>, done: set<string>,
                   h: string,
                   walletId: string)
    requires h in holds && h !in done
    requires forall asset :: TotalFor(before, asset) == SumOver(done, HeldBy(holds, walletId, asset))
    requires forall asset :: TotalFor(after, asset) == TotalFor(before, asset) + Share(holds[h], walletId, asset)
    ensures forall asset :: TotalFor(after, asset) == SumOver(done + {h}, HeldBy(holds, walletId, asset))
  {
    forall asset ensures TotalFor(after, asset) == SumOver(done + {h}, HeldBy(holds, walletId, asset)) {
      SumPick(done + {h}, HeldBy(holds, walletId, asset), h);
      assert done + {h} - {h} == done;
    }
  }

  lemma BalanceValue(st: State, ledger: string, account: string, asset: string)
    ensures Value(BalanceRow(st.moves, ledger, account, asset).balance) == Reported(st, ledger, account, asset)
  {
    var n := Reported(st, ledger, account, asset);
    assert BalanceRow(st.moves, ledger, account, asset).balance == Print(n);
    ParsePrint(n);
  }

  lemma RowBuilt(w: World, walletId: string, row: AccountBalance, held: int)
    requires walletId in w.wallets && held == HeldTotal(w.holds, walletId, row.asset)
    requires row == BalanceRow(w.books.moves, w.wallets[walletId].ledger, MainAddress(walletId), row.asset)
    ensures MakeRow(row.asset, Value(row.balance), held) == WalletRow(w, walletId, row.asset)
  {
    var available := Reported(w.books, w.wallets[walletId].ledger, MainAddress(walletId), row.asset);
    BalanceValue(w.books, w.wallets[walletId].ledger, MainAddress(walletId), row.asset);
    assert Value(row.balance) == available;
  }

  lemma ShowsAll(main: seq<AccountBalance>, totals: map<string, int>, rows: seq<WalletBalance>, w: World,
                 walletId: string)
    requires walletId in w.wallets && |rows| == |main|
    requires ListsBalances(main, w.books.moves, w.wallets[walletId].ledger, MainAddress(walletId))
    requires forall asset :: TotalFor(totals, asset) == HeldTotal(w.holds, walletId, asset)
    requires forall k :: 0 <= k < |rows| ==>
      rows[k] == MakeRow(main[k].asset, Value(main[k].balance), TotalFor(totals, main[k].asset))
    ensures ShowsWallet(rows, w, walletId)
  {
    forall k | 0 <= k < |rows|
      ensures rows[k].asset == main[k].asset && rows[k] == WalletRow(w, walletId, rows[k].asset)
    {
      RowBuilt(w, walletId, main[k], TotalFor(totals, main[k].asset));
    }
    forall asset | LatestMove(w.books.moves, w.wallets[walletId].ledger, MainAddress(walletId), asset).Some?
      ensures Listed(rows, asset)
    {
      assert HasRow(main, asset);
      var k :| 0 <= k < |main| && main[k].asset == asset;
      assert rows[k].asset == asset;
    }
  }

  class Service {
    const ledger: LedgerService.Service
    var wallets: map<string, Wallet>
    var holds: map<string, Hold>
    var nextID: int
    ghost var confirms: map<string, seq<int>>
    ghost var history: seq<Call>

    ghost function View(): World
      reads this, ledger, ledger.store
    {
      World(ledger.store.View(), wallets, holds, nextID, confirms)
    }

    /** The service and the ledger below hold exactly what the calls so far leave behind. */
    ghost predicate Valid()
      reads this, ledger, ledger.store
    {
      ledger.Valid() && View() == After(history)
    }

    constructor (ledger: LedgerService.Service)
      requires ledger.Valid() && ledger.store.View() == EMPTY
      ensures this.ledger == ledger && Valid() && View() == NEW_WORLD && history == []
    {
      this.ledger := ledger;
      wallets, holds, nextID, confirms, history := map[], map[], 0, map[], [];
    }

    /** Enters a finished call into the history: one of this service, or one that somebody else made on the shared
        ledger. */
    ghost method Enter(call: Call)
      requires ledger.Valid() && View() == Step(After(history), call)
      modifies `history
      ensures Valid() && history == old(history) + [call]
    {
      history := history + [call];
      assert history[..|history| - 1] == old(history);
    }

    method GenID(prefix: string) returns (id: string)
      modifies `nextID
      ensures nextID == old(nextID) + 1 && id == prefix + "_" + Print(nextID)
    {
      nextID := nextID + 1;
      id := prefix + "_" + Print(nextID);
    }

    method CreateWallet(ledgerName: string, name: string) returns (r: Result<Wallet>)
      requires Valid()
      modifies this, ledger, ledger.store
      ensures Valid() && history == old(history) + [CreateWalletCall(ledgerName, name)]
      ensures (View(), r) == Wallets.CreateWallet(old(View()), ledgerName, name)
    {
      r := OpenWallet(ledgerName, name);
      Enter(CreateWalletCall(ledgerName, name));
    }

    method OpenWallet(ledgerName: string, name: string) returns (r: Result<Wallet>)
      requires ledger.Valid()
      modifies `wallets, `nextID, ledger, ledger.store
      ensures ledger.Valid() && (View(), r) == Wallets.CreateWallet(old(View()), ledgerName, name)
    {
      var id := GenID("wal");
      assert id == WalletId(nextID);
      var account := ledger.CreateAccount(ledgerName, "wallets:" + id + ":main", "asset");
      if account.Err? {
        return Err(LedgerRefused(account.error));
      }
      var wallet := Wallet(id, ledgerName, name);
      wallets := wallets[id := wallet];
      r := Ok(wallet);
    }

    method Credit(walletId: string, asset: string, amount: string, source: string) returns (r: Result<()>)
      requires Valid()
      modifies this`history, ledger, ledger.store
      ensures Valid() && history == old(history) + [CreditCall(walletId, asset, amount, source)]
      ensures (View(), r) == Wallets.Credit(old(View()), walletId, asset, amount, source)
    {
      history := history + [CreditCall(walletId, asset, amount, source)];
      assert history[..|history| - 1] == old(history);
      if walletId !in wallets {
        return Err(WalletNotFound);
      }
      var from := source;
      if from == "" {
        from := "world";
      }
      var tx := ledger.PostTransaction(wallets[walletId].ledger,
                                       Transfer("", from, "wallets:" + walletId + ":main", asset, amount));
      r := if tx.Ok? then Ok(()) else Err(tx.error);
    }

    method Debit(walletId: string, asset: string, amount: string, destination: string) returns (r: Result<()>)
      requires Valid()
      modifies this`history, ledger, ledger.store
      ensures Valid() && history == old(history) + [DebitCall(walletId, asset, amount, destination)]
      ensures (View(), r) == Wallets.Debit(old(View()), walletId, asset, amount, destination)
    {
      history := history + [DebitCall(walletId, asset, amount, destination)];
      assert history[..|history| - 1] == old(history);
      if walletId !in wallets {
        return Err(WalletNotFound);
      }
      var to := destination;
      if to == "" {
        to := "world";
      }
      var tx := ledger.PostTransaction(wallets[walletId].ledger,
                                       Transfer("", "wallets:" + walletId + ":main", to, asset, amount));
      r := if tx.Ok? then Ok(()) else Err(tx.error);
    }

    method CreateHold(walletId: string, asset: string, amount: string, destination: string) returns (r: Result<Hold>)
      requires Valid()
      modifies this, ledger, ledger.store
      ensures Valid() && history == old(history) + [CreateHoldCall(walletId, asset, amount, destination)]
      ensures (View(), r) == Wallets.CreateHold(old(View()), walletId, asset, amount, destination)
    {
      r := OpenHold(walletId, asset, amount, destination);
      Enter(CreateHoldCall(walletId, asset, amount, destination));
    }

    method OpenHold(walletId: string, asset: string, amount: string, destination: string) returns (r: Result<Hold>)
      requires ledger.Valid()
      modifies `holds, `nextID, `confirms, ledger, ledger.store
      ensures ledger.Valid() && (View(), r) == Wallets.CreateHold(old(View()), walletId, asset, amount, destination)
    {
      hide Post, CreateAccount;
      if walletId !in wallets {
        return Err(WalletNotFound);
      }
      var ledgerName := wallets[walletId].ledger;
      var id := GenID("hold");
      assert id == HoldId(nextID);
      var mainAddr, holdAddr := "wallets:" + walletId + ":main", "wallets:" + walletId + ":hold:" + id;
      var account := ledger.CreateAccount(ledgerName, holdAddr, "asset");
      if account.Err? {
        return Err(account.error);
      }
      var tx := ledger.PostTransaction(ledgerName, Transfer("hold:" + id, mainAddr, holdAddr, asset, amount));
      if tx.Err? {
        return Err(LedgerRefused(tx.error));
      }
      var hold := Hold(id, walletId, asset, amount, destination, amount, Pending);
      holds := holds[id := hold];
      confirms := confirms[id := []];
      r := Ok(hold);
    }

    method ConfirmHold(holdId: string, amount: string) returns (r: Result<Hold>)
      requires Valid()
      modifies this, ledger, ledger.store
      ensures Valid() && history == old(history) + [ConfirmCall(holdId, amount)]
      ensures (View(), r) == Wallets.ConfirmHold(old(View()), holdId, amount)
    {
      history := history + [ConfirmCall(holdId, amount)];
      assert history[..|history| - 1] == old(history);
      if holdId !in holds {
        return Err(HoldNotFound);
      }
      var hold := holds[holdId];
      if hold.status != Pending && hold.status != Partial {
        return Err(HoldClosed);
      }
      if hold.walletId !in wallets {
        return Err(WalletNotFound);
      }
      var parsed := Parse(hold.remaining);
      if parsed == None {
        return Err(NilRemaining);
      }
      var remaining := parsed.value;
      var confirmed := remaining;
      if amount != "" {
        var asked := Parse(amount);
        if asked == None || asked.value <= 0 {
          return Err(BadConfirmAmount);
        }
        if asked.value > remaining {
          return Err(ConfirmExceedsRemaining);
        }
        confirmed := asked.value;
      }
      assert ConfirmAmount(remaining, amount) == Ok(confirmed);
      r := PayConfirmed(holdId, confirmed);
    }

    method PayConfirmed(holdId: string, confirmed: int) returns (r: Result<Hold>)
      requires ledger.Valid() && HoldError(View(), holdId) == None
      modifies `holds, `confirms, ledger, ledger.store
      ensures ledger.Valid() && (View(), r) == Wallets.PayConfirmed(old(View()), holdId, confirmed)
    {
      var hold := holds[holdId];
      var destination := hold.destination;
      if destination == "" {
        destination := "world";
      }
      var tx := ledger.PostTransaction(wallets[hold.walletId].ledger,
        Transfer("confirm:" + holdId + ":" + Print(confirmed), "wallets:" + hold.walletId + ":hold:" + holdId,
                 destination, hold.asset, Print(confirmed)));
      if tx.Err? {
        return Err(LedgerRefused(tx.error));
      }
      var left := Value(hold.remaining) - confirmed;
      hold := hold.(remaining := Print(left), status := if left == 0 then Confirmed else Partial);
      holds := holds[holdId := hold];
      confirms := confirms[holdId := (if holdId in confirms then confirms[holdId] else []) + [confirmed]];
      r := Ok(hold);
    }

    method VoidHold(holdId: string) returns (r: Result<Hold>)
      requires Valid()
      modifies this, ledger, ledger.store
      ensures Valid() && history == old(history) + [VoidCall(holdId)]
      ensures (View(), r) == Wallets.VoidHold(old(View()), holdId)
    {
      hide Post, Print, Parse;
      history := history + [VoidCall(holdId)];
      assert history[..|history| - 1] == old(history);
      if holdId !in holds {
        return Err(HoldNotFound);
      }
      var hold := holds[holdId];
      if hold.status != Pending && hold.status != Partial {
        return Err(HoldClosed);
      }
      if hold.walletId !in wallets {
        return Err(WalletNotFound);
      }
      var ledgerName := wallets[hold.walletId].ledger;
      var parsed := Parse(hold.remaining);
      if parsed == None {
        return Err(NilRemaining);
      }
      if parsed.value <= 0 {
        return Err(NothingRemaining);
      }
      var tx := ledger.PostTransaction(ledgerName,
        Transfer("void:" + holdId, "wallets:" + hold.walletId + ":hold:" + holdId,
                 "wallets:" + hold.walletId + ":main", hold.asset, Print(parsed.value)));
      if tx.Err? {
        return Err(LedgerRefused(tx.error));
      }
      hold := hold.(remaining := "0", status := Voided);
      holds := holds[holdId := hold];
      r := Ok(hold);
    }

    /** Sums the open holds of a wallet per asset, visiting the hold map in any order. */
    method HeldTotals(walletId: string) returns (totals: map<string, int>)
      ensures forall asset :: TotalFor(totals, asset) == HeldTotal(holds, walletId, asset)
    {
      totals := map[];
      var left := holds.Keys;
      ghost var done: set<string> := {};
      while left != {}
        invariant left <= holds.Keys && done == holds.Keys - left
        invariant forall asset :: TotalFor(totals, asset) == SumOver(done, HeldBy(holds, walletId, asset))
        decreases left
      {
        var h :| h in left;
        var hold := holds[h];
        ghost var before := totals;
        if hold.walletId == walletId && (hold.status == Pending || hold.status == Partial) {
          var remaining := Parse(hold.remaining);
          if remaining.Some? {
            totals := totals[hold.asset := TotalFor(totals, hold.asset) + remaining.value];
          }
        }
        TotalsStep(before, totals, holds, done, h, walletId);
        left := left - {h};
        done := done + {h};
      }
      assert done == holds.Keys;
    }

    /** One row per asset of the main account: available, held and their sum. */
    method GetBalances(walletId: string) returns (r: Result<seq<WalletBalance>>)
      ensures walletId !in wallets ==> r == Err(WalletNotFound)
      ensures walletId in wallets ==> r.Ok? && ShowsWallet(r.value, View(), walletId)
      ensures walletId in wallets ==> forall i :: 0 <= i < |r.value| ==> RowTells(r.value[i], View(), walletId)
    {
      hide Print, RowTells, ShowsWallet, After, HeldTotal;
      if walletId !in wallets {
        return Err(WalletNotFound);
      }
      var ledgerName := wallets[walletId].ledger;
      var main := ledger.GetAccountBalances(ledgerName, "wallets:" + walletId + ":main");
      var totals := HeldTotals(walletId);
      var rows: seq<WalletBalance> := [];
      for i := 0 to |main|
        invariant |rows| == i
        invariant forall k :: 0 <= k < i ==>
          rows[k] == MakeRow(main[k].asset, Value(main[k].balance), TotalFor(totals, main[k].asset))
      {
        var available := Value(main[i].balance);
        var held := TotalFor(totals, main[i].asset);
        rows := rows + [MakeRow(main[i].asset, available, held)];
      }
      ShowsAll(main, totals, rows, View(), walletId);
      RowsTell(rows, View(), walletId);
      r := Ok(rows);
    }
  }

  /** In any run of allowed calls, GetBalances lists every asset in which the wallet holds anything. */
  lemma HeldIsListed(calls: seq<Call>, walletId: string, rows: seq<WalletBalance>, asset: string)
    requires AllAllowed(calls) && walletId in After(calls).wallets && ShowsWallet(rows, After(calls), walletId)
    requires HeldTotal(After(calls).holds, walletId, asset) != 0
    ensures Listed(rows, asset)
  {
    HeldIsSeen(calls, walletId, asset);
  }
}
