/** What the wallet calls answer, record and move, with every address and reference spelled out. */
module WalletAnswers {
  import opened Outcomes
  import opened Decimal
  import opened Text
  import opened LedgerTypes
  import opened Volumes
  import opened Effects
  import opened Ledger
  import LedgerLaws
  import opened LedgerEffects
  import opened LedgerRuns
  import opened LedgerAnswers
  import opened Wallets
  import opened WalletNames
  import opened HoldLaws
  import opened WalletTotals
  import opened WalletRuns

  ghost predicate PaysAt(st: State, st': State, l: string, e: Entry, ledger: string, account: string, asset: string) {
    BalanceOf(st', ledger, account, asset) == BalanceOf(st, ledger, account, asset) +
      if ledger == l then NetOf([e], account, asset) else 0
  }

  /** One entry was paid in this ledger: every balance of every ledger changes by what the entry does to it. */
  ghost predicate Pays(st: State, st': State, l: string, e: Entry) {
    forall ledger, account, asset :: PaysAt(st, st', l, e, ledger, account, asset)
  }

  lemma TookPays(st: State, st': State, l: string, reference: string, e: Entry)
    requires Took(st, st', l, reference, [e])
    ensures Pays(st, st', l, e)
    ensures reference != "" ==> Has(st', l, reference)
  {
    hide BalanceOf, Clean, NetOf, Has;
    forall ledger, account, asset ensures PaysAt(st, st', l, e, ledger, account, asset) {
      assert Shifted(st, st', l, [e], ledger, account, asset);
    }
    assert Referenced(st, st', l, reference, l, reference);
  }

  /** A single posting under a free reference: refused for the first check it fails, or paid. */
  lemma TransferAnswers(st: State, l: string, reference: string, source: string, destination: string, asset: string,
                        amount: string)
    requires reference == "" || !Has(st, l, reference)
    ensures var p := Posting(0, 0, source, destination, asset, amount);
      var (st', r) := Post(st, l, Request(reference, [p]));
      match PostingError(p, 0)
      case Some(e) => st' == st && r == Err(e)
      case None =>
        && r.Ok? && Pays(st, st', l, Entry(source, destination, asset, Value(amount)))
        && (reference != "" ==> Has(st', l, reference))
  {
    hide PostingError, FirstError, Took, Pays, Commit;
    TransferError(reference, source, destination, asset, amount);
    TransferTakes(st, l, reference, source, destination, asset, amount);
    var st' := Post(st, l, Transfer(reference, source, destination, asset, amount)).0;
    if PostingError(Posting(0, 0, source, destination, asset, amount), 0) == None {
      TookPays(st, st', l, reference, Entry(source, destination, asset, Value(amount)));
    }
  }

  /*** Wallets ***/

  /** A new wallet takes the next id, is stored under it, and has a main account of kind asset. */
  lemma CreateAnswers(w: World, ledger: string, name: string)
    ensures var (w', r) := CreateWallet(w, ledger, name);
      var id := "wal_" + Print(w.nextID + 1);
      var wallet, main := Wallet(id, ledger, name), "wallets:" + id + ":main";
      && r == Ok(wallet)
      && w' == w.(books := w'.books, wallets := w.wallets[id := wallet], nextID := w.nextID + 1)
      && AccountAt(w'.books, ledger, main) ==
           (if AccountAt(w.books, ledger, main).Some? then AccountAt(w.books, ledger, main)
            else Some(Account(w.books.nextID + 1, ledger, main, "asset")))
      && w'.books == w.books.(accounts := w'.books.accounts, nextID := w'.books.nextID)
  {
    hide Print, ValidAddress;
    WalletAlwaysCreated(w, ledger, name);
    AccountAnswers(w.books, ledger, MainAddress(WalletId(w.nextID + 1)), "asset");
  }

  /** A credit pays from the source it names, or from world when it names none, to the wallet's main account, and
      changes nothing else; it is refused for an unknown wallet or by the ledger's checks of that posting. */
  lemma CreditAnswers(w: World, id: string, asset: string, amount: string, source: string)
    ensures var (w', r) := Credit(w, id, asset, amount, source);
      var from, main := if source == "" then "world" else source, "wallets:" + id + ":main";
      if id !in w.wallets then w' == w && r == Err(WalletNotFound)
      else match PostingError(Posting(0, 0, from, main, asset, amount), 0)
        case Some(e) => w' == w && r == Err(e)
        case None =>
          && r == Ok(()) && w' == w.(books := w'.books)
          && Pays(w.books, w'.books, w.wallets[id].ledger, Entry(from, main, asset, Value(amount)))
  {
    hide Post, PostingError, Pays;
    if id in w.wallets {
      TransferAnswers(w.books, w.wallets[id].ledger, "", if source == "" then "world" else source,
                      "wallets:" + id + ":main", asset, amount);
    }
  }

  /** A debit pays from the main account to the destination it names, or to world when it names none. */
  lemma DebitAnswers(w: World, id: string, asset: string, amount: string, destination: string)
    ensures var (w', r) := Debit(w, id, asset, amount, destination);
      var main, to := "wallets:" + id + ":main", if destination == "" then "world" else destination;
      if id !in w.wallets then w' == w && r == Err(WalletNotFound)
      else match PostingError(Posting(0, 0, main, to, asset, amount), 0)
        case Some(e) => w' == w && r == Err(e)
        case None =>
          && r == Ok(()) && w' == w.(books := w'.books)
          && Pays(w.books, w'.books, w.wallets[id].ledger, Entry(main, to, asset, Value(amount)))
  {
    hide Post, PostingError, Pays;
    if id in w.wallets {
      TransferAnswers(w.books, w.wallets[id].ledger, "", "wallets:" + id + ":main",
                      if destination == "" then "world" else destination, asset, amount);
    }
  }

  /*** Holds ***/

  predicate PositiveInteger(s: string) {
    Parse(s).Some? && Parse(s).value > 0
  }

  /** The error of a posting between the two accounts of a hold: its addresses always pass. */
  lemma HoldPostingError(w: World, id: string, h: string, asset: string, amount: string, into: bool)
    requires Sound(w) && id in w.wallets && ColonFree(h) && h != ""
    ensures var main, account := "wallets:" + id + ":main", "wallets:" + id + ":hold:" + h;
      PostingError(Posting(0, 0, if into then main else account, if into then account else main, asset, amount), 0) ==
        if asset == "" then Some(BadAsset(0)) else if !PositiveInteger(amount) then Some(BadAmount(0)) else None
  {
    hide ValidAddress, Parse;
    WalletAddresses(w, id, h);
  }

  lemma SameListsPay(st: State, same: State, st': State, l: string, e: Entry)
    requires Unmoved(st, same) && Pays(same, st', l, e)
    ensures Pays(st, st', l, e)
  {
    forall ledger, account, asset ensures PaysAt(st, st', l, e, ledger, account, asset) {
      assert PaysAt(same, st', l, e, ledger, account, asset);
      assert Txs(same, ledger) == Txs(st, ledger);
    }
  }

  lemma UnmovedLists(st: State, st': State)
    requires Unmoved(st, st')
    ensures forall l :: Txs(st', l) == Txs(st, l)
  {
  }

  lemma HoldIsFunded(w: World, named: State, id: string, asset: string, amount: string, destination: string)
    requires Sound(w) && id in w.wallets && Unmoved(w.books, named)
    ensures var (w', r) := FundHold(w, named, id, asset, amount, destination);
      var h, l := "hold_" + Print(w.nextID + 1), w.wallets[id].ledger;
      var main, account := "wallets:" + id + ":main", "wallets:" + id + ":hold:" + h;
      var hold := Hold(h, id, asset, amount, destination, amount, Pending);
      if asset != "" && PositiveInteger(amount) then
        && r == Ok(hold)
        && w' == World(w'.books, w.wallets, w.holds[h := hold], w.nextID + 1, w.confirms[h := []])
        && Pays(w.books, w'.books, l, Entry(main, account, asset, Value(amount)))
        && Has(w'.books, l, "hold:" + h)
      else
        && r == Err(LedgerRefused(if asset == "" then BadAsset(0) else BadAmount(0)))
        && w' == w.(books := named, nextID := w.nextID + 1)
  {
    hide Print, Parse, Pays, Post, Sound, Unmoved;
    var h, l := "hold_" + Print(w.nextID + 1), w.wallets[id].ledger;
    var main, account := "wallets:" + id + ":main", "wallets:" + id + ":hold:" + h;
    IdsAreColonFree(w.nextID + 1);
    HoldReferenceIsFree(w, named, l) by {
      UnmovedLists(w.books, named);
    }
    HoldPostingError(w, id, h, asset, amount, true);
    TransferAnswers(named, l, "hold:" + h, main, account, asset, amount);
    var books := Post(named, l, HoldTransfer(w, id, asset, amount)).0;
    if asset != "" && PositiveInteger(amount) {
      SameListsPay(w.books, named, books, l, Entry(main, account, asset, Value(amount)));
    }
  }

  lemma FundKeepsAccount(w: World, named: State, id: string, asset: string, amount: string, destination: string,
                         account: string)
    requires id in w.wallets && AccountAt(named, w.wallets[id].ledger, account).Some?
    ensures AccountAt(FundHold(w, named, id, asset, amount, destination).0.books, w.wallets[id].ledger, account) ==
            AccountAt(named, w.wallets[id].ledger, account)
  {
    hide Post, AccountAt;
    PostKeepsAccounts(named, w.wallets[id].ledger, HoldTransfer(w, id, asset, amount), account);
  }

  /** A new hold takes the next id, has an account of kind asset, is pending with everything remaining, and its amount
      is paid from the main account to the hold's under "hold:" and its id. When the ledger refuses the payment the id
      is spent and the account stays. */
  lemma HoldAnswers(w: World, id: string, asset: string, amount: string, destination: string)
    requires Sound(w)
    ensures var (w', r) := CreateHold(w, id, asset, amount, destination);
      var h := "hold_" + Print(w.nextID + 1);
      var main, account := "wallets:" + id + ":main", "wallets:" + id + ":hold:" + h;
      var hold := Hold(h, id, asset, amount, destination, amount, Pending);
      && (id !in w.wallets ==> w' == w && r == Err(WalletNotFound))
      && (id in w.wallets ==>
            var l := w.wallets[id].ledger;
            && AccountAt(w'.books, l, account).Some?
            && (AccountAt(w.books, l, account) == None ==>
                  AccountAt(w'.books, l, account) == Some(Account(w.books.nextID + 1, l, account, "asset")))
            && if asset != "" && PositiveInteger(amount) then
                 && r == Ok(hold)
                 && w' == World(w'.books, w.wallets, w.holds[h := hold], w.nextID + 1, w.confirms[h := []])
                 && Pays(w.books, w'.books, l, Entry(main, account, asset, Value(amount)))
                 && Has(w'.books, l, "hold:" + h)
               else
                 && r == Err(LedgerRefused(if asset == "" then BadAsset(0) else BadAmount(0)))
                 && w' == w.(books := w'.books, nextID := w.nextID + 1) && Unmoved(w.books, w'.books))
  {
    hide Print, Parse, Pays, Post, Sound, FundHold, CreateAccount, AccountAt, Unmoved, NoEmptySegment;
    if id in w.wallets {
      var h, l := "hold_" + Print(w.nextID + 1), w.wallets[id].ledger;
      var account := "wallets:" + id + ":hold:" + h;
      HoldAccepted(w, id, asset, amount, destination);
      AccountAnswers(w.books, l, account, "asset");
      NamedQuietly(w, l, account);
      var named := CreateAccount(w.books, l, account, "asset").0;
      HoldIsFunded(w, named, id, asset, amount, destination);
      FundKeepsAccount(w, named, id, asset, amount, destination, account);
    }
  }

  /** A hold's account whose name the ledger refuses, which no reachable world has: the id is spent. */
  lemma HoldUnnamed(w: World, id: string, asset: string, amount: string, destination: string)
    requires id in w.wallets && !NoEmptySegment("wallets:" + id + ":hold:" + ("hold_" + Print(w.nextID + 1)))
    ensures CreateHold(w, id, asset, amount, destination) == (w.(nextID := w.nextID + 1), Err(BadAddress))
  {
    hide Print, ValidAddress, NoEmptySegment, FundHold;
    AccountAnswers(w.books, w.wallets[id].ledger, HoldAddress(id, HoldId(w.nextID + 1)), "asset");
  }

  /** Refusals of an open hold that no reachable world has: its wallet is gone, its Remaining is no integer, or, for a
      void, not positive. */
  lemma BrokenHold(w: World, h: string, amount: string)
    requires h in w.holds && (w.holds[h].status == Pending || w.holds[h].status == Partial)
    ensures var hold := w.holds[h];
      && (hold.walletId !in w.wallets ==>
            ConfirmHold(w, h, amount) == (w, Err(WalletNotFound)) && VoidHold(w, h) == (w, Err(WalletNotFound)))
      && (hold.walletId in w.wallets && Parse(hold.remaining) == None ==>
            ConfirmHold(w, h, amount) == (w, Err(NilRemaining)) && VoidHold(w, h) == (w, Err(NilRemaining)))
      && (hold.walletId in w.wallets && Parse(hold.remaining).Some? && Value(hold.remaining) <= 0 ==>
            VoidHold(w, h) == (w, Err(NothingRemaining)))
  {
    hide Parse, PayConfirmed, PayVoided;
  }

  /** What a confirm call asks for: everything that remains when it names no amount. */
  function Asked(hold: Hold, amount: string): int {
    if amount == "" then Value(hold.remaining) else Value(amount)
  }

  lemma OpenHold(w: World, h: string)
    requires Sound(w) && h in w.holds && w.holds[h].Open()
    ensures HoldError(w, h) == None && h in w.confirms && w.holds[h].walletId in w.wallets
    ensures ColonFree(h) && h != "" && ColonFree(w.holds[h].walletId)
    ensures w.holds[h].asset != "" && Value(w.holds[h].remaining) > 0
    ensures !IsHoldAddress(OrWorld(w.holds[h].destination))
    ensures RefsAt(w, w.wallets[w.holds[h].walletId].ledger, h)
  {
    hide LedgerLaws.Books, RefsAt, NetsAt, IsHoldAddress;
    SoundHold(w, h);
  }

  lemma EmptyIsNoInteger()
    ensures !PositiveInteger("")
  {
  }

  /** The confirms refused before the ledger is asked, in the order of the checks; none changes anything. */
  lemma ConfirmRefusals(w: World, h: string, amount: string)
    requires Sound(w)
    ensures var (w', r) := ConfirmHold(w, h, amount);
      && (h !in w.holds ==> w' == w && r == Err(HoldNotFound))
      && (h in w.holds ==>
            var hold := w.holds[h];
            && (hold.status == Confirmed || hold.status == Voided ==> w' == w && r == Err(HoldClosed))
            && (hold.status == Pending || hold.status == Partial ==>
                  && (amount != "" && !PositiveInteger(amount) ==> w' == w && r == Err(BadConfirmAmount))
                  && (PositiveInteger(amount) && Value(amount) > Value(hold.remaining) ==>
                        w' == w && r == Err(ConfirmExceedsRemaining))))
  {
    hide Sound, Parse, PayConfirmed;
    EmptyIsNoInteger();
    if h in w.holds && w.holds[h].Open() {
      OpenHold(w, h);
    }
  }

  /** The payment of a confirm. */
  lemma ConfirmPosts(w: World, h: string, c: int)
    requires Sound(w) && h in w.holds && w.holds[h].Open() && c > 0
    ensures h in w.confirms && w.holds[h].walletId in w.wallets
    ensures var hold := w.holds[h];
      var l, reference := w.wallets[hold.walletId].ledger, "confirm:" + h + ":" + Print(c);
      var account := "wallets:" + hold.walletId + ":hold:" + h;
      var to := if hold.destination == "" then "world" else hold.destination;
      var (st', r) := Post(w.books, l, Request(reference, [Posting(0, 0, account, to, hold.asset, Print(c))]));
      if c in w.confirms[h] then st' == w.books && r.Ok? && Has(st', l, reference)
      else if !NoEmptySegment(to) then st' == w.books && r == Err(BadDestination(0))
      else r.Ok? && Has(st', l, reference) && Pays(w.books, st', l, Entry(account, to, hold.asset, c))
  {
    hide Print, Parse, Pays, Sound, ValidAddress, NoEmptySegment, HoldSound;
    var hold := w.holds[h];
    OpenHold(w, h);
    var l, reference := w.wallets[hold.walletId].ledger, "confirm:" + h + ":" + Print(c);
    var account := "wallets:" + hold.walletId + ":hold:" + h;
    var to := if hold.destination == "" then "world" else hold.destination;
    assert Has(w.books, l, reference) <==> c in w.confirms[h];
    ParsePrint(c);
    WalletAddresses(w, hold.walletId, h);
    assert IsHoldAddress(account);
    ValidAddressMeaning(to);
    if c !in w.confirms[h] {
      TransferAnswers(w.books, l, reference, account, to, hold.asset, Print(c));
    }
  }

  /** Every other confirm: Remaining falls by the amount asked for. If that amount is new for the hold, it is paid from
      the hold's account to the stored destination, or to world when none is stored, unless the ledger refuses the
      destination; if the hold confirmed it before, nothing is paid. */
  lemma ConfirmAnswers(w: World, h: string, amount: string)
    requires Sound(w) && h in w.holds && (w.holds[h].status == Pending || w.holds[h].status == Partial)
    requires amount == "" || (PositiveInteger(amount) && Value(amount) <= Value(w.holds[h].remaining))
    ensures h in w.confirms && w.holds[h].walletId in w.wallets
    ensures var (w', r) := ConfirmHold(w, h, amount);
      var hold, c := w.holds[h], Asked(w.holds[h], amount);
      var l, left := w.wallets[hold.walletId].ledger, Value(hold.remaining) - c;
      var account := "wallets:" + hold.walletId + ":hold:" + h;
      var to := if hold.destination == "" then "world" else hold.destination;
      var hold' := hold.(remaining := Print(left), status := if left == 0 then Confirmed else Partial);
      if c !in w.confirms[h] && !NoEmptySegment(to) then w' == w && r == Err(LedgerRefused(BadDestination(0)))
      else
        && r == Ok(hold')
        && w' == w.(books := w'.books, holds := w.holds[h := hold'], confirms := w.confirms[h := w.confirms[h] + [c]])
        && Has(w'.books, l, "confirm:" + h + ":" + Print(c))
        && if c in w.confirms[h] then w'.books == w.books
           else Pays(w.books, w'.books, l, Entry(account, to, hold.asset, c))
  {
    hide Print, Parse, Pays, Post, Sound, ValidAddress, NoEmptySegment, HoldSound;
    OpenHold(w, h);
    ConfirmPosts(w, h, Asked(w.holds[h], amount));
  }

  /** A void returns all that remains of an open hold to the main account under "void:" and its id, and closes it. */
  lemma VoidAnswers(w: World, h: string)
    requires Sound(w)
    ensures var (w', r) := VoidHold(w, h);
      && (h !in w.holds ==> w' == w && r == Err(HoldNotFound))
      && (h in w.holds ==>
            var hold := w.holds[h];
            && (hold.status == Confirmed || hold.status == Voided ==> w' == w && r == Err(HoldClosed))
            && (hold.status == Pending || hold.status == Partial ==>
                  var hold' := hold.(remaining := "0", status := Voided);
                  && hold.walletId in w.wallets
                  && r == Ok(hold') && w' == w.(books := w'.books, holds := w.holds[h := hold'])
                  && var l, id := w.wallets[hold.walletId].ledger, hold.walletId;
                     && Has(w'.books, l, "void:" + h)
                     && Pays(w.books, w'.books, l, Entry("wallets:" + id + ":hold:" + h, "wallets:" + id + ":main",
                                                         hold.asset, Value(hold.remaining)))))
  {
    hide Print, Parse, Pays, Post, Sound, HoldSound;
    if h in w.holds && w.holds[h].Open() {
      var hold := w.holds[h];
      OpenHold(w, h);
      var l, id := w.wallets[hold.walletId].ledger, hold.walletId;
      VoidIsFresh(w, h);
      ParsePrint(Value(hold.remaining));
      HoldPostingError(w, id, h, hold.asset, Print(Value(hold.remaining)), false);
      TransferAnswers(w.books, l, "void:" + h, "wallets:" + id + ":hold:" + h, "wallets:" + id + ":main", hold.asset,
                      Print(Value(hold.remaining)));
    }
  }
}
