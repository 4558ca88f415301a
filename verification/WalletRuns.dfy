/** Which wallet calls succeed, and what runs of them show. */
module WalletRuns {
  import opened Outcomes
  import opened Decimal
  import opened Text
  import opened LedgerTypes
  import opened Volumes
  import opened Effects
  import opened Ledger
  import opened LedgerSteps
  import opened LedgerLaws
  import opened LedgerEffects
  import opened Wallets
  import opened WalletNames
  import opened HoldLaws
  import opened WalletTotals
  import opened MemStore

  /*** Acceptance ***/

  /** The name of a new wallet's account always passes validation, so creating a wallet never fails. */
  lemma WalletAlwaysCreated(w: World, ledger: string, name: string)
    ensures CreateWallet(w, ledger, name).1.Ok?
  {
    IdsAreColonFree(w.nextID + 1);
    NamesAreValid(WalletId(w.nextID + 1), HoldId(w.nextID + 1));
  }

  lemma TransferError(reference: string, source: string, destination: string, asset: string, amount: string)
    ensures FirstError(Transfer(reference, source, destination, asset, amount).postings) ==
            PostingError(Posting(0, 0, source, destination, asset, amount), 0)
  {
    var ps := Transfer(reference, source, destination, asset, amount).postings;
    assert ps[..0] == [];
  }

  /** A wallet's own addresses, for a hold of this id, are valid and distinct. */
  lemma WalletAddresses(w: World, walletId: string, h: string)
    requires Sound(w) && walletId in w.wallets && ColonFree(h) && h != ""
    ensures ValidAddress(MainAddress(walletId)) && ValidAddress(HoldAddress(walletId, h))
    ensures MainAddress(walletId) != HoldAddress(walletId, h)
  {
    assert IssuedWallet(walletId, w.nextID);
    var n :| 0 < n <= w.nextID && walletId == WalletId(n);
    IdsAreColonFree(n);
    NamesAreValid(walletId, h);
    MainIsNotHold(walletId, walletId, h);
  }

  /** The reference of the next hold is still free in every ledger. */
  lemma HoldReferenceIsFree(w: World, named: State, ledger: string)
    requires Sound(w) && forall l :: Txs(named, l) == Txs(w.books, l)
    ensures !Has(named, ledger, HoldReference(HoldId(w.nextID + 1)))
  {
    FreshHold(w);
    assert RefsAt(w, ledger, HoldId(w.nextID + 1));
  }

  /** The account step of CreateHold is never refused, and the call succeeds exactly on a known wallet, a named asset
      and a positive integer amount. */
  lemma HoldAccepted(w: World, walletId: string, asset: string, amount: string, other: string)
    requires Sound(w)
    ensures walletId in w.wallets ==>
      CreateAccount(w.books, w.wallets[walletId].ledger, HoldAddress(walletId, HoldId(w.nextID + 1)), "asset").1.Ok?
    ensures CreateHold(w, walletId, asset, amount, other).1.Ok? <==>
      walletId in w.wallets && asset != "" && Parse(amount).Some? && Value(amount) > 0
  {
    if walletId in w.wallets {
      var h, l := HoldId(w.nextID + 1), w.wallets[walletId].ledger;
      IdsAreColonFree(w.nextID + 1);
      WalletAddresses(w, walletId, h);
      var named := CreateAccount(w.books, l, HoldAddress(walletId, h), "asset").0;
      PutAccountKeepsBooks(w.books, l, HoldAddress(walletId, h), "asset");
      HoldReferenceIsFree(w, named, l);
      TransferError(HoldReference(h), MainAddress(walletId), HoldAddress(walletId, h), asset, amount);
    }
  }

  lemma ConfirmPays(w: World, h: string, confirmed: int)
    requires Sound(w) && HoldError(w, h) == None && confirmed > 0
    ensures PayConfirmed(w, h, confirmed).1.Ok? <==>
      confirmed in w.confirms[h] || ValidAddress(OrWorld(w.holds[h].destination))
  {
    hide ValidAddress, Print;
    var hold := w.holds[h];
    var source, destination := HoldAddress(hold.walletId, h), OrWorld(hold.destination);
    assert HoldSound(w, h);
    IssuedIsColonFree(w, h);
    IssuedIsColonFree(w, hold.walletId);
    WalletAddresses(w, hold.walletId, h);
    assert RefsAt(w, w.wallets[hold.walletId].ledger, h);
    assert IsHoldAddress(source);
    ParsePrint(confirmed);
    KindsDiffer(h, h, confirmed);
    TransferError(ConfirmReference(h, confirmed), source, destination, hold.asset, Print(confirmed));
  }

  /** A confirm succeeds exactly on an open hold and an acceptable amount, if the hold's destination is a valid
      address or the same amount was confirmed before. */
  lemma ConfirmAccepted(w: World, h: string, amount: string)
    requires Sound(w)
    ensures ConfirmHold(w, h, amount).1.Ok? <==>
      && HoldError(w, h) == None
      && ConfirmAmount(Value(w.holds[h].remaining), amount).Ok?
      && (ConfirmAmount(Value(w.holds[h].remaining), amount).value in w.confirms[h] ||
          ValidAddress(OrWorld(w.holds[h].destination)))
  {
    if HoldError(w, h) == None && ConfirmAmount(Value(w.holds[h].remaining), amount).Ok? {
      ConfirmPays(w, h, ConfirmAmount(Value(w.holds[h].remaining), amount).value);
    }
  }

  /** A void succeeds exactly on an open hold: what remains is then positive, the addresses valid and the reference
      free. */
  lemma VoidAccepted(w: World, h: string)
    requires Sound(w)
    ensures VoidHold(w, h).1.Ok? <==> HoldError(w, h) == None
  {
    if HoldError(w, h) == None {
      var hold := w.holds[h];
      assert HoldSound(w, h);
      IssuedIsColonFree(w, h);
      WalletAddresses(w, hold.walletId, h);
      ParsePrint(Value(hold.remaining));
      TransferError(VoidReference(h), HoldAddress(hold.walletId, h), MainAddress(hold.walletId), hold.asset,
                    Print(Value(hold.remaining)));
    }
  }

  /*** The same amount confirmed twice ***/

  /** What the ledger's transactions put on the account of a hold. */
  function HoldContent(w: World, h: string): int
    requires h in w.holds && w.holds[h].walletId in w.wallets
  {
    var hold := w.holds[h];
    BalanceOf(w.books, w.wallets[hold.walletId].ledger, HoldAddress(hold.walletId, h), hold.asset)
  }

  /** What reversals put on it. */
  function HoldReversals(w: World, h: string): int
    requires h in w.holds && w.holds[h].walletId in w.wallets
  {
    var hold := w.holds[h];
    ReversalPart(w.books, w.wallets[hold.walletId].ledger, HoldAddress(hold.walletId, h), hold.asset)
  }

  lemma ContentOf(w: World, h: string)
    requires Sound(w) && h in w.holds
    ensures HoldSound(w, h)
    ensures HoldContent(w, h) == Value(w.holds[h].remaining) + Repeated(w.confirms[h]) + HoldReversals(w, h)
  {
    hide Print;
    SoundHold(w, h);
    var hold := w.holds[h];
    assert NetsAt(w, w.wallets[hold.walletId].ledger, hold.walletId, h, hold.asset);
  }

  /** The hold after one confirm of c, if something remains. */
  ghost predicate Lowered(w: World, w': World, h: string, c: int)
    requires h in w.holds && h in w.confirms
  {
    && h in w'.holds && h in w'.confirms && w'.wallets == w.wallets
    && w'.holds[h] == w.holds[h].(remaining := Print(Value(w.holds[h].remaining) - c), status := w'.holds[h].status)
    && (Value(w.holds[h].remaining) > c ==> w'.holds[h].Open())
    && w'.confirms[h] == w.confirms[h] + [c]
  }

  lemma ConfirmLowers(w: World, h: string, amount: string)
    requires Sound(w) && HoldError(w, h) == None
    requires Parse(amount).Some? && 0 < Value(amount) <= Value(w.holds[h].remaining)
    requires Value(amount) in w.confirms[h] || ValidAddress(OrWorld(w.holds[h].destination))
    ensures var (w', r) := ConfirmHold(w, h, amount);
      r.Ok? && Sound(w') && Lowered(w, w', h, Value(amount))
  {
    assert ConfirmAmount(Value(w.holds[h].remaining), amount) == Ok(Value(amount)) by { assert Parse("") == None; }
    ConfirmAccepted(w, h, amount);
    ConfirmOutcome(w, h, amount);
    ConfirmHoldSound(w, h, amount);
  }

  lemma ConfirmKeepsReversals(w: World, w': World, h: string, amount: string, c: int)
    requires h in w.holds && h in w.confirms && w.holds[h].walletId in w.wallets
    requires w' == ConfirmHold(w, h, amount).0 && Lowered(w, w', h, c)
    ensures HoldReversals(w', h) == HoldReversals(w, h)
  {
    hide ConfirmHold, ReversalPart, Print;
    var hold := w.holds[h];
    ConfirmReversals(w, h, amount, w.wallets[hold.walletId].ledger, HoldAddress(hold.walletId, h), hold.asset);
  }

  lemma RepeatedTwice(amounts: seq<int>, c: int)
    requires c !in amounts
    ensures Repeated(amounts + [c] + [c]) == Repeated(amounts) + c
  {
    RepeatedAppend(amounts, c);
    RepeatedAppend(amounts + [c], c);
  }

  lemma TwiceContent(w: World, w1: World, w2: World, h: string, c: int)
    requires Sound(w) && Sound(w2) && h in w.holds && h in w.confirms && c !in w.confirms[h]
    requires Lowered(w, w1, h, c) && Lowered(w1, w2, h, c)
    requires Value(w2.holds[h].remaining) == Value(w.holds[h].remaining) - 2 * c
    requires w.holds[h].walletId in w.wallets && HoldReversals(w2, h) == HoldReversals(w, h)
    ensures HoldContent(w2, h) == HoldContent(w, h) - c
  {
    ContentOf(w, h);
    ContentOf(w2, h);
    RepeatedTwice(w.confirms[h], c);
  }

  /** Confirming a new amount twice: Remaining falls by twice the amount, and the ledger pays it out once. */
  lemma ConfirmedTwice(w: World, h: string, amount: string)
    requires Sound(w) && HoldError(w, h) == None && ValidAddress(OrWorld(w.holds[h].destination))
    requires Parse(amount).Some? && 0 < Value(amount) && 2 * Value(amount) <= Value(w.holds[h].remaining)
    requires Value(amount) !in w.confirms[h]
    ensures var (w1, r1) := ConfirmHold(w, h, amount);
      var (w2, r2) := ConfirmHold(w1, h, amount);
      && r1.Ok? && r2.Ok? && h in w2.holds && w2.holds[h].walletId in w2.wallets
      && Value(w2.holds[h].remaining) == Value(w.holds[h].remaining) - 2 * Value(amount)
      && HoldContent(w2, h) == HoldContent(w, h) - Value(amount)
  {
    hide ConfirmHold, HoldContent, HoldReversals, Print;
    var c, remaining := Value(amount), Value(w.holds[h].remaining);
    var w1 := ConfirmHold(w, h, amount).0;
    var w2 := ConfirmHold(w1, h, amount).0;
    ConfirmLowers(w, h, amount);
    ParsePrint(remaining - c);
    ConfirmLowers(w1, h, amount);
    ParsePrint(remaining - c - c);
    ConfirmKeepsReversals(w, w1, h, amount, c);
    ConfirmKeepsReversals(w1, w2, h, amount, c);
    TwiceContent(w, w1, w2, h, c);
  }

  /*** A run that shows it ***/

  lemma AfterMore(calls: seq<Call>, call: Call)
    ensures After(calls + [call]) == Step(After(calls), call)
    ensures AllAllowed(calls) && Allowed(After(calls), call) ==> AllAllowed(calls + [call])
  {
    var more := calls + [call];
    assert more[..|calls|] == calls;
    if AllAllowed(calls) && Allowed(After(calls), call) {
      forall i | 0 <= i < |more| ensures Allowed(After(more[..i]), more[i]) {
        if i < |calls| {
          assert more[..i] == calls[..i] && more[i] == calls[i];
        }
      }
    }
  }

  lemma OneWallet(ledger: string, wallet: Call) returns (w: World)
    requires wallet == CreateWalletCall(ledger, "")
    ensures w == After([wallet]) && AllAllowed([wallet]) && Sound(w)
    ensures w.nextID == 1 && WalletId(1) in w.wallets && w.wallets[WalletId(1)].ledger == ledger
    ensures Txs(w.books, ledger) == []
  {
    hide CreateHold, FundHold, ConfirmHold, VoidHold, Print;
    assert [] + [wallet] == [wallet];
    AfterMore([], wallet);
    WalletAlwaysCreated(NEW_WORLD, ledger, "");
    w := After([wallet]);
    PutAccountKeepsBooks(EMPTY, ledger, MainAddress(WalletId(1)), "asset");
    assert Txs(EMPTY, ledger) == [];
    RunSound([wallet]);
  }

  lemma NewHoldShows(w: World, walletId: string, asset: string, amount: string, other: string)
    requires CreateHold(w, walletId, asset, amount, other).1.Ok?
    ensures var (w', r) := CreateHold(w, walletId, asset, amount, other);
      var h := HoldId(w.nextID + 1);
      && walletId in w'.wallets && h in w'.holds && h in w'.confirms && w'.confirms[h] == []
      && w'.holds[h].walletId == walletId && w'.holds[h].Open()
      && w'.holds[h].remaining == amount && w'.holds[h].amount == amount && w'.holds[h].destination == other
      && w'.holds[h].asset == asset && w'.wallets == w.wallets
  {
  }

  /** The transaction that moved a hold's amount from the main account to the hold's. */
  ghost predicate IsFunding(tx: Transaction, w: World, h: string)
    requires h in w.holds
  {
    var hold := w.holds[h];
    && !tx.reverted && tx.reference == HoldReference(h)
    && Entries(tx.postings) ==
       [Entry(MainAddress(hold.walletId), HoldAddress(hold.walletId, h), hold.asset, Value(hold.amount))]
  }

  lemma FundingStored(w: World, walletId: string, asset: string, amount: string, other: string)
    returns (tx: Transaction)
    requires Sound(w) && CreateHold(w, walletId, asset, amount, other).1.Ok?
    ensures var w', h := CreateHold(w, walletId, asset, amount, other).0, HoldId(w.nextID + 1);
      && walletId in w.wallets && h in w'.holds
      && Txs(w'.books, w.wallets[walletId].ledger) == Txs(w.books, w.wallets[walletId].ledger) + [tx]
      && IsFunding(tx, w', h)
  {
    hide Post, Print;
    var l, h := w.wallets[walletId].ledger, HoldId(w.nextID + 1);
    var named := CreateAccount(w.books, l, HoldAddress(walletId, h), "asset").0;
    var req := HoldTransfer(w, walletId, asset, amount);
    PutAccountKeepsBooks(w.books, l, HoldAddress(walletId, h), "asset");
    HoldReferenceIsFree(w, named, l);
    PostCases(named, l, req);
    SingleEntry(req.reference, MainAddress(walletId), HoldAddress(walletId, h), asset, amount);
    tx := Post(named, l, req).1.value;
  }

  /** The world after the wallet and the hold, whatever the ledger. */
  lemma HoldingTen(ledger: string, wallet: Call, hold: Call) returns (calls: seq<Call>, w: World)
    requires wallet == CreateWalletCall(ledger, "")
    requires hold == CreateHoldCall(WalletId(1), "USD", Print(10), "")
    ensures calls == [wallet] + [hold] && w == After(calls) && AllAllowed(calls) && Sound(w)
    ensures HoldError(w, HoldId(2)) == None && w.confirms[HoldId(2)] == [] && LivesIn(w, HoldId(2), ledger)
    ensures w.holds[HoldId(2)].remaining == Print(10) && w.holds[HoldId(2)].destination == ""
    ensures w.holds[HoldId(2)].amount == Print(10)
    ensures |Txs(w.books, ledger)| == 1 && IsFunding(Txs(w.books, ledger)[0], w, HoldId(2))
  {
    hide CreateHold, CreateWallet, ConfirmHold, VoidHold, Print, Sound, After;
    ParsePrint(10);
    WorldIsNotHold();
    var w1 := OneWallet(ledger, wallet);
    AfterMore([wallet], hold);
    HoldAccepted(w1, WalletId(1), "USD", Print(10), "");
    NewHoldShows(w1, WalletId(1), "USD", Print(10), "");
    var tx := FundingStored(w1, WalletId(1), "USD", Print(10), "");
    calls := [wallet] + [hold];
    w := After(calls);
    RunSound(calls);
  }

  lemma OneConfirm(calls: seq<Call>, w: World, h: string, confirm: Call, c: int)
    requires w == After(calls) && AllAllowed(calls) && Sound(w) && HoldError(w, h) == None
    requires confirm == ConfirmCall(h, Print(c)) && 0 < c <= Value(w.holds[h].remaining)
    requires w.holds[h].destination == ""
    ensures AllAllowed(calls + [confirm]) && Sound(After(calls + [confirm]))
    ensures Lowered(w, After(calls + [confirm]), h, c)
  {
    hide Sound, Print;
    ParsePrint(c);
    ColonFreeIsValid("world");
    ConfirmLowers(w, h, Print(c));
    AfterMore(calls, confirm);
  }

  lemma LoweredTwice(w: World, w1: World, w2: World, h: string, c: int)
    requires h in w.holds && h in w.confirms && Lowered(w, w1, h, c) && Lowered(w1, w2, h, c) && w.confirms[h] == []
    ensures Value(w2.holds[h].remaining) == Value(w.holds[h].remaining) - 2 * c && Repeated(w2.confirms[h]) == c
  {
    hide Print;
    ParsePrint(Value(w.holds[h].remaining) - c);
    ParsePrint(Value(w.holds[h].remaining) - c - c);
    RepeatedTwice([], c);
    assert [] + [c] + [c] == w2.confirms[h];
    assert Repeated([]) == 0;
  }

  lemma StillOpen(w: World, w': World, h: string, c: int)
    requires HoldError(w, h) == None && h in w.confirms && Lowered(w, w', h, c) && Value(w.holds[h].remaining) > c
    ensures HoldError(w', h) == None && Value(w'.holds[h].remaining) == Value(w.holds[h].remaining) - c
  {
    ParsePrint(Value(w.holds[h].remaining) - c);
  }

  lemma {:induction false} NoReverts(calls: seq<Call>, ledger: string, account: string, asset: string)
    requires forall i :: 0 <= i < |calls| ==> !calls[i].LedgerCall?
    ensures Reversed(calls, ledger, account, asset) == 0
  {
    if calls != [] {
      NoReverts(calls[..|calls| - 1], ledger, account, asset);
    }
  }

  lemma BalanceWithoutReverts(calls: seq<Call>, h: string)
    requires AllAllowed(calls) && h in After(calls).holds && h in After(calls).confirms
    requires forall i :: 0 <= i < |calls| ==> !calls[i].LedgerCall?
    ensures After(calls).holds[h].walletId in After(calls).wallets
    ensures HoldBalance(After(calls), h) == Value(After(calls).holds[h].remaining) + Repeated(After(calls).confirms[h])
  {
    hide HoldBalance, AllAllowed;
    HoldBalanceLaw(calls, h);
    var w := After(calls);
    NoReverts(calls, w.wallets[w.holds[h].walletId].ledger, HoldAddress(w.holds[h].walletId, h), w.holds[h].asset);
  }

  /** After a hold of 10 and two confirms of 4, Remaining is 2 and the ledger reports 6 on the hold's account. */
  lemma TwiceConfirmedRun(ledger: string, wallet: Call, hold: Call, confirm: Call)
    requires wallet == CreateWalletCall(ledger, "")
    requires hold == CreateHoldCall(WalletId(1), "USD", Print(10), "")
    requires confirm == ConfirmCall(HoldId(2), Print(4))
    ensures var calls := [wallet] + [hold] + [confirm] + [confirm];
      var w := After(calls);
      && AllAllowed(calls)
      && HoldId(2) in w.holds && w.holds[HoldId(2)].walletId in w.wallets
      && Value(w.holds[HoldId(2)].remaining) == 2 && HoldBalance(w, HoldId(2)) == 6
  {
    hide HoldBalance, IsHoldAddress, Sound, AllAllowed, ConfirmHold, After, Print;
    var calls, w := HoldingTen(ledger, wallet, hold);
    var h := HoldId(2);
    ParsePrint(10);
    OneConfirm(calls, w, h, confirm, 4);
    var w1 := After(calls + [confirm]);
    StillOpen(w, w1, h, 4);
    OneConfirm(calls + [confirm], w1, h, confirm, 4);
    var all := calls + [confirm] + [confirm];
    LoweredTwice(w, w1, After(all), h, 4);
    BalanceWithoutReverts(all, h);
  }

  /*** A hold's funding reverted ***/

  lemma ReversedMore(calls: seq<Call>, op: Op, ledger: string, account: string, asset: string)
    ensures Reversed(calls + [LedgerCall(op)], ledger, account, asset) ==
            Reversed(calls, ledger, account, asset) + TakenBack(After(calls).books, op, ledger, account, asset)
  {
    assert (calls + [LedgerCall(op)])[..|calls|] == calls;
  }

  lemma FundingIsTaken(st: State, l: string, i: nat, walletId: string, h: string, asset: string, amount: int)
    requires Books(st) && i < |Txs(st, l)| && !Txs(st, l)[i].reverted && ColonFree(walletId) && ColonFree(h)
    requires !Has(st, l, RevertReference(Txs(st, l)[i].id))
    requires Entries(Txs(st, l)[i].postings) == [Entry(MainAddress(walletId), HoldAddress(walletId, h), asset, amount)]
    ensures TakenBack(st, RevertOp(l, Txs(st, l)[i].id), l, HoldAddress(walletId, h), asset) == -amount
  {
    hide Revert;
    var txs := Txs(st, l);
    var id, es := txs[i].id, Entries(txs[i].postings);
    assert WellKept(st, l);
    FindIdMeaning(txs, id);
    LedgerRuns.RevertCases(st, l, id);
    MainIsNotHold(walletId, walletId, h);
    assert es[..0] == [];
    assert NetOf(es, HoldAddress(walletId, h), asset) == EntryNet(es[0], HoldAddress(walletId, h), asset);
  }

  lemma AllowedRevert(calls: seq<Call>, op: Op)
    requires AllAllowed(calls) && op.RevertOp?
    ensures AllAllowed(calls + [LedgerCall(op)])
    ensures After(calls + [LedgerCall(op)]) == After(calls).(books := Apply(After(calls).books, op))
  {
    AfterMore(calls, LedgerCall(op));
  }

  /** After any run, reverting the transaction that funded a hold, if it is not marked yet and its revert reference
      is free, lowers the balance of the hold's account by the whole amount, whatever was confirmed before, and
      leaves the hold's record as it is. */
  lemma FundingReverted(calls: seq<Call>, h: string, l: string, i: nat)
    requires AllAllowed(calls) && LivesIn(After(calls), h, l)
    requires i < |Txs(After(calls).books, l)| && IsFunding(Txs(After(calls).books, l)[i], After(calls), h)
    requires !Has(After(calls).books, l, RevertReference(Txs(After(calls).books, l)[i].id))
    ensures var w := After(calls);
      var all := calls + [LedgerCall(RevertOp(l, Txs(w.books, l)[i].id))];
      && AllAllowed(all)
      && After(all) == w.(books := After(all).books) && LivesIn(After(all), h, l)
      && HoldBalance(After(all), h) == HoldBalance(w, h) - Value(w.holds[h].amount)
  {
    hide HoldBalance, Reversed, IsHoldAddress, Print, Sound, AllAllowed, Revert;
    var w := After(calls);
    var hold, op := w.holds[h], RevertOp(l, Txs(w.books, l)[i].id);
    AllowedRevert(calls, op);
    RunSound(calls);
    SoundHold(w, h);
    HoldBalanceLaw(calls, h);
    HoldBalanceLaw(calls + [LedgerCall(op)], h);
    ReversedMore(calls, op, l, HoldAddress(hold.walletId, h), hold.asset);
    FundingIsTaken(w.books, l, i, hold.walletId, h, hold.asset, Value(hold.amount));
  }

  /** A post under another reference keeps the stored list and brings no revert reference. */
  lemma PostKeepsList(st: State, l: string, req: Request)
    requires !IsRevertReference(req.reference)
    ensures Txs(st, l) <= Txs(Post(st, l, req).0, l)
    ensures forall r :: IsRevertReference(r) ==> Has(Post(st, l, req).0, l, r) == Has(st, l, r)
  {
    hide FirstError;
    PostCases(st, l, req);
    PostTakes(st, l, req);
    var st' := Post(st, l, req).0;
    if st' != st {
      forall r | IsRevertReference(r) ensures Has(st', l, r) == Has(st, l, r) {
        assert Referenced(st, st', l, req.reference, l, r);
      }
    }
  }

  lemma ConfirmKeepsList(w: World, h: string, amount: string, l: string)
    requires LivesIn(w, h, l)
    ensures var w' := ConfirmHold(w, h, amount).0;
      Txs(w.books, l) <= Txs(w'.books, l) && forall r :: IsRevertReference(r) ==>
        Has(w'.books, l, r) == Has(w.books, l, r)
  {
    hide Post;
    if HoldError(w, h) == None && ConfirmAmount(Value(w.holds[h].remaining), amount).Ok? {
      var op := ConfirmOp(w, h, ConfirmAmount(Value(w.holds[h].remaining), amount).value);
      NotReversals(h, ConfirmAmount(Value(w.holds[h].remaining), amount).value);
      PostKeepsList(w.books, l, op.request);
    }
  }

  lemma OnlyFunding(st: State, l: string, h: string, id: int)
    requires |Txs(st, l)| == 1 && Txs(st, l)[0].reference == HoldReference(h)
    ensures !Has(st, l, RevertReference(id)) && IsRevertReference(RevertReference(id))
  {
    NotReversals(h, 0);
    LedgerEffects.HasAppend([], Txs(st, l)[0], RevertReference(id));
    assert Txs(st, l) == [] + [Txs(st, l)[0]];
  }

  lemma RepeatedOnce(c: int)
    ensures Repeated([] + [c]) == 0
  {
    RepeatedAppend([], c);
    assert Repeated([]) == 0;
  }

  /** After a hold of 10 and a confirm of 4, reverting the transaction that funded the hold leaves 6 as Remaining and
      minus 4 on the hold's account. */
  lemma FundingRevertedRun(ledger: string, wallet: Call, hold: Call, confirm: Call)
    requires wallet == CreateWalletCall(ledger, "")
    requires hold == CreateHoldCall(WalletId(1), "USD", Print(10), "")
    requires confirm == ConfirmCall(HoldId(2), Print(4))
    ensures var calls, h := [wallet] + [hold] + [confirm], HoldId(2);
      && Txs(After(calls).books, ledger) != []
      && var all := calls + [LedgerCall(RevertOp(ledger, Txs(After(calls).books, ledger)[0].id))];
      && AllAllowed(all)
      && LivesIn(After(all), h, ledger)
      && Value(After(all).holds[h].remaining) == 6 && HoldBalance(After(all), h) == -4
  {
    hide HoldBalance, IsHoldAddress, Sound, AllAllowed, Revert, ConfirmHold, Post, After, Print;
    var calls, w := HoldingTen(ledger, wallet, hold);
    var h := HoldId(2);
    ParsePrint(10);
    OneConfirm(calls, w, h, confirm, 4);
    var more := calls + [confirm];
    var w1 := After(more);
    StillOpen(w, w1, h, 4);
    AfterMore(calls, confirm);
    ConfirmKeepsList(w, h, Print(4), ledger);
    var id := Txs(w1.books, ledger)[0].id;
    OnlyFunding(w.books, ledger, h, id);
    FundingReverted(more, h, ledger, 0);
    BalanceWithoutReverts(more, h);
    RepeatedOnce(4);
  }

  /*** Every held asset is listed ***/

  /** The main account of the hold's wallet has moved the hold's asset. */
  ghost predicate MainSeen(w: World, h: string)
    requires h in w.holds
  {
    var hold := w.holds[h];
    && hold.walletId in w.wallets
    && Latest(Flows(w.books.moves), w.wallets[hold.walletId].ledger, MainAddress(hold.walletId), hold.asset).Some?
  }

  ghost predicate HoldsSeen(w: World) {
    forall h :: h in w.holds ==> MainSeen(w, h)
  }

  /** The moves only grow. */
  ghost predicate Grows(st: State, st': State) {
    exists more :: Flows(st'.moves) == Flows(st.moves) + more
  }

  lemma {:induction false} LatestStays(flows: seq<Flow>, more: seq<Flow>, ledger: string, account: string,
                                       asset: string)
    requires Latest(flows, ledger, account, asset).Some?
    ensures Latest(flows + more, ledger, account, asset).Some?
  {
    if more == [] {
      assert flows + more == flows;
    } else {
      var front := more[..|more| - 1];
      LatestStays(flows, front, ledger, account, asset);
      assert (flows + more)[..|flows + more| - 1] == flows + front;
    }
  }

  lemma {:induction false} LatestFound(flows: seq<Flow>, i: nat, ledger: string, account: string, asset: string)
    requires i < |flows| && At(ledger, account, asset)(flows[i])
    ensures Latest(flows, ledger, account, asset).Some?
  {
    var front := flows[..|flows| - 1];
    if i < |front| {
      LatestFound(front, i, ledger, account, asset);
    }
  }

  lemma SameGrows(st: State, st': State)
    requires st'.moves == st.moves
    ensures Grows(st, st')
  {
    assert Flows(st'.moves) == Flows(st.moves) + [];
  }

  lemma PostGrows(st: State, ledger: string, req: Request)
    ensures Grows(st, Post(st, ledger, req).0)
  {
    PostCases(st, ledger, req);
    var (st', r) := Post(st, ledger, req);
    if st' == st {
      SameGrows(st, st');
    }
  }

  lemma ApplyGrows(st: State, op: Op)
    ensures Grows(st, Apply(st, op))
  {
    var mid := ApplySteps(st, op);
    if SameBooks(st, mid) {
      SameGrows(st, Apply(st, op));
    } else {
      var tx :| Posted(st, mid, op.ledger, tx);
    }
  }

  /** An accepted transfer of a free reference shows on its source. */
  lemma TransferSeen(st: State, ledger: string, reference: string, source: string, destination: string, asset: string,
                     amount: string)
    requires Post(st, ledger, Transfer(reference, source, destination, asset, amount)).1.Ok?
    requires !Has(st, ledger, reference)
    ensures var st' := Post(st, ledger, Transfer(reference, source, destination, asset, amount)).0;
      Latest(Flows(st'.moves), ledger, source, asset).Some?
  {
    var req := Transfer(reference, source, destination, asset, amount);
    var flows, es := Flows(st.moves), Entries(req.postings);
    CommitPosts(st, ledger, req);
    SingleEntry(reference, source, destination, asset, amount);
    BuildShape(ledger, es, Stored(flows, ledger));
    var all := flows + NewFlows(flows, ledger, es);
    assert all[|flows|] == NewFlows(flows, ledger, es)[0] && End(es, 0) == source;
    LatestFound(all, |flows|, ledger, source, asset);
  }

  /** Holds keep their wallet and asset, and wallets their ledger. */
  ghost predicate SameHold(w: World, w': World, h: string)
    requires h in w.holds
  {
    && h in w'.holds && w'.holds[h].walletId == w.holds[h].walletId && w'.holds[h].asset == w.holds[h].asset
    && (w.holds[h].walletId in w.wallets ==>
          w.holds[h].walletId in w'.wallets && w'.wallets[w.holds[h].walletId] == w.wallets[w.holds[h].walletId])
  }

  lemma SeenStays(w: World, w': World, h: string)
    requires h in w.holds && MainSeen(w, h) && SameHold(w, w', h) && Grows(w.books, w'.books)
    ensures MainSeen(w', h)
  {
    var hold := w.holds[h];
    var more :| Flows(w'.books.moves) == Flows(w.books.moves) + more;
    LatestStays(Flows(w.books.moves), more, w.wallets[hold.walletId].ledger, MainAddress(hold.walletId), hold.asset);
  }

  /** Apart from a hold that the call creates, holds stay as they are to this law. */
  ghost predicate OldHolds(w: World, w': World, except: string) {
    && Grows(w.books, w'.books)
    && (forall h :: h in w.holds ==> SameHold(w, w', h))
    && (forall h :: h in w'.holds && h != except ==> h in w.holds)
  }

  lemma OldHoldsSeen(w: World, w': World, except: string)
    requires HoldsSeen(w) && OldHolds(w, w', except)
    requires except in w'.holds && except !in w.holds ==> MainSeen(w', except)
    ensures HoldsSeen(w')
  {
    forall h | h in w'.holds ensures MainSeen(w', h) {
      if h in w.holds {
        SeenStays(w, w', h);
      }
    }
  }

  lemma CreateWalletSeen(w: World, ledger: string, name: string)
    requires Sound(w) && HoldsSeen(w)
    ensures HoldsSeen(CreateWallet(w, ledger, name).0)
  {
    hide Print, Post;
    var w' := CreateWallet(w, ledger, name).0;
    assert WalletId(w.nextID + 1) !in w.wallets by { FreshHold(w); }
    assert Grows(w.books, w'.books) by {
      PutAccountKeepsBooks(w.books, ledger, MainAddress(WalletId(w.nextID + 1)), "asset");
      SameGrows(w.books, w'.books);
    }
    assert w'.holds == w.holds && forall k :: k in w.wallets ==> k in w'.wallets && w'.wallets[k] == w.wallets[k];
    OldHoldsSeen(w, w', "");
  }

  lemma FundHoldSeen(w: World, named: State, walletId: string, asset: string, amount: string, other: string)
    requires HoldsSeen(w) && walletId in w.wallets && named.moves == w.books.moves
    requires HoldId(w.nextID + 1) !in w.holds
    requires !Has(named, w.wallets[walletId].ledger, HoldReference(HoldId(w.nextID + 1)))
    ensures HoldsSeen(FundHold(w, named, walletId, asset, amount, other).0)
  {
    var h, l := HoldId(w.nextID + 1), w.wallets[walletId].ledger;
    var w' := FundHold(w, named, walletId, asset, amount, other).0;
    var req := HoldTransfer(w, walletId, asset, amount);
    PostGrows(named, l, req);
    if Post(named, l, req).1.Ok? {
      TransferSeen(named, l, HoldReference(h), MainAddress(walletId), HoldAddress(walletId, h), asset, amount);
      assert MainSeen(w', h);
    }
    OldHoldsSeen(w, w', h);
  }

  lemma CreateHoldSeen(w: World, walletId: string, asset: string, amount: string, other: string)
    requires Sound(w) && HoldsSeen(w)
    ensures HoldsSeen(CreateHold(w, walletId, asset, amount, other).0)
  {
    if walletId in w.wallets {
      var h, l := HoldId(w.nextID + 1), w.wallets[walletId].ledger;
      var (named, account) := CreateAccount(w.books, l, HoldAddress(walletId, h), "asset");
      PutAccountKeepsBooks(w.books, l, HoldAddress(walletId, h), "asset");
      HoldReferenceIsFree(w, named, l);
      FreshHold(w);
      HoldAccepted(w, walletId, asset, amount, other);
      FundHoldSeen(w, named, walletId, asset, amount, other);
    }
  }

  lemma ConfirmSeen(w: World, h: string, amount: string)
    requires HoldsSeen(w)
    ensures HoldsSeen(ConfirmHold(w, h, amount).0)
  {
    if HoldError(w, h) == None && ConfirmAmount(Value(w.holds[h].remaining), amount).Ok? {
      var c, hold := ConfirmAmount(Value(w.holds[h].remaining), amount).value, w.holds[h];
      PostGrows(w.books, w.wallets[hold.walletId].ledger,
                Transfer(ConfirmReference(h, c), HoldAddress(hold.walletId, h), OrWorld(hold.destination), hold.asset,
                         Print(c)));
      OldHoldsSeen(w, ConfirmHold(w, h, amount).0, "");
    }
  }

  lemma VoidSeen(w: World, h: string)
    requires HoldsSeen(w)
    ensures HoldsSeen(VoidHold(w, h).0)
  {
    if HoldError(w, h) == None && Value(w.holds[h].remaining) > 0 {
      var hold := w.holds[h];
      PostGrows(w.books, w.wallets[hold.walletId].ledger,
                Transfer(VoidReference(h), HoldAddress(hold.walletId, h), MainAddress(hold.walletId), hold.asset,
                         Print(Value(hold.remaining))));
      OldHoldsSeen(w, VoidHold(w, h).0, "");
    }
  }

  lemma PaySeen(w: World, walletId: string, source: string, destination: string, asset: string, amount: string)
    requires HoldsSeen(w) && walletId in w.wallets
    ensures HoldsSeen(Pay(w, walletId, source, destination, asset, amount).0)
  {
    PostGrows(w.books, w.wallets[walletId].ledger, Transfer("", source, destination, asset, amount));
    OldHoldsSeen(w, Pay(w, walletId, source, destination, asset, amount).0, "");
  }

  lemma StepSeen(w: World, call: Call)
    requires Sound(w) && HoldsSeen(w)
    ensures HoldsSeen(Step(w, call))
  {
    match call {
      case CreateWalletCall(ledger, name) => CreateWalletSeen(w, ledger, name);
      case CreditCall(id, asset, amount, other) =>
        if id in w.wallets { PaySeen(w, id, OrWorld(other), MainAddress(id), asset, amount); }
      case DebitCall(id, asset, amount, other) =>
        if id in w.wallets { PaySeen(w, id, MainAddress(id), OrWorld(other), asset, amount); }
      case CreateHoldCall(id, asset, amount, other) => CreateHoldSeen(w, id, asset, amount, other);
      case ConfirmCall(h, amount) => ConfirmSeen(w, h, amount);
      case VoidCall(h) => VoidSeen(w, h);
      case LedgerCall(op) =>
        ApplyGrows(w.books, op);
        OldHoldsSeen(w, Step(w, call), "");
    }
  }

  lemma {:induction false} RunSeen(calls: seq<Call>)
    requires AllAllowed(calls)
    ensures HoldsSeen(After(calls))
  {
    hide Step;
    if calls != [] {
      var front := calls[..|calls| - 1];
      assert forall i :: 0 <= i < |front| ==> front[..i] == calls[..i] && front[i] == calls[i];
      RunSeen(front);
      RunSound(front);
      StepSeen(After(front), calls[|calls| - 1]);
    }
  }

  /** An asset in which a wallet holds anything has moved on its main account, so a list of the main account's assets
      leaves no held sum out. */
  lemma HeldIsSeen(calls: seq<Call>, walletId: string, asset: string)
    requires AllAllowed(calls) && walletId in After(calls).wallets
    requires HeldTotal(After(calls).holds, walletId, asset) != 0
    ensures var w := After(calls);
      LatestMove(w.books.moves, w.wallets[walletId].ledger, MainAddress(walletId), asset).Some?
  {
    var w := After(calls);
    RunSeen(calls);
    if forall h :: h in w.holds ==> Share(w.holds[h], walletId, asset) == 0 {
      SumZero(w.holds.Keys, HeldBy(w.holds, walletId, asset));
    }
    var h :| h in w.holds && Share(w.holds[h], walletId, asset) != 0;
    assert MainSeen(w, h);
    if LatestMove(w.books.moves, w.wallets[walletId].ledger, MainAddress(walletId), asset) == None {
      NoLatest(w.books.moves, w.wallets[walletId].ledger, MainAddress(walletId), asset);
    }
  }
}
