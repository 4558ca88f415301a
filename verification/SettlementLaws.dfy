/** What an answered settlement did to the ledger, and what its answer says about it. */
module SettlementLaws {
  import opened Outcomes
  import opened Decimal
  import opened Text
  import opened LedgerTypes
  import opened Volumes
  import opened Ledger
  import opened LedgerSteps
  import opened LedgerEffects
  import LedgerRuns
  import opened Settlement
  import opened EscrowLaws

  predicate Repeated(st: State, t: Trade) {
    Has(st, TRADES, TradeReference(t))
  }

  /** Exactly which settlements are answered: checked trades that repeat a trade id or whose addresses the ledger
      takes. */
  lemma SettleAnswers(st: State, t: Trade)
    ensures Settle(st, t).1.Ok? <==> TradeError(t) == None && (Repeated(st, t) || AddressesPass(t))
  {
    if TradeError(t) == None {
      SettlementAccepted(t);
    }
  }

  /** The state law. A settlement under a new trade id distributes the trade over the accounts, in its asset and in the
      trades ledger only; under a trade id used before, or when it is refused, it changes nothing at all. */
  lemma SettleMoves(st: State, t: Trade, ledger: string, account: string, asset: string)
    ensures var (st', r) := Settle(st, t);
      if r.Ok? && !Repeated(st, t)
      then BalanceOf(st', ledger, account, asset) == BalanceOf(st, ledger, account, asset) +
             if ledger == TRADES && asset == AssetOf(t) then Distributed(t, account) else 0
      else st' == st
  {
    if TradeError(t) == None {
      PostTakes(st, TRADES, TradeRequest(t));
      TradeEntriesRead(t);
      SettlementMoves(t, account, asset);
      var st' := Settle(st, t).0;
      if Settle(st, t).1.Ok? && !Repeated(st, t) {
        assert Shifted(st, st', TRADES, TradeEntries(t), ledger, account, asset);
      }
    }
  }

  /*** The answer ***/

  /** The legs an answer claims, read back from its five figures. */
  function ClaimedLegs(answer: Settled, t: Trade): seq<Entry> {
    EntryLeg(t, t.buyer, ESCROW, Value(answer.buyerDebit)) + EntryLeg(t, ESCROW, t.seller, Value(answer.sellerCredit))
      + EntryIf(t, BuyerDesk(t), Value(answer.buyerCommission))
      + EntryIf(t, SellerDesk(t), Value(answer.sellerCommission))
      + EntryIf(t, FEES, Value(answer.platformFee))
  }

  lemma ClaimsAreRequested(st: State, t: Trade)
    requires Settle(st, t).1.Ok?
    ensures ClaimedLegs(Settle(st, t).1.value, t) == TradeEntries(t)
  {
    ParsePrint(BuyerPays(t));
    ParsePrint(Settlement.Net(t));
    ParsePrint(Value(t.buyerCommission));
    ParsePrint(Value(t.sellerCommission));
    ParsePrint(Value(t.platformFee));
  }

  lemma NewestIsFound(txs: seq<Transaction>, tx: Transaction)
    requires FindReference(txs, tx.reference) == None
    ensures FindReference(txs + [tx], tx.reference) == Some(tx)
  {
    assert (txs + [tx])[..|txs|] == txs;
  }

  /** The transaction an answer points to is the one stored under the trade's reference. */
  lemma AnswerPointsToStored(st: State, t: Trade)
    requires Settle(st, t).1.Ok?
    ensures var (st', r) := Settle(st, t);
      var found := FindReference(Txs(st', TRADES), TradeReference(t));
      && found.Some? && found.value.id == r.value.txId
      && (if Repeated(st, t) then found == FindReference(Txs(st, TRADES), TradeReference(t))
          else Entries(found.value.postings) == TradeEntries(t))
  {
    hide Print, PostingError;
    var (st', r) := Settle(st, t);
    if !Repeated(st, t) {
      CommitPosts(st, TRADES, TradeRequest(t));
      var tx := Commit(st, TRADES, TradeRequest(t)).1;
      assert Txs(st', TRADES) == Txs(st, TRADES) + [tx];
      NewestIsFound(Txs(st, TRADES), tx);
      TradeEntriesRead(t);
    }
  }

  /** The legs the answer claims for the request's parties and asset are those of the stored transaction if and only
      if the trade id was new, or the transaction already stored under it has the very same legs. */
  lemma AnswerIsTrueIff(st: State, t: Trade)
    requires Settle(st, t).1.Ok?
    ensures var (st', r) := Settle(st, t);
      var before := FindReference(Txs(st, TRADES), TradeReference(t));
      var after := FindReference(Txs(st', TRADES), TradeReference(t));
      && after.Some? && after.value.id == r.value.txId
      && (Entries(after.value.postings) == ClaimedLegs(r.value, t) <==>
          before == None || Entries(before.value.postings) == TradeEntries(t))
  {
    AnswerPointsToStored(st, t);
    ClaimsAreRequested(st, t);
  }

  /*** A trade id used again ***/

  lemma KnownAfterTrade(st: State, call: TradeCall, ledger: string, reference: string, id: int)
    requires LedgerRuns.Known(st, ledger, reference, id)
    ensures LedgerRuns.Known(TradeStep(st, call), ledger, reference, id)
  {
    match call {
      case SettleCall(t) =>
        if TradeError(t) == None {
          LedgerRuns.KnownAfterCall(st, PostOp(TRADES, TradeRequest(t)), ledger, reference, id);
        }
      case OtherCall(op) => LedgerRuns.KnownAfterCall(st, op, ledger, reference, id);
    }
  }

  lemma {:induction false} KnownInTrades(calls: seq<TradeCall>, k: nat, reference: string, id: int)
    requires k <= |calls| && LedgerRuns.Known(AfterTrades(calls[..k]), TRADES, reference, id)
    ensures LedgerRuns.Known(AfterTrades(calls), TRADES, reference, id)
  {
    if k == |calls| {
      assert calls[..k] == calls;
    } else {
      var front, last := calls[..|calls| - 1], calls[|calls| - 1];
      assert front[..k] == calls[..k];
      KnownInTrades(front, k, reference, id);
      KnownAfterTrade(AfterTrades(front), last, TRADES, reference, id);
    }
  }

  /** The five amounts of a trade. */
  function Figures(t: Trade): (int, int, int, int, int) {
    (BuyerPays(t), Settlement.Net(t), Value(t.buyerCommission), Value(t.sellerCommission), Value(t.platformFee))
  }

  lemma SameAnswer(t: Trade, t': Trade, id: int)
    requires t.tradeId == t'.tradeId
    ensures Answer(t, id) == Answer(t', id) <==> Figures(t) == Figures(t')
  {
    if Answer(t, id) == Answer(t', id) {
      PrintInjective(BuyerPays(t), BuyerPays(t'));
      PrintInjective(Settlement.Net(t), Settlement.Net(t'));
      PrintInjective(Value(t.buyerCommission), Value(t'.buyerCommission));
      PrintInjective(Value(t.sellerCommission), Value(t'.sellerCommission));
      PrintInjective(Value(t.platformFee), Value(t'.platformFee));
    }
  }

  lemma AnsweredAgain(st: State, t: Trade, id: int)
    requires TradeError(t) == None && LedgerRuns.Known(st, TRADES, TradeReference(t), id)
    ensures Settle(st, t) == (st, Ok(Answer(t, id)))
  {
  }

  lemma AnswerIsOf(st: State, t: Trade)
    requires Settle(st, t).1.Ok?
    ensures Settle(st, t).1.value == Answer(t, Settle(st, t).1.value.txId)
    ensures LedgerRuns.Known(Settle(st, t).0, TRADES, TradeReference(t), Settle(st, t).1.value.txId)
  {
    AnswerPointsToStored(st, t);
  }

  lemma SettledIsKnown(calls: seq<TradeCall>, j: nat, id: int)
    requires j < |calls| && calls[j].SettleCall?
    requires Settle(AfterTrades(calls[..j]), calls[j].trade).1.Ok?
    requires Settle(AfterTrades(calls[..j]), calls[j].trade).1.value.txId == id
    ensures LedgerRuns.Known(AfterTrades(calls), TRADES, TradeReference(calls[j].trade), id)
  {
    hide Post, Print;
    AnswerIsOf(AfterTrades(calls[..j]), calls[j].trade);
    var upTo := calls[..j + 1];
    assert upTo[..|upTo| - 1] == calls[..j];
    assert AfterTrades(upTo) == Settle(AfterTrades(calls[..j]), calls[j].trade).0;
    KnownInTrades(calls, j + 1, TradeReference(calls[j].trade), id);
  }

  /** Settling a trade id again, whatever happened in between: answered with the first transaction's id and nothing
      moved, and the answer is the first one's if and only if the five amounts are. */
  lemma SettledAgain(calls: seq<TradeCall>, j: nat, t: Trade)
    requires j < |calls| && calls[j].SettleCall? && calls[j].trade.tradeId == t.tradeId
    requires Settle(AfterTrades(calls[..j]), calls[j].trade).1.Ok? && TradeError(t) == None
    ensures var first, again := Settle(AfterTrades(calls[..j]), calls[j].trade).1.value, Settle(AfterTrades(calls), t);
      && again.0 == AfterTrades(calls)
      && again.1.Ok? && again.1.value.txId == first.txId
      && (again.1.value == first <==> Figures(t) == Figures(calls[j].trade))
  {
    var t0, st0 := calls[j].trade, AfterTrades(calls[..j]);
    var id := Settle(st0, t0).1.value.txId;
    assert Settle(st0, t0).1.value == Answer(t0, id) by { AnswerIsOf(st0, t0); }
    SettledIsKnown(calls, j, id);
    AnsweredAgain(AfterTrades(calls), t, id);
    SameAnswer(t, t0, id);
  }

  function SmallTrade(gross: int): Trade {
    Trade("1", Print(gross), Print(0), Print(0), Print(0), "USD", "buyer", "seller")
  }

  lemma SmallTradeIsTaken(gross: int)
    requires gross > 0
    ensures TradeError(SmallTrade(gross)) == None && AddressesPass(SmallTrade(gross))
    ensures Distributed(SmallTrade(gross), "buyer") == -gross && BuyerPays(SmallTrade(gross)) == gross
  {
    var t := SmallTrade(gross);
    ParsePrint(gross);
    ParsePrint(0);
    ColonFreeIsValid("buyer");
    ColonFreeIsValid("seller");
    assert ESCROW[0] == 'e' && "buyer"[0] == 'b' && "seller"[0] == 's' && FEES[0] == 'p' && BuyerDesk(t)[0] == 'c';
    assert SellerDesk(t)[0] == 'c';
  }

  /** A trade settled for 100 and then, under the same id, for 50: the second is answered as a debit of 50, and the
      buyer has paid 100 before and after. */
  lemma RepeatIsMisanswered()
    ensures var (st, first) := Settle(EMPTY, SmallTrade(100));
      var (st', again) := Settle(st, SmallTrade(50));
      && first.Ok? && again.Ok? && st' == st && again.value.txId == first.value.txId
      && Value(again.value.buyerDebit) == 50
      && BalanceOf(st', TRADES, "buyer", AssetOf(SmallTrade(50))) == -100
  {
    hide FirstError, PostingError, Print;
    var (st, first) := Settle(EMPTY, SmallTrade(100));
    assert Txs(EMPTY, TRADES) == [];
    SmallTradeIsTaken(100);
    SmallTradeIsTaken(50);
    SettleAnswers(EMPTY, SmallTrade(100));
    SettleMoves(EMPTY, SmallTrade(100), TRADES, "buyer", AssetOf(SmallTrade(100)));
    AnswerPointsToStored(EMPTY, SmallTrade(100));
    SettleAnswers(st, SmallTrade(50));
    AnswerPointsToStored(st, SmallTrade(50));
    ParsePrint(50);
  }
}
