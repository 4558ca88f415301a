/** What a settlement answers, posts and moves, with its accounts and its reference spelled out. */
module TradeAnswers {
  import opened Outcomes
  import opened Decimal
  import opened Text
  import opened LedgerTypes
  import opened Volumes
  import opened Effects
  import opened Ledger
  import opened LedgerSteps
  import opened LedgerLaws
  import opened LedgerEffects
  import opened LedgerAnswers
  import opened Settlement
  import opened EscrowLaws
  import opened SettlementLaws

  /*** Checks ***/

  /** Which trades the settlement itself refuses, and with which of its errors: the first check that fails. */
  lemma TradeErrorMeaning(t: Trade)
    ensures var e := TradeError(t);
      var named := t.tradeId != "" && t.buyer != "" && t.seller != "";
      var gross := Parse(t.grossAmount).Some? && Value(t.grossAmount) > 0;
      var buyer := Parse(t.buyerCommission).Some? && Value(t.buyerCommission) >= 0;
      var seller := Parse(t.sellerCommission).Some? && Value(t.sellerCommission) >= 0;
      var fee := Parse(t.platformFee).Some? && Value(t.platformFee) >= 0;
      var covered := Value(t.grossAmount) > Value(t.sellerCommission) + Value(t.platformFee);
      && (e == Some(MissingTradeId) <==> t.tradeId == "")
      && (e == Some(MissingWalletIds) <==> t.tradeId != "" && (t.buyer == "" || t.seller == ""))
      && (e == Some(BadGrossAmount) <==> named && !gross)
      && (e == Some(BadBuyerCommission) <==> named && gross && !buyer)
      && (e == Some(BadSellerCommission) <==> named && gross && buyer && !seller)
      && (e == Some(BadPlatformFee) <==> named && gross && buyer && seller && !fee)
      && (e == Some(NetNotPositive) <==> named && gross && buyer && seller && fee && !covered)
      && (e == None <==> named && gross && buyer && seller && fee && covered)
  {
    hide Parse;
  }

  /** Which addresses the ledger takes: buyer and seller other than escrow, and the two desks if they are paid. */
  lemma AddressesPassMeaning(t: Trade)
    ensures AddressesPass(t) <==>
      && NoEmptySegment(t.buyer) && t.buyer != "escrow:trades"
      && NoEmptySegment(t.seller) && t.seller != "escrow:trades"
      && (Value(t.buyerCommission) > 0 ==> NoEmptySegment("commissions:buyer_bd:" + t.tradeId))
      && (Value(t.sellerCommission) > 0 ==> NoEmptySegment("commissions:seller_bd:" + t.tradeId))
  {
    hide Value, ValidAddress, NoEmptySegment;
    ValidAddressMeaning(t.buyer);
    ValidAddressMeaning(t.seller);
    ValidAddressMeaning(BuyerDesk(t));
    ValidAddressMeaning(SellerDesk(t));
  }

  /*** What moves ***/

  lemma FiveNets(a: Entry, b: Entry, c: Entry, d: Entry, e: Entry, account: string, asset: string)
    ensures NetOf([a, b, c, d, e], account, asset) ==
      EntryNet(a, account, asset) + EntryNet(b, account, asset) + EntryNet(c, account, asset) +
      EntryNet(d, account, asset) + EntryNet(e, account, asset)
  {
    hide EntryNet;
    assert [a, b, c, d, e][..4] == [a, b, c, d] && [a, b, c, d][..3] == [a, b, c];
    assert [a, b, c][..2] == [a, b] && [a, b][..1] == [a] && [a][..0] == [];
    assert NetOf([a], account, asset) == EntryNet(a, account, asset);
    assert NetOf([a, b], account, asset) == NetOf([a], account, asset) + EntryNet(b, account, asset);
    assert NetOf([a, b, c], account, asset) == NetOf([a, b], account, asset) + EntryNet(c, account, asset);
    assert NetOf([a, b, c, d], account, asset) == NetOf([a, b, c], account, asset) + EntryNet(d, account, asset);
  }

  /** The five payments of a trade: the buyer's into escrow, and out of it to the seller, both desks and the platform.
      */
  function Payments(t: Trade): seq<Entry> {
    var unit := if t.currency == "" then "USD/2" else t.currency + "/2";
    var gross, buyer, seller := Value(t.grossAmount), Value(t.buyerCommission), Value(t.sellerCommission);
    var fee := Value(t.platformFee);
    [Entry(t.buyer, "escrow:trades", unit, gross + buyer), Entry("escrow:trades", t.seller, unit, gross - seller - fee),
     Entry("escrow:trades", "commissions:buyer_bd:" + t.tradeId, unit, buyer),
     Entry("escrow:trades", "commissions:seller_bd:" + t.tradeId, unit, seller),
     Entry("escrow:trades", "platform:fees", unit, fee)]
  }

  /** What the posted legs of a checked trade do to any account is what its five payments do. */
  lemma LegsArePayments(t: Trade, account: string, asset: string)
    requires TradeError(t) == None
    ensures NetOf(TradeEntries(t), account, asset) == NetOf(Payments(t), account, asset)
  {
    hide Value, TradeError, TradeEntries, NetOf, Parse;
    var p := Payments(t);
    SettlementMoves(t, account, asset);
    FiveNets(p[0], p[1], p[2], p[3], p[4], account, asset);
  }

  /*** Trade ids over runs ***/

  /** Call i put a transaction under the reference of this trade id: it answered a settlement of that id, or it is
      somebody's direct post under "settle:" and the id that the ledger took. */
  predicate UsesId(st: State, call: TradeCall, id: string) {
    match call
    case SettleCall(u) => u.tradeId == id && Settle(st, u).1.Ok?
    case OtherCall(op) =>
      && op.PostOp? && op.ledger == "trades" && op.request.reference == "settle:" + id
      && Post(st, "trades", op.request).1.Ok?
  }

  predicate UsedAt(calls: seq<TradeCall>, i: nat, id: string)
    requires i < |calls|
  {
    UsesId(AfterTrades(calls[..i]), calls[i], id)
  }

  predicate Used(calls: seq<TradeCall>, id: string) {
    exists i :: 0 <= i < |calls| && UsedAt(calls, i, id)
  }

  lemma SameId(a: string, b: string)
    ensures "settle:" + a == "settle:" + b <==> a == b
  {
    assert ("settle:" + a)[7..] == a && ("settle:" + b)[7..] == b;
  }

  lemma PostUses(st: State, ledger: string, req: Request, reference: string)
    requires reference != ""
    ensures Has(Post(st, ledger, req).0, "trades", reference) <==>
      Has(st, "trades", reference) || (Post(st, ledger, req).1.Ok? && ledger == "trades" && req.reference == reference)
  {
    hide Post, Shifted, ClientShifted, FirstError;
    PostTakes(st, ledger, req);
    var (st', r) := Post(st, ledger, req);
    if r.Ok? && !Repeats(st, ledger, req) {
      assert Referenced(st, st', ledger, req.reference, "trades", reference);
    }
  }

  lemma SameHas(st: State, st': State, reference: string)
    requires Txs(st', "trades") == Txs(st, "trades")
    ensures Has(st', "trades", reference) == Has(st, "trades", reference)
  {
  }

  lemma StepUses(st: State, call: TradeCall, id: string)
    requires Books(st)
    ensures Has(TradeStep(st, call), "trades", "settle:" + id) <==>
      Has(st, "trades", "settle:" + id) || UsesId(st, call, id)
  {
    hide Post, Revert, Books, Has;
    match call {
      case SettleCall(u) =>
        SameId(u.tradeId, id);
        if TradeError(u) == None {
          PostUses(st, "trades", TradeRequest(u), "settle:" + id);
        }
      case OtherCall(op) =>
        match op {
          case AccountOp(ledger, address, kind) =>
            PutAccountKeepsBooks(st, ledger, address, kind);
            assert Txs(Apply(st, op), "trades") == Txs(st, "trades");
            SameHas(st, Apply(st, op), "settle:" + id);
          case PostOp(ledger, request) => PostUses(st, ledger, request, "settle:" + id);
          case RevertOp(_, target) =>
            RevertTakes(st, op);
            assert ("settle:" + id)[0] == 's' && RevertReference(target)[0] == 'r';
            assert ReferencedBut(st, Apply(st, op), RevertReference(target), "trades", "settle:" + id);
        }
    }
  }

  lemma UsedAppend(calls: seq<TradeCall>, id: string)
    requires calls != []
    ensures var front, last := calls[..|calls| - 1], calls[|calls| - 1];
      Used(calls, id) <==> Used(front, id) || UsesId(AfterTrades(front), last, id)
  {
    hide UsesId, AfterTrades;
    var n := |calls| - 1;
    var front := calls[..n];
    assert forall i :: 0 <= i < n ==> front[i] == calls[i] && front[..i] == calls[..i];
    if i :| 0 <= i < |calls| && UsedAt(calls, i, id) {
      assert i < n ==> UsedAt(front, i, id);
    }
    if i :| 0 <= i < n && UsedAt(front, i, id) {
      assert UsedAt(calls, i, id);
    }
    assert UsedAt(calls, n, id) <==> UsesId(AfterTrades(front), calls[n], id);
  }

  /** The reference of a trade id is taken in the trades ledger exactly when some call of the run used that id. */
  lemma {:induction false} TakenIffUsed(calls: seq<TradeCall>, id: string)
    ensures Has(AfterTrades(calls), "trades", "settle:" + id) <==> Used(calls, id)
  {
    if calls == [] {
      assert Txs(EMPTY, "trades") == [];
    } else {
      hide Used, UsesId, TradeStep, Has, Books, Run;
      var front, last := calls[..|calls| - 1], calls[|calls| - 1];
      TakenIffUsed(front, id);
      TradesAreRun(front);
      RunKeepsBooks(Ops(front));
      StepUses(AfterTrades(front), last, id);
      UsedAppend(calls, id);
    }
  }

  ghost predicate MovedAt(st: State, st': State, t: Trade, ledger: string, account: string, asset: string) {
    BalanceOf(st', ledger, account, asset) == BalanceOf(st, ledger, account, asset) +
      if ledger == "trades" then NetOf(Payments(t), account, asset) else 0
  }

  /** Every balance of every ledger changes by the five payments of the trade, made in the trades ledger. */
  ghost predicate Moved(st: State, st': State, t: Trade) {
    forall ledger, account, asset :: MovedAt(st, st', t, ledger, account, asset)
  }

  /** The last transaction of st' is new since st, and stored under the trade's own reference. */
  predicate PostedAs(st: State, st': State, id: string, txId: int) {
    var txs := Txs(st', "trades");
    && txs != [] && txs[..|txs| - 1] == Txs(st, "trades")
    && txs[|txs| - 1].reference == "settle:" + id && txs[|txs| - 1].id == txId > st.nextID
  }

  lemma SettleMovesAll(st: State, t: Trade)
    requires Settle(st, t).1.Ok? && !Has(st, "trades", "settle:" + t.tradeId)
    ensures Moved(st, Settle(st, t).0, t)
  {
    hide Payments, Distributed, TradeEntries, BalanceOf, Post, AddressesPass, TradeError;
    var st' := Settle(st, t).0;
    SettleAnswers(st, t);
    forall ledger, account, asset ensures MovedAt(st, st', t, ledger, account, asset) {
      SettleMoves(st, t, ledger, account, asset);
      SettlementMoves(t, account, asset);
      LegsArePayments(t, account, asset);
    }
  }

  lemma SettleAppends(st: State, t: Trade)
    requires Settle(st, t).1.Ok? && !Has(st, "trades", "settle:" + t.tradeId)
    ensures PostedAs(st, Settle(st, t).0, t.tradeId, Settle(st, t).1.value.txId)
  {
    hide TradeError, TradePostings, FindReference, Commit, FirstError, Flows, NewFlows, Print, Value;
    CommitPosts(st, "trades", TradeRequest(t));
  }

  /** A checked trade on any books: under a free reference it is stored as a new transaction and its five payments move;
      under a taken one nothing changes and the answer points to the first transaction there. */
  lemma TradeOnBooks(st: State, t: Trade)
    requires TradeError(t) == None && AddressesPass(t)
    ensures var (st', r) := Settle(st, t);
      && r.Ok?
      && if Has(st, "trades", "settle:" + t.tradeId)
         then st' == st && exists k: nat ::
           FirstWith(Txs(st, "trades"), "settle:" + t.tradeId, k) && r.value.txId == Txs(st, "trades")[k].id
         else PostedAs(st, st', t.tradeId, r.value.txId) && Moved(st, st', t)
  {
    hide TradeError, AddressesPass, TradePostings, Moved, FindReference, PostedAs, Commit, FirstError;
    var reference := "settle:" + t.tradeId;
    SettleAnswers(st, t);
    if FindReference(Txs(st, "trades"), reference).Some? {
      var k := FoundFirst(Txs(st, "trades"), reference);
    } else {
      SettleMovesAll(st, t);
      SettleAppends(st, t);
    }
  }

  /** Over any run: a checked trade with acceptable addresses is posted as a new transaction under "settle:" and its id,
      and moves its five payments, if and only if no earlier call used that id; otherwise nothing changes. */
  lemma TradeIsPostedIff(calls: seq<TradeCall>, t: Trade)
    requires TradeError(t) == None && AddressesPass(t)
    ensures var st := AfterTrades(calls);
      var (st', r) := Settle(st, t);
      && r.Ok?
      && (!Used(calls, t.tradeId) ==> PostedAs(st, st', t.tradeId, r.value.txId) && Moved(st, st', t))
      && (Used(calls, t.tradeId) ==> st' == st)
  {
    hide AfterTrades, Used, Settle, Moved, PostedAs, Has;
    TakenIffUsed(calls, t.tradeId);
    TradeOnBooks(AfterTrades(calls), t);
  }

  lemma UsedAfterSettle(calls: seq<TradeCall>, t: Trade, id: string)
    requires t.tradeId != id && !Used(calls, id)
    ensures !Used(calls + [SettleCall(t)], id)
    ensures AfterTrades(calls + [SettleCall(t)]) == Settle(AfterTrades(calls), t).0
  {
    hide Used, Settle;
    var all := calls + [SettleCall(t)];
    assert all[..|all| - 1] == calls;
    UsedAppend(all, id);
  }

  lemma IdUpToCounter(calls: seq<TradeCall>, i: nat)
    requires i < |Txs(AfterTrades(calls), "trades")|
    ensures Txs(AfterTrades(calls), "trades")[i].id <= AfterTrades(calls).nextID
  {
    hide Run, AfterTrades;
    var st := AfterTrades(calls);
    TradesAreRun(calls);
    RunKeepsBooks(Ops(calls));
    assert WellKept(st, "trades");
    assert LedgerLaws.Valid(Txs(st, "trades")[i], "trades", st.nextID);
  }

  /** Two trades with different ids that nobody used both move their money, as two transactions. */
  lemma TwoTradesMove(calls: seq<TradeCall>, t: Trade, u: Trade, ledger: string, account: string, asset: string)
    requires TradeError(t) == None && AddressesPass(t) && TradeError(u) == None && AddressesPass(u)
    requires t.tradeId != u.tradeId && !Used(calls, t.tradeId) && !Used(calls, u.tradeId)
    ensures var st := AfterTrades(calls);
      var (st1, first) := Settle(st, t);
      var (st2, second) := Settle(st1, u);
      && first.Ok? && second.Ok? && first.value.txId != second.value.txId
      && |Txs(st2, "trades")| == |Txs(st, "trades")| + 2
      && BalanceOf(st2, ledger, account, asset) == BalanceOf(st, ledger, account, asset) +
           if ledger == "trades" then NetOf(Payments(t), account, asset) + NetOf(Payments(u), account, asset) else 0
  {
    hide AfterTrades, Used, Settle, BalanceOf, Payments, TradeError, AddressesPass;
    var st := AfterTrades(calls);
    TradeIsPostedIff(calls, t);
    var st1 := Settle(st, t).0;
    UsedAfterSettle(calls, t, u.tradeId);
    TradeIsPostedIff(calls + [SettleCall(t)], u);
    var st2 := Settle(st1, u).0;
    assert MovedAt(st, st1, t, ledger, account, asset) && MovedAt(st1, st2, u, ledger, account, asset);
    IdUpToCounter(calls + [SettleCall(t)], |Txs(st1, "trades")| - 1);
  }

  /** Every other settlement changes nothing: the settlement's own error, or the ledger's, which is that of the first
      leg it refuses, wrapped. */
  lemma TradeRefusals(st: State, t: Trade)
    ensures var (st', r) := Settle(st, t);
      && (TradeError(t).Some? ==> st' == st && r == Err(TradeError(t).value))
      && (TradeError(t) == None && !AddressesPass(t) && !Has(st, "trades", "settle:" + t.tradeId) ==>
            st' == st && exists i: nat ::
              FirstFailing(TradePostings(t), i) && r == Err(LedgerRefused(PostingError(TradePostings(t)[i], i).value)))
  {
    hide TradeError, AddressesPass, TradePostings, FindReference, PostingError, FirstError;
    if TradeError(t) == None && !AddressesPass(t) {
      SettlementAccepted(t);
      var i := FirstErrorMeaning(TradePostings(t));
      assert FirstFailing(TradePostings(t), i);
    }
  }

  /*** The answer ***/

  /** A printed integer. */
  predicate Prints(s: string, n: int) {
    s == Print(n) && Value(s) == n
  }

  /** The figures of any answer: what the buyer pays, what the seller gets, and the three charges. */
  lemma AnswerTells(st: State, t: Trade)
    requires Settle(st, t).1.Ok?
    ensures var answer := Settle(st, t).1.value;
      var gross, buyer, seller := Value(t.grossAmount), Value(t.buyerCommission), Value(t.sellerCommission);
      && answer.tradeId == t.tradeId
      && Prints(answer.buyerDebit, gross + buyer)
      && Prints(answer.sellerCredit, gross - seller - Value(t.platformFee))
      && Prints(answer.buyerCommission, buyer) && Prints(answer.sellerCommission, seller)
      && Prints(answer.platformFee, Value(t.platformFee))
  {
    hide Print, Parse, Value, Post, TradeError;
    var gross, buyer, seller := Value(t.grossAmount), Value(t.buyerCommission), Value(t.sellerCommission);
    ParsePrint(gross + buyer);
    ParsePrint(gross - seller - Value(t.platformFee));
    ParsePrint(buyer);
    ParsePrint(seller);
    ParsePrint(Value(t.platformFee));
  }
}
