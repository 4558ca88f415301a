/** When an account that starts at zero never shows outputs above inputs inside one request. */
module Overdraft {
  import opened Volumes
  import opened Effects

  /** No stored move of the account records more outputs than inputs. */
  ghost predicate Funded(flows: seq<Flow>, ledger: string, account: string) {
    forall i :: 0 <= i < |flows| && flows[i].ledger == ledger && flows[i].account == account ==>
      flows[i].outs <= flows[i].ins
  }

  ghost predicate PrefixesFunded(es: seq<Entry>, account: string, asset: string) {
    forall j :: 0 <= j <= |es| ==> NetOf(es[..j], account, asset) >= 0
  }

  lemma {:induction false} BuildPrefix(l: string, es: seq<Entry>, stored: (string, string) -> Volume, j: nat)
    requires j <= |es|
    ensures |Build(l, es, stored).moves| == 2 * |es|
    ensures Build(l, es, stored).moves[..2 * j] == Build(l, es[..j], stored).moves
  {
    BuildShape(l, es, stored);
    if j == |es| {
      assert es[..j] == es;
    } else {
      BuildPrefix(l, es[..|es| - 1], stored, j);
      assert es[..|es| - 1][..j] == es[..j];
    }
  }

  lemma NetBeforeOther(moves: seq<Flow>, n: nat, l: string, account: string, asset: string)
    requires n < |moves| && moves[n].account != account
    ensures TotalNet(moves[..n + 1], l, account, asset) == TotalNet(moves[..n], l, account, asset)
  {
    assert moves[..n + 1] == moves[..n] + [moves[n]];
    OneLeg(moves[..n], moves[n], l, account, asset);
  }

  lemma NetOfPrefix(l: string, es: seq<Entry>, stored: (string, string) -> Volume, j: nat, account: string,
                    asset: string)
    requires j <= |es|
    ensures |Build(l, es, stored).moves| == 2 * |es|
    ensures TotalNet(Build(l, es, stored).moves[..2 * j], l, account, asset) == NetOf(es[..j], account, asset)
  {
    BuildPrefix(l, es, stored, j);
    BuildNet(l, es[..j], stored, l, account, asset);
  }

  lemma DestinationFollows(l: string, es: seq<Entry>, stored: (string, string) -> Volume, j: nat)
    requires j < |es|
    ensures |Build(l, es, stored).moves| == 2 * |es|
    ensures Build(l, es, stored).moves[2 * j + 1].account == es[j].destination
  {
    BuildShape(l, es, stored);
    assert End(es, 2 * j + 1) == es[j].destination;
  }

  /** Up to and including a move of the account, the moves of a request net to the postings up to its own. */
  lemma NetAtMove(l: string, es: seq<Entry>, stored: (string, string) -> Volume, moves: seq<Flow>, k: nat,
                  account: string, asset: string)
    requires moves == Build(l, es, stored).moves && |moves| == 2 * |es|
    requires k < 2 * |es| && End(es, k) == account && es[k / 2].source != es[k / 2].destination
    ensures TotalNet(moves[..k + 1], l, account, asset) == NetOf(es[..k / 2 + 1], account, asset)
  {
    hide Build, TotalNet;
    var j := k / 2;
    NetOfPrefix(l, es, stored, j + 1, account, asset);
    if k == 2 * j {
      DestinationFollows(l, es, stored, j);
      NetBeforeOther(moves, k + 1, l, account, asset);
    }
  }

  /** The running totals of the account's move: what was net before the request, then the request so far. */
  lemma PredictedNet(flows: seq<Flow>, ledger: string, es: seq<Entry>, k: nat, account: string, asset: string)
    requires k < 2 * |es| && End(es, k) == account && es[k / 2].asset == asset
    requires forall n :: 0 <= n <= k ==> Distinguishes(es[n / 2], account, asset)
    ensures |NewFlows(flows, ledger, es)| == 2 * |es|
    ensures var added := NewFlows(flows, ledger, es);
      added[k].ins - added[k].outs ==
        LatestNet(flows, ledger, account, asset) + TotalNet(added[..k + 1], ledger, account, asset)
  {
    hide Build;
    BuildShape(ledger, es, Stored(flows, ledger));
    BuiltExactly(flows, ledger, es, NewFlows(flows, ledger, es), k, account, asset);
  }

  lemma FundedMove(flows: seq<Flow>, ledger: string, es: seq<Entry>, k: nat, account: string, asset: string)
    requires LatestNet(flows, ledger, account, asset) >= 0
    requires k < 2 * |es| && End(es, k) == account && es[k / 2].asset == asset && NoClashBefore(es, account, asset)
    requires es[k / 2].source != es[k / 2].destination && PrefixesFunded(es, account, asset)
    ensures |NewFlows(flows, ledger, es)| == 2 * |es|
    ensures NewFlows(flows, ledger, es)[k].outs <= NewFlows(flows, ledger, es)[k].ins
  {
    DistinguishedUpTo(es, k, account, asset);
    PredictedNet(flows, ledger, es, k, account, asset);
    NetAtMove(ledger, es, Stored(flows, ledger), NewFlows(flows, ledger, es), k, account, asset);
    assert NetOf(es[..k / 2 + 1], account, asset) >= 0;
  }

  ghost predicate Ready(flows: seq<Flow>, ledger: string, es: seq<Entry>, account: string, asset: string) {
    && LatestNet(flows, ledger, account, asset) >= 0
    && NoClashBefore(es, account, asset)
    && PrefixesFunded(es, account, asset)
  }

  lemma FundedAppend(flows: seq<Flow>, ledger: string, es: seq<Entry>, account: string)
    requires Funded(flows, ledger, account)
    requires forall asset :: Ready(flows, ledger, es, account, asset)
    requires forall i :: 0 <= i < |es| ==> es[i].source != es[i].destination
    ensures Funded(flows + NewFlows(flows, ledger, es), ledger, account)
  {
    var added := NewFlows(flows, ledger, es);
    BuildShape(ledger, es, Stored(flows, ledger));
    forall k | 0 <= k < |added| && added[k].account == account ensures added[k].outs <= added[k].ins {
      assert End(es, k) == account;
      assert Ready(flows, ledger, es, account, es[k / 2].asset);
      FundedMove(flows, ledger, es, k, account, es[k / 2].asset);
    }
  }

  lemma FundedElsewhere(flows: seq<Flow>, other: string, es: seq<Entry>, ledger: string, account: string)
    requires Funded(flows, ledger, account) && other != ledger
    ensures Funded(flows + NewFlows(flows, other, es), ledger, account)
  {
    BuildShape(other, es, Stored(flows, other));
  }

  predicate PaysOut(es: seq<Entry>, account: string) {
    forall i :: 0 <= i < |es| ==> es[i].destination != account && es[i].amount >= 0
  }

  lemma PaysOutAppend(a: seq<Entry>, b: seq<Entry>, account: string)
    requires PaysOut(a, account) && PaysOut(b, account)
    ensures PaysOut(a + b, account)
  {
  }

  lemma {:induction false} PayingOutNet(es: seq<Entry>, j: nat, account: string, asset: string)
    requires 1 <= j <= |es| && PaysOut(es[1..], account)
    ensures NetOf(es, account, asset) <= NetOf(es[..j], account, asset)
  {
    if j == |es| {
      assert es[..j] == es;
    } else {
      var front := es[..|es| - 1];
      assert front[1..] == es[1..][..|es| - 2];
      PayingOutNet(front, j, account, asset);
      assert front[..j] == es[..j];
      assert es[|es| - 1] == es[1..][|es| - 2];
    }
  }

  /** One leg in and then only legs out, ending at zero or above: the account is never below zero on the way. */
  lemma InThenOut(es: seq<Entry>, account: string, asset: string)
    requires es != [] && PaysOut(es[1..], account) && NetOf(es, account, asset) >= 0
    ensures PrefixesFunded(es, account, asset)
  {
    forall j | 0 <= j <= |es| ensures NetOf(es[..j], account, asset) >= 0 {
      if j >= 1 {
        PayingOutNet(es, j, account, asset);
      } else {
        assert es[..0] == [];
      }
    }
  }
}

/** Escrow over whole runs of settlements and other ledger calls. */
module EscrowLaws {
  import opened Outcomes
  import opened Decimal
  import opened LedgerTypes
  import opened Volumes
  import opened Effects
  import opened Ledger
  import opened LedgerSteps
  import opened LedgerLaws
  import opened LedgerEffects
  import LedgerRuns
  import opened Settlement
  import opened Overdraft

  datatype TradeCall = SettleCall(trade: Trade) | OtherCall(op: Op)

  function TradeStep(st: State, call: TradeCall): State {
    match call
    case SettleCall(trade) => Settle(st, trade).0
    case OtherCall(op) => Apply(st, op)
  }

  function AfterTrades(calls: seq<TradeCall>): State {
    if calls == [] then EMPTY else TradeStep(AfterTrades(calls[..|calls| - 1]), calls[|calls| - 1])
  }

  /** A settlement is the post of its request, or nothing. */
  function Ops(calls: seq<TradeCall>): seq<Op> {
    if calls == [] then []
    else
      var front, last := Ops(calls[..|calls| - 1]), calls[|calls| - 1];
      match last
      case OtherCall(op) => front + [op]
      case SettleCall(trade) =>
        if TradeError(trade) == None then front + [PostOp(TRADES, TradeRequest(trade))] else front
  }

  lemma {:induction false} TradesAreRun(calls: seq<TradeCall>)
    ensures AfterTrades(calls) == Run(Ops(calls))
  {
    if calls != [] {
      var front := calls[..|calls| - 1];
      TradesAreRun(front);
      match calls[|calls| - 1] {
        case OtherCall(op) => LedgerRuns.RunOneMore(Ops(front), op);
        case SettleCall(t) =>
          if TradeError(t) == None {
            LedgerRuns.RunOneMore(Ops(front), PostOp(TRADES, TradeRequest(t)));
          }
      }
    }
  }

  predicate AvoidsEscrow(es: seq<Entry>) {
    forall i :: 0 <= i < |es| ==> es[i].source != ESCROW && es[i].destination != ESCROW
  }

  /** Whatever is posted directly keeps off the escrow account; reverts are unrestricted. */
  predicate KeepsOffEscrow(op: Op) {
    op.PostOp? && op.ledger == TRADES ==> AvoidsEscrow(Entries(op.request.postings))
  }

  predicate EscrowSafe(calls: seq<TradeCall>) {
    forall i :: 0 <= i < |calls| && calls[i].OtherCall? ==> KeepsOffEscrow(calls[i].op)
  }

  ghost predicate NeutralIn(es: seq<Entry>, asset: string) {
    NetOf(es, ESCROW, asset) == 0 && (Touches(es, ESCROW, asset) ==> NoClash(es))
  }

  /** A posting list that leaves escrow as it found it, in every asset. */
  ghost predicate Neutral(es: seq<Entry>) {
    forall asset :: NeutralIn(es, asset)
  }

  ghost predicate AllNeutral(txs: seq<Transaction>) {
    forall i :: 0 <= i < |txs| ==> Neutral(Entries(txs[i].postings))
  }

  lemma AvoidingIsNeutral(es: seq<Entry>)
    requires AvoidsEscrow(es)
    ensures Neutral(es)
  {
    forall asset ensures NeutralIn(es, asset) {
      UntouchedNet(es, ESCROW, asset);
    }
  }

  lemma SwapNeutral(es: seq<Entry>)
    requires Neutral(es)
    ensures Neutral(Swap(es))
  {
    forall asset ensures NeutralIn(Swap(es), asset) {
      assert NeutralIn(es, asset);
      SwapNegates(es, ESCROW, asset);
      if i :| 0 <= i < |es| && EndsAt(Swap(es)[i], ESCROW, asset) {
        assert es[i].asset == asset && (es[i].source == ESCROW || es[i].destination == ESCROW);
      }
      SwapKeepsClashes(es);
    }
  }

  lemma TradeIsNeutral(t: Trade)
    requires TradeError(t) == None && t.buyer != ESCROW && t.seller != ESCROW
    ensures Neutral(TradeEntries(t))
  {
    SettlementIsClean(t);
    forall asset ensures NeutralIn(TradeEntries(t), asset) {
      SettlementMoves(t, ESCROW, asset);
      DesksAreNotEscrow(t);
    }
  }

  /** Validation refuses trades whose buyer or seller is the escrow account itself. */
  lemma PartiesAreNotEscrow(t: Trade)
    requires FirstError(TradePostings(t)) == None
    ensures t.buyer != ESCROW && t.seller != ESCROW
  {
    hide Print, PostingError;
    AllAcceptable(TradePostings(t));
    TradeEntriesRead(t);
    assert Acceptable(TradeEntries(t)[0]) && Acceptable(TradeEntries(t)[1]);
  }

  lemma NeutralAppend(txs: seq<Transaction>, tx: Transaction)
    requires AllNeutral(txs) && Neutral(Entries(tx.postings))
    ensures AllNeutral(txs + [tx])
  {
  }

  lemma NeutralAfterPost(st: State, ledger: string, req: Request)
    requires AllNeutral(Txs(st, TRADES))
    requires ledger == TRADES && FirstError(req.postings) == None ==> Neutral(Entries(req.postings))
    ensures AllNeutral(Txs(Post(st, ledger, req).0, TRADES))
  {
    PostCases(st, ledger, req);
    var (st', r) := Post(st, ledger, req);
    if st' != st {
      assert Txs(st', TRADES) == if ledger == TRADES then Txs(st, TRADES) + [r.value] else Txs(st, TRADES);
      if ledger == TRADES {
        NeutralAppend(Txs(st, TRADES), r.value);
      }
    }
  }

  lemma NeutralAfterRevert(st: State, ledger: string, id: int)
    requires Books(st) && AllNeutral(Txs(st, TRADES))
    ensures AllNeutral(Txs(Revert(st, ledger, id).0, TRADES))
  {
    hide Books, Revert, Neutral;
    if ledger != TRADES {
      LedgerRuns.OtherLedgersUntouched(st, RevertOp(ledger, id), TRADES, "", "");
    } else {
      LedgerRuns.RevertCases(st, ledger, id);
      var (st', r) := Revert(st, ledger, id);
      if r.Ok? {
        var txs, i := Txs(st, TRADES), FindId(Txs(st, TRADES), id).value;
        SwapNeutral(Entries(txs[i].postings));
        assert Neutral(Entries(txs[i].postings));
        assert forall k :: 0 <= k < |txs| ==> Txs(st', TRADES)[k].postings == txs[k].postings;
      }
    }
  }

  lemma NeutralAfterCall(st: State, call: TradeCall)
    requires Books(st) && AllNeutral(Txs(st, TRADES))
    requires call.OtherCall? ==> KeepsOffEscrow(call.op)
    ensures AllNeutral(Txs(TradeStep(st, call), TRADES))
  {
    match call {
      case SettleCall(t) =>
        if TradeError(t) == None {
          if FirstError(TradePostings(t)) == None {
            PartiesAreNotEscrow(t);
            TradeIsNeutral(t);
            TradeEntriesRead(t);
          }
          NeutralAfterPost(st, TRADES, TradeRequest(t));
        }
      case OtherCall(op) =>
        match op {
          case AccountOp(l, address, kind) => PutAccountKeepsBooks(st, l, address, kind);
          case PostOp(l, req) =>
            if l == TRADES {
              AvoidingIsNeutral(Entries(req.postings));
            }
            NeutralAfterPost(st, l, req);
          case RevertOp(l, id) => NeutralAfterRevert(st, l, id);
        }
    }
  }

  lemma {:induction false} RunIsNeutral(calls: seq<TradeCall>)
    requires EscrowSafe(calls)
    ensures AllNeutral(Txs(AfterTrades(calls), TRADES))
  {
    if calls == [] {
      assert Txs(EMPTY, TRADES) == [];
    } else {
      var n := |calls| - 1;
      assert EscrowSafe(calls[..n]);
      RunIsNeutral(calls[..n]);
      TradesAreRun(calls[..n]);
      RunKeepsBooks(Ops(calls[..n]));
      NeutralAfterCall(AfterTrades(calls[..n]), calls[n]);
    }
  }

  lemma NeutralAt(es: seq<Entry>, asset: string)
    requires Neutral(es)
    ensures NetOf(es, ESCROW, asset) == 0
    ensures NoClashBefore(es, ESCROW, asset)
  {
    assert NeutralIn(es, asset);
  }

  lemma {:induction false} NeutralReplay(txs: seq<Transaction>, asset: string)
    requires AllNeutral(txs)
    ensures Replayed(txs, ESCROW, asset) == 0
    ensures CleanAt(txs, ESCROW, asset)
  {
    hide Entries;
    if txs != [] {
      var front, last := txs[..|txs| - 1], txs[|txs| - 1];
      NeutralReplay(front, asset);
      NeutralAt(Entries(last.postings), asset);
    }
  }

  /** After any run of settlements, reverts of anything and posts that keep off escrow, the reported escrow balance
      is zero in every asset. */
  lemma EscrowIsZero(calls: seq<TradeCall>, asset: string)
    requires EscrowSafe(calls)
    ensures Reported(AfterTrades(calls), TRADES, ESCROW, asset) == 0
  {
    RunIsNeutral(calls);
    TradesAreRun(calls);
    NeutralReplay(Txs(AfterTrades(calls), TRADES), asset);
    ReportedIsReplayed(Ops(calls), TRADES, ESCROW, asset);
  }

  /*** Escrow is never overdrawn on the way ***/

  lemma LegPaysOut(t: Trade, destination: string, amount: int)
    requires destination != ESCROW && amount >= 0
    ensures PaysOut(EntryIf(t, destination, amount), ESCROW)
  {
  }

  lemma DropFirst(a: seq<Entry>, b: seq<Entry>, c: seq<Entry>, d: seq<Entry>, e: seq<Entry>)
    requires |a| == 1
    ensures (a + b + c + d + e)[1..] == b + c + d + e
  {
  }

  /** After its first leg a settlement only pays out of escrow. */
  lemma TradePaysOut(t: Trade)
    requires TradeError(t) == None && t.seller != ESCROW
    ensures TradeEntries(t) != [] && PaysOut(TradeEntries(t)[1..], ESCROW)
  {
    var a := EntryLeg(t, t.buyer, ESCROW, BuyerPays(t));
    var b, c := EntryLeg(t, ESCROW, t.seller, Settlement.Net(t)), EntryIf(t, BuyerDesk(t), Value(t.buyerCommission));
    var d, e := EntryIf(t, SellerDesk(t), Value(t.sellerCommission)), EntryIf(t, FEES, Value(t.platformFee));
    DesksAreNotEscrow(t);
    LegPaysOut(t, BuyerDesk(t), Value(t.buyerCommission));
    LegPaysOut(t, SellerDesk(t), Value(t.sellerCommission));
    LegPaysOut(t, FEES, Value(t.platformFee));
    PaysOutAppend(b, c, ESCROW);
    PaysOutAppend(b + c, d, ESCROW);
    PaysOutAppend(b + c + d, e, ESCROW);
    DropFirst(a, b, c, d, e);
  }

  ghost predicate EscrowFunded(st: State) {
    Funded(Flows(st.moves), TRADES, ESCROW)
  }

  /** A posting list that never takes escrow below zero, started from zero. */
  ghost predicate EscrowReady(es: seq<Entry>, asset: string) {
    NeutralIn(es, asset) && PrefixesFunded(es, ESCROW, asset)
  }

  lemma ReadyForEscrow(es: seq<Entry>, account: string, asset: string)
    requires Touches(es, account, asset) ==> NoClash(es)
    ensures NoClashBefore(es, account, asset)
  {
  }

  lemma FundedAfterPosted(st: State, st': State, ledger: string, tx: Transaction)
    requires Posted(st, st', ledger, tx) && EscrowFunded(st)
    requires ledger == TRADES ==> forall asset :: EscrowReady(Entries(tx.postings), asset)
    requires ledger == TRADES ==> forall asset :: Reported(st, TRADES, ESCROW, asset) == 0
    ensures EscrowFunded(st')
  {
    var flows, es := Flows(st.moves), Entries(tx.postings);
    if ledger == TRADES {
      AllAcceptable(tx.postings);
      forall asset ensures Ready(flows, ledger, es, ESCROW, asset) {
        assert EscrowReady(es, asset) && Reported(st, TRADES, ESCROW, asset) == 0;
        ReadyForEscrow(es, ESCROW, asset);
      }
      forall i | 0 <= i < |es| ensures es[i].source != es[i].destination {
        assert Acceptable(es[i]);
      }
      FundedAppend(flows, TRADES, es, ESCROW);
    } else {
      FundedElsewhere(flows, ledger, es, TRADES, ESCROW);
    }
  }

  lemma NumberedErrors(st: State, ledger: string, req: Request)
    ensures Post(st, ledger, req).0 != st ==> FirstError(req.postings) == None
  {
  }

  lemma FundedAfterRequest(st: State, ledger: string, req: Request)
    requires EscrowFunded(st)
    requires ledger == TRADES ==> forall asset :: Reported(st, TRADES, ESCROW, asset) == 0
    requires ledger == TRADES && FirstError(req.postings) == None ==>
      forall asset :: EscrowReady(Entries(req.postings), asset)
    ensures EscrowFunded(Post(st, ledger, req).0)
  {
    PostCases(st, ledger, req);
    var (st', r) := Post(st, ledger, req);
    if st' != st {
      NumberedErrors(st, ledger, req);
      FundedAfterPosted(st, st', ledger, r.value);
    }
  }

  /** A settlement fills escrow first and only then pays it out, down to zero. */
  lemma TradeReady(t: Trade, asset: string)
    requires TradeError(t) == None && FirstError(TradePostings(t)) == None
    ensures EscrowReady(Entries(TradePostings(t)), asset)
  {
    PartiesAreNotEscrow(t);
    TradeIsNeutral(t);
    TradeEntriesRead(t);
    assert NeutralIn(TradeEntries(t), asset);
    TradePaysOut(t);
    InThenOut(TradeEntries(t), ESCROW, asset);
  }

  lemma AvoidingReady(es: seq<Entry>, asset: string)
    requires AvoidsEscrow(es)
    ensures EscrowReady(es, asset)
  {
    AvoidingIsNeutral(es);
    assert NeutralIn(es, asset);
    forall j | 0 <= j <= |es| ensures NetOf(es[..j], ESCROW, asset) >= 0 {
      UntouchedNet(es[..j], ESCROW, asset);
    }
  }

  lemma FundedAfterSettle(st: State, t: Trade)
    requires EscrowFunded(st) && forall asset :: Reported(st, TRADES, ESCROW, asset) == 0
    ensures EscrowFunded(Settle(st, t).0)
  {
    if TradeError(t) == None {
      if FirstError(TradePostings(t)) == None {
        forall asset ensures EscrowReady(Entries(TradePostings(t)), asset) { TradeReady(t, asset); }
      }
      FundedAfterRequest(st, TRADES, TradeRequest(t));
    }
  }

  /*** Reverts ***/

  /** The postings of a settlement between parties other than escrow. */
  ghost predicate IsTrade(es: seq<Entry>) {
    exists t :: TradeError(t) == None && t.buyer != ESCROW && t.seller != ESCROW && es == TradeEntries(t)
  }

  /** No reversal has touched escrow yet: whatever touches it is a settlement. */
  ghost predicate Plain(txs: seq<Transaction>) {
    forall i :: 0 <= i < |txs| ==> AvoidsEscrow(Entries(txs[i].postings)) || IsTrade(Entries(txs[i].postings))
  }

  /** The call posts the reversal of a transaction that touched escrow. */
  predicate ReversesEscrow(st: State, call: TradeCall) {
    call.OtherCall? && PostsReversal(st, call.op) && call.op.ledger == TRADES && !AvoidsEscrow(Original(st, call.op))
  }

  ghost predicate NoneReverses(calls: seq<TradeCall>) {
    forall n :: 0 <= n < |calls| ==> !ReversesEscrow(AfterTrades(calls[..n]), calls[n])
  }

  /** A successful revert either posts exactly the swapped postings, or leaves the moves alone. */
  lemma RevertPosts(st: State, op: Op) returns (mid: State, tx: Transaction)
    requires op.RevertOp? && Revert(st, op.ledger, op.id).1.Ok?
    ensures mid.moves == Apply(st, op).moves
    ensures if PostsReversal(st, op)
            then Posted(st, mid, op.ledger, tx) && Entries(tx.postings) == Swap(Original(st, op))
            else mid == st
  {
    var original := Txs(st, op.ledger)[FindId(Txs(st, op.ledger), op.id).value];
    var req := Request(RevertReference(op.id), SwapPostings(original.postings));
    PostCases(st, op.ledger, req);
    mid := Post(st, op.ledger, req).0;
    tx := Post(st, op.ledger, req).1.value;
    MarkCases(mid, op.ledger, op.id);
    assert Entries(SwapPostings(original.postings)) == Swap(Entries(original.postings));
  }

  lemma RevertRefused(st: State, op: Op)
    requires Books(st) && op.RevertOp? && Revert(st, op.ledger, op.id).1.Err?
    ensures Apply(st, op) == st
  {
    LedgerRuns.RevertCases(st, op.ledger, op.id);
  }

  lemma SwapAvoids(es: seq<Entry>)
    ensures AvoidsEscrow(es) ==> AvoidsEscrow(Swap(es))
  {
  }

  lemma FundedAfterRevert(st: State, op: Op)
    requires Books(st) && EscrowFunded(st) && forall asset :: Reported(st, TRADES, ESCROW, asset) == 0
    requires op.RevertOp? && !ReversesEscrow(st, OtherCall(op))
    ensures EscrowFunded(Apply(st, op))
  {
    if Revert(st, op.ledger, op.id).1.Err? {
      RevertRefused(st, op);
    } else {
      var mid, tx := RevertPosts(st, op);
      if PostsReversal(st, op) {
        if op.ledger == TRADES {
          SwapAvoids(Original(st, op));
          forall asset ensures EscrowReady(Entries(tx.postings), asset) { AvoidingReady(Entries(tx.postings), asset); }
        }
        FundedAfterPosted(st, mid, op.ledger, tx);
      }
    }
  }

  lemma FundedAfterOther(st: State, op: Op)
    requires Books(st) && EscrowFunded(st) && forall asset :: Reported(st, TRADES, ESCROW, asset) == 0
    requires KeepsOffEscrow(op) && !ReversesEscrow(st, OtherCall(op))
    ensures EscrowFunded(Apply(st, op))
  {
    match op {
      case AccountOp(l, address, kind) => PutAccountKeepsBooks(st, l, address, kind);
      case PostOp(l, req) =>
        if l == TRADES {
          forall asset ensures EscrowReady(Entries(req.postings), asset) {
            AvoidingReady(Entries(req.postings), asset);
          }
        }
        FundedAfterRequest(st, l, req);
      case RevertOp(l, id) => FundedAfterRevert(st, op);
    }
  }

  lemma FundedAfterCall(st: State, call: TradeCall)
    requires Books(st) && EscrowFunded(st) && forall asset :: Reported(st, TRADES, ESCROW, asset) == 0
    requires (call.OtherCall? ==> KeepsOffEscrow(call.op)) && !ReversesEscrow(st, call)
    ensures EscrowFunded(TradeStep(st, call))
  {
    match call {
      case SettleCall(t) => FundedAfterSettle(st, t);
      case OtherCall(op) => FundedAfterOther(st, op);
    }
  }

  /** A request whose first posting pays out of an escrow that holds nothing. */
  lemma FirstMoveOverdraws(flows: seq<Flow>, es: seq<Entry>, asset: string)
    requires es != [] && es[0].source == ESCROW != es[0].destination && es[0].asset == asset && es[0].amount > 0
    requires LatestNet(flows, TRADES, ESCROW, asset) == 0
    ensures !Funded(flows + NewFlows(flows, TRADES, es), TRADES, ESCROW)
  {
    hide Build, Stored, Distinguishes;
    var added := NewFlows(flows, TRADES, es);
    assert End(es, 0) == ESCROW;
    BuildShape(TRADES, es, Stored(flows, TRADES));
    EndsDistinguish(es[0], ESCROW, asset);
    PredictedNet(flows, TRADES, es, 0, ESCROW, asset);
    OneLeg([], added[0], TRADES, ESCROW, asset);
    assert added[..1] == [] + [added[0]];
    assert (flows + added)[|flows|] == added[0];
  }

  /** Reversing a settlement takes its whole first leg out of an empty escrow: that very move shows it overdrawn. */
  lemma ReversalOverdraws(flows: seq<Flow>, es: seq<Entry>)
    requires IsTrade(es) && forall asset :: LatestNet(flows, TRADES, ESCROW, asset) == 0
    ensures !Funded(flows + NewFlows(flows, TRADES, Swap(es)), TRADES, ESCROW)
  {
    hide LatestNet, NewFlows, Funded;
    var t :| TradeError(t) == None && t.buyer != ESCROW && t.seller != ESCROW && es == TradeEntries(t);
    var back, asset := Swap(es), AssetOf(t);
    assert es[0] == Entry(t.buyer, ESCROW, asset, BuyerPays(t)) &&
      back[0] == Entry(ESCROW, t.buyer, asset, BuyerPays(t));
    FirstMoveOverdraws(flows, back, asset);
  }

  lemma OverdrawnByReversal(st: State, call: TradeCall)
    requires Plain(Txs(st, TRADES)) && ReversesEscrow(st, call)
    requires forall asset :: Reported(st, TRADES, ESCROW, asset) == 0
    ensures !EscrowFunded(TradeStep(st, call))
  {
    var mid, tx := RevertPosts(st, call.op);
    var es := Original(st, call.op);
    assert IsTrade(es);
    forall asset ensures LatestNet(Flows(st.moves), TRADES, ESCROW, asset) == 0 {
      assert Reported(st, TRADES, ESCROW, asset) == 0;
    }
    ReversalOverdraws(Flows(st.moves), es);
  }

  lemma OverdrawnForEver(st: State, op: Op)
    requires !EscrowFunded(st)
    ensures !EscrowFunded(Apply(st, op))
  {
    var mid := ApplySteps(st, op);
    var flows, flows' := Flows(st.moves), Flows(Apply(st, op).moves);
    assert |flows| <= |flows'| && forall i :: 0 <= i < |flows| ==> flows'[i] == flows[i];
    var i :| 0 <= i < |flows| &&
      flows[i].ledger == TRADES && flows[i].account == ESCROW && flows[i].outs > flows[i].ins;
    assert flows'[i] == flows[i];
  }

  lemma PlainAfterPost(st: State, ledger: string, req: Request)
    requires Plain(Txs(st, TRADES))
    requires ledger == TRADES && FirstError(req.postings) == None ==>
      AvoidsEscrow(Entries(req.postings)) || IsTrade(Entries(req.postings))
    ensures Plain(Txs(Post(st, ledger, req).0, TRADES))
  {
    hide FirstError, IsTrade, AvoidsEscrow;
    PostCases(st, ledger, req);
    var (st', r) := Post(st, ledger, req);
    if st' != st {
      NumberedErrors(st, ledger, req);
      assert Txs(st', TRADES) == if ledger == TRADES then Txs(st, TRADES) + [r.value] else Txs(st, TRADES);
    }
  }

  lemma PlainAfterSettle(st: State, t: Trade)
    requires Plain(Txs(st, TRADES))
    ensures Plain(Txs(Settle(st, t).0, TRADES))
  {
    if TradeError(t) == None {
      if FirstError(TradePostings(t)) == None {
        PartiesAreNotEscrow(t);
        TradeEntriesRead(t);
      }
      PlainAfterPost(st, TRADES, TradeRequest(t));
    }
  }

  lemma PlainAfterRevert(st: State, op: Op)
    requires Books(st) && Plain(Txs(st, TRADES)) && op.RevertOp? && !ReversesEscrow(st, OtherCall(op))
    ensures Plain(Txs(Apply(st, op), TRADES))
  {
    hide Revert, Books;
    if op.ledger != TRADES {
      LedgerRuns.OtherLedgersUntouched(st, op, TRADES, "", "");
    } else {
      LedgerRuns.RevertCases(st, TRADES, op.id);
      if Revert(st, TRADES, op.id).1.Ok? {
        var txs, txs' := Txs(st, TRADES), Txs(Apply(st, op), TRADES);
        SwapAvoids(Original(st, op));
        assert forall k :: 0 <= k < |txs| ==> txs'[k].postings == txs[k].postings;
      }
    }
  }

  lemma PlainAfterCall(st: State, call: TradeCall)
    requires Books(st) && Plain(Txs(st, TRADES))
    requires (call.OtherCall? ==> KeepsOffEscrow(call.op)) && !ReversesEscrow(st, call)
    ensures Plain(Txs(TradeStep(st, call), TRADES))
  {
    match call {
      case SettleCall(t) => PlainAfterSettle(st, t);
      case OtherCall(op) =>
        match op {
          case AccountOp(l, address, kind) => PutAccountKeepsBooks(st, l, address, kind);
          case PostOp(l, req) => PlainAfterPost(st, l, req);
          case RevertOp(l, id) => PlainAfterRevert(st, op);
        }
    }
  }

  lemma StepOverdraws(st: State, call: TradeCall)
    requires !EscrowFunded(st)
    ensures !EscrowFunded(TradeStep(st, call))
  {
    match call {
      case SettleCall(t) =>
        if TradeError(t) == None {
          OverdrawnForEver(st, PostOp(TRADES, TradeRequest(t)));
        }
      case OtherCall(op) => OverdrawnForEver(st, op);
    }
  }

  ghost predicate AtRest(st: State) {
    Books(st) && forall asset :: Reported(st, TRADES, ESCROW, asset) == 0
  }

  /** One more call: escrow stays funded exactly if it was and the call reverses nothing that touched escrow. */
  lemma OneMoreCall(st: State, call: TradeCall, none: bool)
    requires AtRest(st) && (call.OtherCall? ==> KeepsOffEscrow(call.op))
    requires EscrowFunded(st) <==> none
    requires none ==> Plain(Txs(st, TRADES))
    ensures EscrowFunded(TradeStep(st, call)) <==> none && !ReversesEscrow(st, call)
    ensures none && !ReversesEscrow(st, call) ==> Plain(Txs(TradeStep(st, call), TRADES))
  {
    if !none {
      StepOverdraws(st, call);
    } else if ReversesEscrow(st, call) {
      OverdrawnByReversal(st, call);
    } else {
      FundedAfterCall(st, call);
      PlainAfterCall(st, call);
    }
  }

  lemma ReversesAppend(front: seq<TradeCall>, last: TradeCall, calls: seq<TradeCall>)
    requires calls == front + [last]
    ensures NoneReverses(calls) <==> NoneReverses(front) && !ReversesEscrow(AfterTrades(front), last)
  {
    assert forall n :: 0 <= n < |front| ==> calls[..n] == front[..n] && calls[n] == front[n];
    assert calls[..|front|] == front && calls[|front|] == last;
  }

  lemma EscrowAtRest(calls: seq<TradeCall>)
    requires EscrowSafe(calls)
    ensures AtRest(AfterTrades(calls))
  {
    forall asset ensures Reported(AfterTrades(calls), TRADES, ESCROW, asset) == 0 {
      EscrowIsZero(calls, asset);
    }
    TradesAreRun(calls);
    RunKeepsBooks(Ops(calls));
  }

  lemma NothingYet()
    ensures EscrowFunded(EMPTY) && NoneReverses([]) && Plain(Txs(EMPTY, TRADES))
  {
    assert Flows(EMPTY.moves) == [] && Txs(EMPTY, TRADES) == [];
  }

  /** Over runs of settlements, reverts, and posts that keep off escrow: no escrow move ever records outputs above
      inputs, if and only if no revert posted the reversal of a transaction that touched escrow. */
  lemma {:induction false} EscrowOverdrawnIff(calls: seq<TradeCall>)
    requires EscrowSafe(calls)
    ensures EscrowFunded(AfterTrades(calls)) <==> NoneReverses(calls)
    ensures NoneReverses(calls) ==> Plain(Txs(AfterTrades(calls), TRADES))
  {
    hide NoneReverses, ReversesEscrow, TradeStep, Plain, EscrowFunded, KeepsOffEscrow, AtRest;
    if calls == [] {
      NothingYet();
    } else {
      var front, last := calls[..|calls| - 1], calls[|calls| - 1];
      assert EscrowSafe(front);
      EscrowOverdrawnIff(front);
      EscrowAtRest(front);
      OneMoreCall(AfterTrades(front), last, NoneReverses(front));
      ReversesAppend(front, last, calls);
    }
  }

  /** In particular, runs that revert nothing in the trades ledger never overdraw escrow. */
  lemma EscrowNeverOverdrawn(calls: seq<TradeCall>)
    requires EscrowSafe(calls)
    requires forall i :: 0 <= i < |calls| && calls[i].OtherCall? && calls[i].op.RevertOp? ==>
      calls[i].op.ledger != TRADES
    ensures EscrowFunded(AfterTrades(calls))
  {
    EscrowOverdrawnIff(calls);
  }

  lemma SettlementIsNoReversal(t: Trade, id: int)
    ensures TradeRequest(t).reference != RevertReference(id)
  {
    assert TradeRequest(t).reference[0] == 's' && RevertReference(id)[0] == 'r';
  }

  lemma TradeRequestReads(t: Trade)
    requires TradeError(t) == None
    ensures Entries(TradeRequest(t).postings) == TradeEntries(t)
  {
    TradeEntriesRead(t);
  }

  lemma OnlySettlement(before: State, t: Trade) returns (tx: Transaction)
    requires Txs(before, TRADES) == [] && Settle(before, t).1.Ok?
    ensures Txs(Settle(before, t).0, TRADES) == [tx] && tx.id == Settle(before, t).1.value.txId && !tx.reverted
    ensures Entries(tx.postings) == TradeEntries(t) && tx.reference == TradeRequest(t).reference
  {
    hide Post, FirstError, TradeRequest, TradeEntries;
    PostCases(before, TRADES, TradeRequest(t));
    TradeRequestReads(t);
    tx := Post(before, TRADES, TradeRequest(t)).1.value;
  }

  lemma FirstSettlementReverses(st: State, t: Trade, tx: Transaction)
    requires Books(st) && Txs(st, TRADES) == [tx] && !tx.reverted
    requires Entries(tx.postings) == TradeEntries(t) && tx.reference == TradeRequest(t).reference
    ensures ReversesEscrow(st, OtherCall(RevertOp(TRADES, tx.id)))
  {
    hide Revert, Books, Print, RevertReference;
    assert [tx][..0] == [];
    assert FindId([tx], tx.id) == Some(0);
    LedgerRuns.RevertCases(st, TRADES, tx.id);
    SettlementIsNoReversal(t, tx.id);
    assert FindReference([tx], RevertReference(tx.id)) == None;
    assert TradeEntries(t)[0].destination == ESCROW;
  }

  /** Settling any trade on an empty ledger and reverting its transaction is such a run: it ends with escrow
      overdrawn. */
  lemma RevertedSettlementRun(t: Trade)
    requires Settle(EMPTY, t).1.Ok?
    ensures var revert := OtherCall(RevertOp(TRADES, Settle(EMPTY, t).1.value.txId));
      var calls := [SettleCall(t)] + [revert];
      && EscrowSafe(calls)
      && ReversesEscrow(AfterTrades([SettleCall(t)]), revert)
      && !EscrowFunded(AfterTrades(calls))
  {
    hide Post, Revert, EscrowFunded, FirstError;
    var st, id := Settle(EMPTY, t).0, Settle(EMPTY, t).1.value.txId;
    var settle, revert := SettleCall(t), OtherCall(RevertOp(TRADES, id));
    assert AfterTrades([settle]) == st by {
      assert [settle][..0] == [];
    }
    TradesAreRun([settle]);
    RunKeepsBooks(Ops([settle]));
    assert Txs(EMPTY, TRADES) == [];
    var tx := OnlySettlement(EMPTY, t);
    FirstSettlementReverses(st, t, tx);
    ReversesAppend([settle], revert, [settle] + [revert]);
    EscrowOverdrawnIff([settle] + [revert]);
  }

  /** A direct post can overdraw escrow as well: any acceptable new request that starts by paying out of an escrow that
      reads zero does. */
  lemma DirectPostOverdraws(st: State, req: Request)
    requires req.postings != [] && FirstError(req.postings) == None && !Repeats(st, TRADES, req)
    requires req.postings[0].source == ESCROW && Reported(st, TRADES, ESCROW, req.postings[0].asset) == 0
    ensures !EscrowFunded(Post(st, TRADES, req).0)
  {
    hide FirstError, NewFlows, Funded;
    AllAcceptable(req.postings);
    CommitPosts(st, TRADES, req);
    assert Acceptable(Entries(req.postings)[0]);
    FirstMoveOverdraws(Flows(st.moves), Entries(req.postings), req.postings[0].asset);
  }
}
