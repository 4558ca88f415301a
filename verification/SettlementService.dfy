/** The settlement service: checks, in-place amount arithmetic and a posting list grown leg by leg. */
module SettlementService {
  import opened Outcomes
  import opened Decimal
  import opened LedgerTypes
  import LedgerService
  import opened Settlement

  class Service {
    const ledger: LedgerService.Service

    constructor (ledger: LedgerService.Service)
      ensures this.ledger == ledger
    {
      this.ledger := ledger;
    }

    /** Refuses malformed trades in the order the source checks them. */
    method CheckTrade(t: Trade) returns (error: Option<Error>)
      ensures error == TradeError(t)
    {
      if t.tradeId == "" {
        return Some(MissingTradeId);
      }
      if t.buyer == "" || t.seller == "" {
        return Some(MissingWalletIds);
      }
      var gross := Parse(t.grossAmount);
      if gross == None || gross.value <= 0 {
        return Some(BadGrossAmount);
      }
      var buyerComm := Parse(t.buyerCommission);
      if buyerComm == None || buyerComm.value < 0 {
        return Some(BadBuyerCommission);
      }
      var sellerComm := Parse(t.sellerCommission);
      if sellerComm == None || sellerComm.value < 0 {
        return Some(BadSellerCommission);
      }
      var platformFee := Parse(t.platformFee);
      if platformFee == None || platformFee.value < 0 {
        return Some(BadPlatformFee);
      }
      var netToSeller := gross.value - sellerComm.value;
      netToSeller := netToSeller - platformFee.value;
      if netToSeller <= 0 {
        return Some(NetNotPositive);
      }
      error := None;
    }

    method BuildPostings(t: Trade) returns (postings: seq<Posting>)
      ensures postings == TradePostings(t)
    {
      var buyerComm, sellerComm := Value(t.buyerCommission), Value(t.sellerCommission);
      var platformFee := Value(t.platformFee);
      var netToSeller := Value(t.grossAmount) - sellerComm;
      netToSeller := netToSeller - platformFee;
      var totalBuyerPays := Value(t.grossAmount) + buyerComm;
      var asset := USD;
      if t.currency != "" {
        asset := t.currency + "/2";
      }
      postings := [Posting(0, 0, t.buyer, ESCROW, asset, Print(totalBuyerPays))];
      postings := postings + [Posting(0, 0, ESCROW, t.seller, asset, Print(netToSeller))];
      ghost var legs := Leg(t, t.buyer, ESCROW, BuyerPays(t)) + Leg(t, ESCROW, t.seller, Net(t));
      assert postings == legs;
      if buyerComm > 0 {
        postings := postings + [Posting(0, 0, ESCROW, "commissions:buyer_bd:" + t.tradeId, asset, Print(buyerComm))];
      }
      legs := legs + LegIf(t, BuyerDesk(t), buyerComm);
      assert postings == legs;
      if sellerComm > 0 {
        postings := postings + [Posting(0, 0, ESCROW, "commissions:seller_bd:" + t.tradeId, asset, Print(sellerComm))];
      }
      legs := legs + LegIf(t, SellerDesk(t), sellerComm);
      assert postings == legs;
      if platformFee > 0 {
        postings := postings + [Posting(0, 0, ESCROW, FEES, asset, Print(platformFee))];
      }
    }

    method SettleTrade(t: Trade) returns (r: Result<Settled>)
      requires ledger.Valid()
      modifies ledger, ledger.store
      ensures ledger.Valid() && (ledger.store.View(), r) == Settle(old(ledger.store.View()), t)
    {
      var error := CheckTrade(t);
      if error.Some? {
        return Err(error.value);
      }
      var postings := BuildPostings(t);
      var tx := ledger.PostTransaction(TRADES, Request("settle:" + t.tradeId, postings));
      if tx.Err? {
        return Err(LedgerRefused(tx.error));
      }
      r := Ok(Settled(t.tradeId, tx.value.id, Print(BuyerPays(t)), Print(Net(t)), Print(Value(t.buyerCommission)),
                      Print(Value(t.sellerCommission)), Print(Value(t.platformFee))));
    }
  }
}
