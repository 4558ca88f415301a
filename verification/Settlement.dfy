/** Trade settlement: one multi-posting transaction that passes the buyer's money through escrow. */
module Settlement {
  import opened Outcomes
  import opened Decimal
  import opened Text
  import opened LedgerTypes
  import opened Volumes
  import opened Effects
  import opened Ledger
  import LedgerLaws

  const TRADES := "trades"
  const ESCROW := "escrow:trades"
  const FEES := "platform:fees"
  const USD := "USD/2"

  datatype Trade = Trade(tradeId: string, grossAmount: string, buyerCommission: string, sellerCommission: string,
                         platformFee: string, currency: string, buyer: string, seller: string)

  datatype Settled = Settled(tradeId: string, txId: int, buyerDebit: string, sellerCredit: string,
                             buyerCommission: string, sellerCommission: string, platformFee: string)

  function Net(t: Trade): int {
    Value(t.grossAmount) - Value(t.sellerCommission) - Value(t.platformFee)
  }

  function BuyerPays(t: Trade): int {
    Value(t.grossAmount) + Value(t.buyerCommission)
  }

  function AssetOf(t: Trade): string {
    if t.currency == "" then USD else t.currency + "/2"
  }

  predicate IsInteger(s: string, least: int) {
    Parse(s).Some? && Value(s) >= least
  }

  function TradeError(t: Trade): Option<Error> {
    if t.tradeId == "" then Some(MissingTradeId)
    else if t.buyer == "" || t.seller == "" then Some(MissingWalletIds)
    else if !IsInteger(t.grossAmount, 1) then Some(BadGrossAmount)
    else if !IsInteger(t.buyerCommission, 0) then Some(BadBuyerCommission)
    else if !IsInteger(t.sellerCommission, 0) then Some(BadSellerCommission)
    else if !IsInteger(t.platformFee, 0) then Some(BadPlatformFee)
    else if Net(t) <= 0 then Some(NetNotPositive)
    else None
  }

  function BuyerDesk(t: Trade): string { "commissions:buyer_bd:" + t.tradeId }

  function SellerDesk(t: Trade): string { "commissions:seller_bd:" + t.tradeId }

  function Leg(t: Trade, source: string, destination: string, amount: int): seq<Posting> {
    [Posting(0, 0, source, destination, AssetOf(t), Print(amount))]
  }

  /** A leg that is only posted when its amount is positive. */
  function LegIf(t: Trade, destination: string, amount: int): seq<Posting> {
    if amount > 0 then Leg(t, ESCROW, destination, amount) else []
  }

  function TradePostings(t: Trade): seq<Posting> {
    Leg(t, t.buyer, ESCROW, BuyerPays(t)) + Leg(t, ESCROW, t.seller, Net(t))
      + LegIf(t, BuyerDesk(t), Value(t.buyerCommission))
      + LegIf(t, SellerDesk(t), Value(t.sellerCommission))
      + LegIf(t, FEES, Value(t.platformFee))
  }

  function TradeReference(t: Trade): string {
    "settle:" + t.tradeId
  }

  function TradeRequest(t: Trade): Request {
    Request(TradeReference(t), TradePostings(t))
  }

  /** The result of a settlement: the stored transaction's id, and the request's own figures. */
  function Answer(t: Trade, txId: int): Settled {
    Settled(t.tradeId, txId, Print(BuyerPays(t)), Print(Net(t)), Print(Value(t.buyerCommission)),
            Print(Value(t.sellerCommission)), Print(Value(t.platformFee)))
  }

  function Settle(st: State, t: Trade): (State, Result<Settled>) {
    if TradeError(t).Some? then (st, Err(TradeError(t).value))
    else
      var (st', tx) := Post(st, TRADES, TradeRequest(t));
      match tx
      case Err(e) => (st', Err(LedgerRefused(e)))
      case Ok(stored) =>
        (st', Ok(Answer(t, stored.id)))
  }

  /*** What one settlement moves ***/

  function EntryLeg(t: Trade, source: string, destination: string, amount: int): seq<Entry> {
    [Entry(source, destination, AssetOf(t), amount)]
  }

  function EntryIf(t: Trade, destination: string, amount: int): seq<Entry> {
    if amount > 0 then EntryLeg(t, ESCROW, destination, amount) else []
  }

  /** The five legs with integer amounts. */
  function TradeEntries(t: Trade): seq<Entry> {
    EntryLeg(t, t.buyer, ESCROW, BuyerPays(t)) + EntryLeg(t, ESCROW, t.seller, Net(t))
      + EntryIf(t, BuyerDesk(t), Value(t.buyerCommission))
      + EntryIf(t, SellerDesk(t), Value(t.sellerCommission))
      + EntryIf(t, FEES, Value(t.platformFee))
  }

  lemma EntriesAppend(a: seq<Posting>, b: seq<Posting>)
    ensures Entries(a + b) == Entries(a) + Entries(b)
  {
  }

  lemma LegEntries(t: Trade, source: string, destination: string, amount: int)
    ensures Entries(Leg(t, source, destination, amount)) == EntryLeg(t, source, destination, amount)
  {
    ParsePrint(amount);
  }

  lemma LegIfEntries(t: Trade, destination: string, amount: int)
    ensures Entries(LegIf(t, destination, amount)) == EntryIf(t, destination, amount)
  {
    LegEntries(t, ESCROW, destination, amount);
  }

  lemma TradeEntriesRead(t: Trade)
    ensures Entries(TradePostings(t)) == TradeEntries(t)
  {
    var a, b := Leg(t, t.buyer, ESCROW, BuyerPays(t)), Leg(t, ESCROW, t.seller, Net(t));
    var c, d := LegIf(t, BuyerDesk(t), Value(t.buyerCommission)), LegIf(t, SellerDesk(t), Value(t.sellerCommission));
    var e := LegIf(t, FEES, Value(t.platformFee));
    LegEntries(t, t.buyer, ESCROW, BuyerPays(t));
    LegEntries(t, ESCROW, t.seller, Net(t));
    LegIfEntries(t, BuyerDesk(t), Value(t.buyerCommission));
    LegIfEntries(t, SellerDesk(t), Value(t.sellerCommission));
    LegIfEntries(t, FEES, Value(t.platformFee));
    EntriesAppend(a, b);
    EntriesAppend(a + b, c);
    EntriesAppend(a + b + c, d);
    EntriesAppend(a + b + c + d, e);
  }

  lemma {:induction false} NetAppend(a: seq<Entry>, b: seq<Entry>, account: string, asset: string)
    ensures NetOf(a + b, account, asset) == NetOf(a, account, asset) + NetOf(b, account, asset)
  {
    if b == [] {
      assert a + b == a;
    } else {
      assert (a + b)[..|a + b| - 1] == a + b[..|b| - 1];
      NetAppend(a, b[..|b| - 1], account, asset);
    }
  }

  function Paid(account: string, party: string, amount: int): int {
    if account == party then amount else 0
  }

  lemma LegNet(t: Trade, source: string, destination: string, amount: int, account: string)
    ensures NetOf(EntryLeg(t, source, destination, amount), account, AssetOf(t)) ==
            Paid(account, destination, amount) - Paid(account, source, amount)
  {
    assert EntryLeg(t, source, destination, amount)[..0] == [];
  }

  lemma LegIfNet(t: Trade, destination: string, amount: int, account: string)
    requires amount >= 0
    ensures NetOf(EntryIf(t, destination, amount), account, AssetOf(t)) ==
            Paid(account, destination, amount) - Paid(account, ESCROW, amount)
  {
    LegNet(t, ESCROW, destination, amount, account);
  }

  lemma {:induction false} OtherAssetNet(es: seq<Entry>, unit: string, account: string, asset: string)
    requires asset != unit && forall i :: 0 <= i < |es| ==> es[i].asset == unit
    ensures NetOf(es, account, asset) == 0
  {
    if es != [] {
      OtherAssetNet(es[..|es| - 1], unit, account, asset);
    }
  }

  /** What a trade means for one account: the buyer pays gross plus buyer commission, and exactly that reaches the
      seller, the two desks and the platform. */
  function Distributed(t: Trade, account: string): int {
    - Paid(account, t.buyer, Value(t.grossAmount) + Value(t.buyerCommission))
    + Paid(account, t.seller, Value(t.grossAmount) - Value(t.sellerCommission) - Value(t.platformFee))
    + Paid(account, BuyerDesk(t), Value(t.buyerCommission))
    + Paid(account, SellerDesk(t), Value(t.sellerCommission))
    + Paid(account, FEES, Value(t.platformFee))
  }

  lemma TradeNet(t: Trade, account: string)
    requires TradeError(t) == None
    ensures NetOf(TradeEntries(t), account, AssetOf(t)) == Distributed(t, account)
  {
    var a, b := EntryLeg(t, t.buyer, ESCROW, BuyerPays(t)), EntryLeg(t, ESCROW, t.seller, Net(t));
    var c := EntryIf(t, BuyerDesk(t), Value(t.buyerCommission));
    var d := EntryIf(t, SellerDesk(t), Value(t.sellerCommission));
    var e := EntryIf(t, FEES, Value(t.platformFee));
    LegNet(t, t.buyer, ESCROW, BuyerPays(t), account);
    LegNet(t, ESCROW, t.seller, Net(t), account);
    LegIfNet(t, BuyerDesk(t), Value(t.buyerCommission), account);
    LegIfNet(t, SellerDesk(t), Value(t.sellerCommission), account);
    LegIfNet(t, FEES, Value(t.platformFee), account);
    NetAppend(a, b, account, AssetOf(t));
    NetAppend(a + b, c, account, AssetOf(t));
    NetAppend(a + b + c, d, account, AssetOf(t));
    NetAppend(a + b + c + d, e, account, AssetOf(t));
  }

  /** The posting list distributes the trade; what passes through escrow cancels, and no other asset moves. */
  lemma SettlementMoves(t: Trade, account: string, asset: string)
    requires TradeError(t) == None
    ensures NetOf(TradeEntries(t), account, asset) == if asset == AssetOf(t) then Distributed(t, account) else 0
  {
    if asset == AssetOf(t) {
      TradeNet(t, account);
    } else {
      OtherAssetNet(TradeEntries(t), AssetOf(t), account, asset);
    }
  }

  /** Every settlement touches one asset only, so it can never confuse two adjustment keys. */
  lemma SettlementIsClean(t: Trade)
    ensures NoClash(TradeEntries(t))
  {
    OneAssetDoesNotClash(TradeEntries(t), AssetOf(t));
  }

  lemma DesksAreNotEscrow(t: Trade)
    ensures BuyerDesk(t) != ESCROW && SellerDesk(t) != ESCROW && FEES != ESCROW
  {
    assert BuyerDesk(t)[0] == 'c' && SellerDesk(t)[0] == 'c' && ESCROW[0] == 'e' && FEES[0] == 'p';
  }

  /*** When the ledger takes a checked trade ***/

  predicate Passes(p: Posting) {
    PostingError(p, 0) == None
  }

  lemma NoErrorAppend(a: seq<Posting>, b: seq<Posting>)
    ensures FirstError(a + b) == None <==> FirstError(a) == None && FirstError(b) == None
  {
    hide FirstError;
    var all := a + b;
    LedgerLaws.NoErrorMeaning(a);
    LedgerLaws.NoErrorMeaning(b);
    LedgerLaws.NoErrorMeaning(all);
    assert forall p, i :: PostingError(p, i) == None <==> Passes(p);
    assert forall i :: 0 <= i < |a| ==> all[i] == a[i];
    assert forall i :: 0 <= i < |b| ==> all[|a| + i] == b[i];
  }

  lemma LegPasses(t: Trade, source: string, destination: string, amount: int)
    requires amount > 0
    ensures FirstError(Leg(t, source, destination, amount)) == None <==>
      ValidAddress(source) && ValidAddress(destination) && source != destination
  {
    ParsePrint(amount);
    var leg := Leg(t, source, destination, amount);
    assert leg[..0] == [];
    assert FirstError(leg) == PostingError(leg[0], 0);
    assert |AssetOf(t)| > 0;
  }

  lemma FixedAddresses()
    ensures ValidAddress(ESCROW) && ValidAddress(FEES)
  {
    assert "escrow" + ":" + "trades" == ESCROW && "platform" + ":" + "fees" == FEES;
    ColonFreeIsValid("escrow");
    ColonFreeIsValid("trades");
    ColonFreeIsValid("platform");
    ColonFreeIsValid("fees");
    ValidAddressJoin("escrow", "trades");
    ValidAddressJoin("platform", "fees");
  }

  lemma LegIfPasses(t: Trade, destination: string, amount: int)
    requires destination != ESCROW
    ensures FirstError(LegIf(t, destination, amount)) == None <==> (amount > 0 ==> ValidAddress(destination))
  {
    FixedAddresses();
    if amount > 0 {
      LegPasses(t, ESCROW, destination, amount);
    }
  }

  /** What the ledger still asks of a trade that passed the settlement's own checks. */
  predicate AddressesPass(t: Trade) {
    && ValidAddress(t.buyer) && t.buyer != ESCROW
    && ValidAddress(t.seller) && t.seller != ESCROW
    && (Value(t.buyerCommission) > 0 ==> ValidAddress(BuyerDesk(t)))
    && (Value(t.sellerCommission) > 0 ==> ValidAddress(SellerDesk(t)))
  }

  /** The posting list of a checked trade passes the ledger's validation if and only if its addresses do: amounts,
      assets and the fixed accounts are never the reason for a refusal. */
  lemma SettlementAccepted(t: Trade)
    requires TradeError(t) == None
    ensures FirstError(TradePostings(t)) == None <==> AddressesPass(t)
  {
    hide PostingError;
    var a, b := Leg(t, t.buyer, ESCROW, BuyerPays(t)), Leg(t, ESCROW, t.seller, Net(t));
    var c, d := LegIf(t, BuyerDesk(t), Value(t.buyerCommission)), LegIf(t, SellerDesk(t), Value(t.sellerCommission));
    var e := LegIf(t, FEES, Value(t.platformFee));
    DesksAreNotEscrow(t);
    FixedAddresses();
    LegPasses(t, t.buyer, ESCROW, BuyerPays(t));
    LegPasses(t, ESCROW, t.seller, Net(t));
    LegIfPasses(t, BuyerDesk(t), Value(t.buyerCommission));
    LegIfPasses(t, SellerDesk(t), Value(t.sellerCommission));
    LegIfPasses(t, FEES, Value(t.platformFee));
    NoErrorAppend(a, b);
    NoErrorAppend(a + b, c);
    NoErrorAppend(a + b + c, d);
    NoErrorAppend(a + b + c + d, e);
  }
}
