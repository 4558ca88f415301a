/** Reconciliation of one ledger account against a provider's balances, and the corrections that close it. */
module Reconciliation {
  import opened Outcomes
  import opened Decimal
  import opened Text
  import opened LedgerTypes
  import opened Volumes
  import opened Effects
  import opened Ledger
  import opened LedgerSteps

  datatype Policy = Policy(id: string, name: string, ledgerName: string, ledgerQuery: string, providerName: string)

  datatype Drift = Drift(asset: string, ledgerBalance: string, providerBalance: string, difference: string)

  datatype RunStatus = StatusOk | StatusDrift | StatusError

  datatype RunResult = RunResult(id: string, policyId: string, status: RunStatus, ledgerBalances: map<string, string>,
                                 providerBalances: map<string, string>, drifts: seq<Drift>)

  /** A balance as the comparison reads it: absent, empty or not an integer counts as zero. */
  function ValueIn(balances: map<string, string>, asset: string): int {
    if asset in balances then Value(balances[asset]) else 0
  }

  function MakeDrift(asset: string, ledger: int, provider: int): Drift {
    Drift(asset, Print(ledger), Print(provider), Print(ledger - provider))
  }

  predicate HasDrift(drifts: seq<Drift>, asset: string) {
    exists i :: 0 <= i < |drifts| && drifts[i].asset == asset
  }

  predicate OneDriftEach(drifts: seq<Drift>) {
    forall i, j :: 0 <= i < j < |drifts| ==> drifts[i].asset != drifts[j].asset
  }

  /** One drift per asset on which the two sides differ, and no other. */
  ghost predicate DriftsExact(drifts: seq<Drift>, ledger: string -> int, provider: string -> int) {
    && OneDriftEach(drifts)
    && (forall i :: 0 <= i < |drifts| ==>
          drifts[i] == MakeDrift(drifts[i].asset, ledger(drifts[i].asset), provider(drifts[i].asset)))
    && (forall asset :: HasDrift(drifts, asset) <==> ledger(asset) != provider(asset))
  }

  /** A drift that tells these two balances and the first minus the second, each printed. */
  predicate Tells(d: Drift, ledger: int, provider: int) {
    && Value(d.ledgerBalance) == ledger && d.ledgerBalance == Print(ledger)
    && Value(d.providerBalance) == provider && d.providerBalance == Print(provider)
    && Value(d.difference) == ledger - provider && d.difference == Print(ledger - provider)
  }

  lemma ExactDriftsTell(drifts: seq<Drift>, ledger: string -> int, provider: string -> int)
    requires DriftsExact(drifts, ledger, provider)
    ensures forall i :: 0 <= i < |drifts| ==> Tells(drifts[i], ledger(drifts[i].asset), provider(drifts[i].asset))
  {
    hide Print, Parse;
    forall i | 0 <= i < |drifts| ensures Tells(drifts[i], ledger(drifts[i].asset), provider(drifts[i].asset)) {
      ParsePrint(ledger(drifts[i].asset));
      ParsePrint(provider(drifts[i].asset));
      ParsePrint(ledger(drifts[i].asset) - provider(drifts[i].asset));
    }
  }

  function Side(balances: map<string, string>): string -> int {
    (asset: string) => ValueIn(balances, asset)
  }

  function LedgerSide(st: State, ledger: string, account: string): string -> int {
    (asset: string) => Reported(st, ledger, account, asset)
  }

  /** Ledger and provider agree on every asset there is. */
  ghost predicate Reconciled(st: State, ledger: string, account: string, balances: map<string, string>) {
    forall asset :: LedgerSide(st, ledger, account)(asset) == Side(balances)(asset)
  }

  /** A run reports no drift exactly when ledger and provider agree on every asset. */
  lemma ExactDriftsDecide(drifts: seq<Drift>, st: State, ledger: string, account: string, balances: map<string, string>)
    requires DriftsExact(drifts, LedgerSide(st, ledger, account), Side(balances))
    ensures drifts == [] <==> Reconciled(st, ledger, account, balances)
  {
    if drifts == [] {
      forall asset ensures LedgerSide(st, ledger, account)(asset) == Side(balances)(asset) {
        assert !HasDrift(drifts, asset);
      }
    } else {
      assert HasDrift(drifts, drifts[0].asset);
    }
  }

  /** Ledger and provider agree when the ledger's transactions are replayed instead of its caches read. */
  ghost predicate ReplayReconciled(txs: seq<Transaction>, account: string, balances: map<string, string>) {
    forall asset :: Replayed(txs, account, asset) == Side(balances)(asset)
  }

  /*** Provider aggregation ***/

  datatype ProviderBalance = ProviderBalance(currency: string, available: string)

  function Counted(account: Option<ProviderBalance>, currency: string): int {
    if account.Some? && account.value.currency == currency then Value(account.value.available) else 0
  }

  /** The sum of what the provider's accounts report in one currency. */
  function SumFor(accounts: seq<Option<ProviderBalance>>, currency: string): int {
    if accounts == [] then 0
    else SumFor(accounts[..|accounts| - 1], currency) + Counted(accounts[|accounts| - 1], currency)
  }

  predicate Names(accounts: seq<Option<ProviderBalance>>, currency: string) {
    currency != "" && exists i :: 0 <= i < |accounts| && accounts[i].Some? && accounts[i].value.currency == currency
  }

  lemma {:induction false} SumForSplit(accounts: seq<Option<ProviderBalance>>, i: nat, currency: string)
    requires i < |accounts|
    ensures SumFor(accounts, currency) ==
      SumFor(accounts[..i] + accounts[i + 1..], currency) + Counted(accounts[i], currency)
  {
    var n := |accounts| - 1;
    var rest := accounts[..i] + accounts[i + 1..];
    if i == n {
      assert rest == accounts[..n];
    } else {
      var front := accounts[..n];
      SumForSplit(front, i, currency);
      assert rest[..|rest| - 1] == front[..i] + front[i + 1..];
      assert rest[|rest| - 1] == accounts[n];
    }
  }

  lemma WithoutOne<T>(s: seq<T>, i: nat)
    requires i < |s|
    ensures multiset(s[..i] + s[i + 1..]) == multiset(s) - multiset{s[i]}
  {
    assert s == s[..i] + ([s[i]] + s[i + 1..]);
  }

  /** The order in which the provider lists its accounts does not matter. */
  lemma {:induction false} SumForAnyOrder(a: seq<Option<ProviderBalance>>, b: seq<Option<ProviderBalance>>,
                                          currency: string)
    requires multiset(a) == multiset(b)
    ensures SumFor(a, currency) == SumFor(b, currency)
  {
    assert |a| == |multiset(a)| && |b| == |multiset(b)|;
    if a != [] {
      var n := |a| - 1;
      assert a[n] in multiset(b);
      var i :| 0 <= i < |b| && b[i] == a[n];
      WithoutOne(a, n);
      WithoutOne(b, i);
      assert a[..n] + a[n + 1..] == a[..n];
      SumForAnyOrder(a[..n], b[..i] + b[i + 1..], currency);
      SumForSplit(b, i, currency);
    }
  }

  predicate AggregatesAt(balances: map<string, string>, accounts: seq<Option<ProviderBalance>>, currency: string) {
    && (currency in balances <==> Names(accounts, currency))
    && (currency in balances ==> balances[currency] == Print(SumFor(accounts, currency)))
  }

  /** What the provider side holds: one printed sum per named currency. */
  ghost predicate Aggregates(balances: map<string, string>, accounts: seq<Option<ProviderBalance>>) {
    forall currency :: AggregatesAt(balances, accounts, currency)
  }

  lemma NamesAnyOrder(a: seq<Option<ProviderBalance>>, b: seq<Option<ProviderBalance>>, currency: string)
    requires multiset(a) == multiset(b) && Names(a, currency)
    ensures Names(b, currency)
  {
    var i :| 0 <= i < |a| && a[i].Some? && a[i].value.currency == currency;
    assert a[i] in multiset(b);
  }

  /** The same accounts in another order give the same provider balances. */
  lemma AggregatesAnyOrder(a: seq<Option<ProviderBalance>>, b: seq<Option<ProviderBalance>>,
                           m: map<string, string>, n: map<string, string>)
    requires multiset(a) == multiset(b)
    requires Aggregates(m, a) && Aggregates(n, b)
    ensures m == n
  {
    forall currency ensures currency in m <==> currency in n
                    ensures currency in m ==> m[currency] == n[currency]
    {
      assert AggregatesAt(m, a, currency) && AggregatesAt(n, b, currency);
      if currency in m { NamesAnyOrder(a, b, currency); }
      if currency in n { NamesAnyOrder(b, a, currency); }
      SumForAnyOrder(a, b, currency);
    }
  }

  /*** Corrections ***/

  /** One transaction of |difference| between another account and the policy's account, in the closing direction. */
  function Correction(d: Drift, account: string, other: string): Request {
    var difference := Value(d.difference);
    if difference > 0 then Request("", [Posting(0, 0, account, other, d.asset, Print(difference))])
    else Request("", [Posting(0, 0, other, account, d.asset, Print(-difference))])
  }

  function Corrected(st: State, ledger: string, account: string, other: string, drifts: seq<Drift>): State {
    if drifts == [] then st
    else Post(Corrected(st, ledger, account, other, drifts[..|drifts| - 1]), ledger,
              Correction(drifts[|drifts| - 1], account, other)).0
  }

  lemma LatestOfOneMore(flows: seq<Flow>, m: Flow, ledger: string, account: string, asset: string)
    ensures LatestNet(flows + [m], ledger, account, asset) ==
      if At(ledger, account, asset)(m) then m.ins - m.outs else LatestNet(flows, ledger, account, asset)
  {
    assert (flows + [m])[..|flows|] == flows;
  }

  function Debit(l: string, e: Entry, read: Volume): Flow {
    Flow(l, e.source, e.asset, true, e.amount, read.ins, read.outs + e.amount)
  }

  function Credit(l: string, e: Entry, read: Volume): Flow {
    Flow(l, e.destination, e.asset, false, e.amount, read.ins + e.amount, read.outs)
  }

  /** The two moves of a single posting read the stored volumes and add its amount: nothing else adjusts them. */
  lemma SinglePosting(l: string, e: Entry, stored: (string, string) -> Volume)
    requires e.source != e.destination
    ensures Build(l, [e], stored).moves ==
      [Debit(l, e, stored(e.source, e.asset)), Credit(l, e, stored(e.destination, e.asset))]
  {
    SameTail(e.source, e.destination, e.asset);
    assert [e][..0] == [];
    assert Build(l, [e][..0], stored) == Built([], map[]);
  }

  lemma ReportedAfterTwo(flows: seq<Flow>, l: string, e: Entry, account: string, asset: string, s: Volume, d: Volume)
    requires e.source != e.destination
    requires s == LatestVolume(flows, l, e.source, e.asset) && d == LatestVolume(flows, l, e.destination, e.asset)
    ensures LatestNet(flows + [Debit(l, e, s)] + [Credit(l, e, d)], l, account, asset) ==
            LatestNet(flows, l, account, asset) + EntryNet(e, account, asset)
  {
    LatestOfOneMore(flows + [Debit(l, e, s)], Credit(l, e, d), l, account, asset);
    LatestOfOneMore(flows, Debit(l, e, s), l, account, asset);
  }

  lemma ReportedAfterSingle(flows: seq<Flow>, l: string, e: Entry, account: string, asset: string)
    requires e.source != e.destination
    ensures LatestNet(flows + NewFlows(flows, l, [e]), l, account, asset) ==
            LatestNet(flows, l, account, asset) + EntryNet(e, account, asset)
  {
    var s, d := LatestVolume(flows, l, e.source, e.asset), LatestVolume(flows, l, e.destination, e.asset);
    SinglePosting(l, e, Stored(flows, l));
    assert flows + [Debit(l, e, s), Credit(l, e, d)] == flows + [Debit(l, e, s)] + [Credit(l, e, d)];
    ReportedAfterTwo(flows, l, e, account, asset, s, d);
  }

  function CorrectionEntry(d: Drift, account: string, other: string): Entry {
    var difference := Value(d.difference);
    if difference > 0 then Entry(account, other, d.asset, difference) else Entry(other, account, d.asset, -difference)
  }

  lemma CorrectionReads(d: Drift, account: string, other: string)
    ensures Entries(Correction(d, account, other).postings) == [CorrectionEntry(d, account, other)]
  {
    ParsePrint(Value(d.difference));
    ParsePrint(-Value(d.difference));
  }

  /** A correction is refused exactly when its asset is the empty string. */
  lemma CorrectionAccepted(d: Drift, account: string, other: string)
    requires ValidAddress(account) && ValidAddress(other) && account != other && Value(d.difference) != 0
    ensures FirstError(Correction(d, account, other).postings) == None <==> d.asset != ""
  {
    ParsePrint(Value(d.difference));
    ParsePrint(-Value(d.difference));
    var ps := Correction(d, account, other).postings;
    assert ps[..0] == [];
    assert FirstError(ps) == PostingError(ps[0], 0);
  }

  /** One correction moves the policy account by minus the difference in its asset, and by nothing in others. */
  lemma OneCorrection(st: State, ledger: string, account: string, other: string, d: Drift, asset: string)
    requires ValidAddress(account) && ValidAddress(other) && account != other && Value(d.difference) != 0
    ensures Reported(Post(st, ledger, Correction(d, account, other)).0, ledger, account, asset) ==
      Reported(st, ledger, account, asset) - if asset == d.asset && d.asset != "" then Value(d.difference) else 0
  {
    var req := Correction(d, account, other);
    CorrectionReads(d, account, other);
    CorrectionAccepted(d, account, other);
    PostCases(st, ledger, req);
    var (st', r) := Post(st, ledger, req);
    if d.asset != "" {
      CommitPosts(st, ledger, req);
      ReportedAfterSingle(Flows(st.moves), ledger, CorrectionEntry(d, account, other), account, asset);
    }
  }

  /** Differences measured against a fixed starting state. */
  ghost predicate Measured(drifts: seq<Drift>, before: string -> int, provider: string -> int) {
    && OneDriftEach(drifts)
    && forall i :: 0 <= i < |drifts| ==>
         Value(drifts[i].difference) == before(drifts[i].asset) - provider(drifts[i].asset) != 0
  }

  /** The provider's figure wherever a drift was corrected, the old balance elsewhere. */
  function Settled(drifts: seq<Drift>, asset: string, before: string -> int, provider: string -> int): int {
    if asset != "" && HasDrift(drifts, asset) then provider(asset) else before(asset)
  }

  lemma HasDriftAppend(drifts: seq<Drift>, d: Drift, asset: string)
    ensures HasDrift(drifts + [d], asset) <==> HasDrift(drifts, asset) || d.asset == asset
  {
    if HasDrift(drifts, asset) {
      var i :| 0 <= i < |drifts| && drifts[i].asset == asset;
      assert (drifts + [d])[i].asset == asset;
    }
    assert (drifts + [d])[|drifts|] == d;
  }

  lemma SettledStep(drifts: seq<Drift>, asset: string, before: string -> int, provider: string -> int)
    requires drifts != [] && Measured(drifts, before, provider)
    ensures var front, last := drifts[..|drifts| - 1], drifts[|drifts| - 1];
      && Measured(front, before, provider)
      && Value(last.difference) != 0
      && Settled(drifts, asset, before, provider) == Settled(front, asset, before, provider) -
           if asset == last.asset && last.asset != "" then Value(last.difference) else 0
  {
    var front, last := drifts[..|drifts| - 1], drifts[|drifts| - 1];
    HasDriftAppend(front, last, asset);
    assert drifts == front + [last];
  }

  lemma {:induction false} CorrectedBalance(st: State, ledger: string, account: string, other: string,
                                            drifts: seq<Drift>,
                                            provider: string -> int, asset: string)
    requires ValidAddress(account) && ValidAddress(other) && account != other
    requires Measured(drifts, LedgerSide(st, ledger, account), provider)
    ensures Reported(Corrected(st, ledger, account, other, drifts), ledger, account, asset) ==
      Settled(drifts, asset, LedgerSide(st, ledger, account), provider)
  {
    if drifts != [] {
      var n := |drifts| - 1;
      var front, last := drifts[..n], drifts[n];
      CorrectedBalance(st, ledger, account, other, front, provider, asset);
      OneCorrection(Corrected(st, ledger, account, other, front), ledger, account, other, last, asset);
      SettledStep(drifts, asset, LedgerSide(st, ledger, account), provider);
    }
  }

  lemma DriftDifference(asset: string, ledger: int, provider: int)
    ensures Value(MakeDrift(asset, ledger, provider).difference) == ledger - provider
  {
    ParsePrint(ledger - provider);
  }

  /** Corrective closure: after posting one correction per reported drift, ledger and provider agree on every asset,
      and the next run finds no drift, if and only if no drift is on the empty asset name (which no posting may
      carry). */
  lemma CorrectionsClose(st: State, ledger: string, account: string, other: string, drifts: seq<Drift>,
                         balances: map<string, string>)
    requires ValidAddress(account) && ValidAddress(other) && account != other
    requires DriftsExact(drifts, LedgerSide(st, ledger, account), Side(balances))
    ensures Reconciled(Corrected(st, ledger, account, other, drifts), ledger, account, balances) <==>
      !HasDrift(drifts, "")
  {
    var before, provider := LedgerSide(st, ledger, account), Side(balances);
    forall i | 0 <= i < |drifts|
      ensures Value(drifts[i].difference) == before(drifts[i].asset) - provider(drifts[i].asset) != 0
    {
      DriftDifference(drifts[i].asset, before(drifts[i].asset), provider(drifts[i].asset));
      assert HasDrift(drifts, drifts[i].asset);
    }
    var after := Corrected(st, ledger, account, other, drifts);
    forall asset
      ensures LedgerSide(after, ledger, account)(asset) == provider(asset) <==>
        !(asset == "" && HasDrift(drifts, asset))
    {
      CorrectedBalance(st, ledger, account, other, drifts, provider, asset);
    }
    if HasDrift(drifts, "") {
      assert LedgerSide(after, ledger, account)("") != provider("");
    }
  }
}
