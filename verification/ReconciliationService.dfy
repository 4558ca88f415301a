/** The reconciliation engine and the provider aggregation, over maps walked in any order. */
module ReconciliationService {
  import opened Outcomes
  import opened Decimal
  import opened Text
  import opened LedgerTypes
  import opened Volumes
  import opened Effects
  import opened Ledger
  import opened LedgerLaws
  import opened MemStore
  import LedgerService
  import opened Reconciliation

  /** The balances of the account, asset by asset, as its rows list them. */
  ghost predicate LedgerBalances(balances: map<string, string>, st: State, ledger: string, account: string) {
    forall asset :: ValueIn(balances, asset) == LedgerSide(st, ledger, account)(asset)
  }

  lemma NoRowNoMove(rows: seq<AccountBalance>, st: State, ledger: string, account: string, asset: string)
    requires ListsBalances(rows, st.moves, ledger, account) && !HasRow(rows, asset)
    ensures Reported(st, ledger, account, asset) == 0
  {
    assert LatestMove(st.moves, ledger, account, asset) == None;
    LatestFlow(st.moves, ledger, account, asset);
    NoLatest(st.moves, ledger, account, asset);
  }

  lemma RowsReport(rows: seq<AccountBalance>, balances: map<string, string>, st: State, ledger: string, account: string)
    requires ListsBalances(rows, st.moves, ledger, account)
    requires forall asset :: asset in balances <==> HasRow(rows, asset)
    requires forall asset :: asset in balances ==>
      balances[asset] == BalanceRow(st.moves, ledger, account, asset).balance
    ensures LedgerBalances(balances, st, ledger, account)
  {
    forall asset ensures ValueIn(balances, asset) == LedgerSide(st, ledger, account)(asset) {
      LatestFlow(st.moves, ledger, account, asset);
      if asset in balances {
        var v := LatestVolume(Flows(st.moves), ledger, account, asset);
        ParsePrint(v.ins - v.outs);
      } else {
        NoRowNoMove(rows, st, ledger, account, asset);
      }
    }
  }

  ghost predicate AllClean(txs: seq<Transaction>, account: string) {
    forall asset :: CleanAt(txs, account, asset)
  }

  /** When no stored transaction confuses the account, reading caches and replaying reconcile alike. */
  lemma ReconciledIsReplayed(ops: seq<Op>, ledger: string, account: string, balances: map<string, string>)
    requires AllClean(Txs(Run(ops), ledger), account)
    ensures Reconciled(Run(ops), ledger, account, balances) <==>
            ReplayReconciled(Txs(Run(ops), ledger), account, balances)
  {
    forall asset
      ensures LedgerSide(Run(ops), ledger, account)(asset) == Replayed(Txs(Run(ops), ledger), account, asset)
    {
      ReportedIsReplayed(ops, ledger, account, asset);
    }
  }

  /** The drifts found while some assets are still to be compared. */
  ghost predicate DriftsSoFar(drifts: seq<Drift>, left: map<string, string>, right: map<string, string>,
                              todo: set<string>) {
    && OneDriftEach(drifts)
    && (forall i :: 0 <= i < |drifts| ==>
          drifts[i] == MakeDrift(drifts[i].asset, Side(left)(drifts[i].asset), Side(right)(drifts[i].asset)))
    && (forall asset :: HasDrift(drifts, asset) <==> Side(left)(asset) != Side(right)(asset) && asset !in todo)
  }

  function Difference(left: map<string, string>, right: map<string, string>, asset: string): seq<Drift> {
    if Side(left)(asset) == Side(right)(asset) then []
    else [MakeDrift(asset, Side(left)(asset), Side(right)(asset))]
  }

  /** Comparing one more asset adds its drift if its two sides differ. */
  lemma OneCompared(drifts: seq<Drift>, left: map<string, string>, right: map<string, string>, todo: set<string>,
                    asset: string)
    requires DriftsSoFar(drifts, left, right, todo) && asset in todo
    ensures DriftsSoFar(drifts + Difference(left, right, asset), left, right, todo - {asset})
    ensures drifts + Difference(left, right, asset) == drifts <==> Side(left)(asset) == Side(right)(asset)
  {
    if Side(left)(asset) == Side(right)(asset) {
      assert drifts + Difference(left, right, asset) == drifts;
    } else {
      assert !HasDrift(drifts, asset);
      var drift := MakeDrift(asset, Side(left)(asset), Side(right)(asset));
      forall a ensures HasDrift(drifts + [drift], a) <==> HasDrift(drifts, a) || a == asset {
        HasDriftAppend(drifts, drift, a);
      }
    }
  }

  lemma NoneCompared(left: map<string, string>, right: map<string, string>)
    ensures DriftsSoFar([], left, right, left.Keys + right.Keys)
  {
  }

  lemma AllCompared(drifts: seq<Drift>, left: map<string, string>, right: map<string, string>)
    requires DriftsSoFar(drifts, left, right, {})
    ensures DriftsExact(drifts, Side(left), Side(right))
  {
  }

  /** The string compared for an asset: absent and empty balances are shown as zero. */
  function Shown(balances: map<string, string>, asset: string): string {
    var s := if asset in balances then balances[asset] else "";
    if s == "" then "0" else s
  }

  lemma EmptyReadsZero()
    ensures Value("") == 0 && Value("0") == 0
  {
    ParsePrint(0);
    assert Print(0) == "0";
  }

  lemma ShownReads(balances: map<string, string>, asset: string)
    ensures Value(Shown(balances, asset)) == Side(balances)(asset)
  {
    EmptyReadsZero();
  }

  /** A run is an error without provider balances; otherwise it reports every drift, and ok exactly when reconciled. */
  ghost predicate RunReports(result: RunResult, pol: Policy, st: State, provided: Option<map<string, string>>) {
    && LedgerBalances(result.ledgerBalances, st, pol.ledgerName, pol.ledgerQuery)
    && match provided
       case None => result.status == StatusError && result.drifts == []
       case Some(balances) =>
         && result.providerBalances == balances
         && DriftsExact(result.drifts, LedgerSide(st, pol.ledgerName, pol.ledgerQuery), Side(balances))
         && (result.status == StatusOk <==> Reconciled(st, pol.ledgerName, pol.ledgerQuery, balances))
         && (result.status == StatusDrift <==> result.drifts != [])
  }

  /** Measured by replay, wherever no stored transaction confuses the account. */
  ghost predicate ReplayReports(result: RunResult, pol: Policy, st: State, provided: Option<map<string, string>>) {
    provided.Some? && AllClean(Txs(st, pol.ledgerName), pol.ledgerQuery) ==>
      (result.status == StatusOk <==> ReplayReconciled(Txs(st, pol.ledgerName), pol.ledgerQuery, provided.value))
  }

  /** What a run's drift is about: the balance of the policy's account as the ledger reports it, against what the
      provider's entry reads as. */
  ghost predicate TellsRun(d: Drift, pol: Policy, st: State, balances: map<string, string>) {
    Tells(d, Reported(st, pol.ledgerName, pol.ledgerQuery, d.asset),
          if d.asset in balances then Value(balances[d.asset]) else 0)
  }

  /** The drifts of a run, figure by figure: each tells both sides and their difference truly, and every asset on which
      the two sides differ has exactly one. */
  lemma RunTellsDrifts(result: RunResult, pol: Policy, st: State, balances: map<string, string>)
    requires RunReports(result, pol, st, Some(balances))
    ensures forall i :: 0 <= i < |result.drifts| ==> TellsRun(result.drifts[i], pol, st, balances)
    ensures forall i, j :: 0 <= i < j < |result.drifts| ==> result.drifts[i].asset != result.drifts[j].asset
    ensures forall asset :: HasDrift(result.drifts, asset) <==>
      Reported(st, pol.ledgerName, pol.ledgerQuery, asset) != if asset in balances then Value(balances[asset]) else 0
  {
    hide Tells, Parse, Reported;
    var ledger, provider := LedgerSide(st, pol.ledgerName, pol.ledgerQuery), Side(balances);
    ExactDriftsTell(result.drifts, ledger, provider);
    forall asset
      ensures HasDrift(result.drifts, asset) <==>
        Reported(st, pol.ledgerName, pol.ledgerQuery, asset) != if asset in balances then Value(balances[asset]) else 0
    {
      assert HasDrift(result.drifts, asset) <==> ledger(asset) != provider(asset);
    }
  }

  lemma SidesAgree(drifts: seq<Drift>, left: map<string, string>, st: State, ledger: string, account: string,
                   right: map<string, string>)
    requires DriftsExact(drifts, Side(left), Side(right)) && LedgerBalances(left, st, ledger, account)
    ensures DriftsExact(drifts, LedgerSide(st, ledger, account), Side(right))
  {
    forall asset ensures Side(left)(asset) == LedgerSide(st, ledger, account)(asset) {
      assert ValueIn(left, asset) == LedgerSide(st, ledger, account)(asset);
    }
  }

  class Engine {
    const ledger: LedgerService.Service
    var policies: map<string, Policy>
    var results: seq<RunResult>
    var nextID: int

    constructor (ledger: LedgerService.Service)
      ensures this.ledger == ledger && policies == map[] && results == [] && nextID == 0
    {
      this.ledger := ledger;
      policies, results, nextID := map[], [], 0;
    }

    method GenID(prefix: string) returns (id: string)
      modifies `nextID
      ensures nextID == old(nextID) + 1 && id == prefix + "_" + Print(nextID)
    {
      nextID := nextID + 1;
      id := prefix + "_" + Print(nextID);
    }

    method AddPolicy(name: string, ledgerName: string, ledgerQuery: string, providerName: string) returns (p: Policy)
      modifies `policies, `nextID
      ensures nextID == old(nextID) + 1
      ensures p == Policy("pol_" + Print(nextID), name, ledgerName, ledgerQuery, providerName)
      ensures policies == old(policies)[p.id := p]
    {
      var id := GenID("pol");
      p := Policy(id, name, ledgerName, ledgerQuery, providerName);
      policies := policies[id := p];
    }

    /** The ledger side of a run: one entry per row, each holding what the ledger reports. */
    method ReadLedger(ledgerName: string, account: string) returns (balances: map<string, string>)
      ensures LedgerBalances(balances, ledger.store.View(), ledgerName, account)
    {
      hide Print, Parse, CleanAt, Ledger.Run;
      var rows := ledger.GetAccountBalances(ledgerName, account);
      ghost var moves := ledger.store.moves;
      balances := map[];
      for i := 0 to |rows|
        invariant forall asset :: asset in balances <==> HasRow(rows[..i], asset)
        invariant forall asset :: asset in balances ==>
          balances[asset] == BalanceRow(moves, ledgerName, account, asset).balance
      {
        assert rows[..i + 1] == rows[..i] + [rows[i]];
        forall asset ensures HasRow(rows[..i + 1], asset) <==> HasRow(rows[..i], asset) || rows[i].asset == asset {
          HasRowAppend(rows[..i], rows[i], asset);
        }
        balances := balances[rows[i].asset := rows[i].balance];
      }
      assert rows[..|rows|] == rows;
      RowsReport(rows, balances, ledger.store.View(), ledgerName, account);
    }

    /** The comparison loop over the union of both sides' assets. */
    static method Compare(left: map<string, string>, right: map<string, string>)
      returns (drifts: seq<Drift>, status: RunStatus)
      ensures DriftsExact(drifts, Side(left), Side(right))
      ensures forall i :: 0 <= i < |drifts| ==>
        Tells(drifts[i], ValueIn(left, drifts[i].asset), ValueIn(right, drifts[i].asset))
      ensures status == if drifts == [] then StatusOk else StatusDrift
    {
      hide Print, Parse, Tells, DriftsExact, DriftsSoFar;
      var allAssets := left.Keys + right.Keys;
      drifts, status := [], StatusOk;
      NoneCompared(left, right);
      while allAssets != {}
        invariant DriftsSoFar(drifts, left, right, allAssets)
        invariant status == if drifts == [] then StatusOk else StatusDrift
        decreases allAssets
      {
        var asset :| asset in allAssets;
        var lStr := if asset in left then left[asset] else "";
        var pStr := if asset in right then right[asset] else "";
        if lStr == "" {
          lStr := "0";
        }
        if pStr == "" {
          pStr := "0";
        }
        var lBal, pBal := Value(lStr), Value(pStr);
        ShownReads(left, asset);
        ShownReads(right, asset);
        OneCompared(drifts, left, right, allAssets, asset);
        ghost var compared := drifts + Difference(left, right, asset);
        if lBal != pBal {
          var drift := Drift(asset, Print(lBal), Print(pBal), Print(lBal - pBal));
          assert Difference(left, right, asset) == [drift];
          drifts := drifts + [drift];
          status := StatusDrift;
        }
        assert drifts == compared;
        allAssets := allAssets - {asset};
      }
      AllCompared(drifts, left, right);
      ExactDriftsTell(drifts, Side(left), Side(right));
    }

    /** One run. The provider is what GetBalances answers for a provider name; None stands for its error. */
    method Run(policyID: string, provider: string -> Option<map<string, string>>) returns (r: Result<RunResult>)
      requires ledger.Valid()
      modifies `results, `nextID
      ensures policyID !in policies ==> r == Err(PolicyNotFound) && unchanged(this)
      ensures policyID in policies ==>
        && r.Ok? && results == old(results) + [r.value] && nextID == old(nextID) + 1
        && r.value.id == "rec_" + Print(nextID) && r.value.policyId == policyID
        && RunReports(r.value, policies[policyID], ledger.store.View(), provider(policies[policyID].providerName))
        && ReplayReports(r.value, policies[policyID], ledger.store.View(), provider(policies[policyID].providerName))
      ensures policyID in policies && provider(policies[policyID].providerName).Some? ==>
        forall i :: 0 <= i < |r.value.drifts| ==>
          TellsRun(r.value.drifts[i], policies[policyID], ledger.store.View(),
                   provider(policies[policyID].providerName).value)
    {
      hide Print, Parse, Tells, TellsRun, DriftsExact, Reconciled, ReplayReconciled, LedgerBalances;
      if policyID !in policies {
        return Err(PolicyNotFound);
      }
      var pol := policies[policyID];
      var id := GenID("rec");
      var ledgerBalances := ReadLedger(pol.ledgerName, pol.ledgerQuery);
      var provBalances := provider(pol.providerName);
      var result;
      if provBalances == None {
        result := RunResult(id, policyID, StatusError, ledgerBalances, map[], []);
      } else {
        var drifts, status := Compare(ledgerBalances, provBalances.value);
        result := RunResult(id, policyID, status, ledgerBalances, provBalances.value, drifts);
        SidesAgree(drifts, ledgerBalances, ledger.store.View(), pol.ledgerName, pol.ledgerQuery, provBalances.value);
        ExactDriftsDecide(drifts, ledger.store.View(), pol.ledgerName, pol.ledgerQuery, provBalances.value);
        if AllClean(Txs(ledger.store.View(), pol.ledgerName), pol.ledgerQuery) {
          ReconciledIsReplayed(ledger.history, pol.ledgerName, pol.ledgerQuery, provBalances.value);
        }
      }
      if provBalances.Some? {
        RunTellsDrifts(result, pol, ledger.store.View(), provBalances.value);
      }
      results := results + [result];
      r := Ok(result);
    }

    /** ListResults: the stored results, newest first. */
    method ListResults() returns (listed: array<RunResult>)
      ensures listed.Length == |results|
      ensures forall i :: 0 <= i < |results| ==> listed[i] == results[|results| - 1 - i]
    {
      listed := new RunResult[|results|];
      for i := 0 to |results|
        invariant forall k :: 0 <= k < i ==> listed[|results| - 1 - k] == results[k]
      {
        listed[|results| - 1 - i] := results[i];
      }
      forall i | 0 <= i < |results| ensures listed[i] == results[|results| - 1 - i] {
        var k := |results| - 1 - i;
        assert listed[|results| - 1 - k] == results[k];
      }
    }
  }

  /** Run, post one correction per drift, run again against the same provider: the second run is ok and reports nothing,
      if and only if the first reported no drift on the empty asset name. */
  lemma NextRunIsOk(first: RunResult, next: RunResult, pol: Policy, st: State, other: string,
                    balances: map<string, string>)
    requires ValidAddress(pol.ledgerQuery) && ValidAddress(other) && pol.ledgerQuery != other
    requires RunReports(first, pol, st, Some(balances))
    requires RunReports(next, pol, Corrected(st, pol.ledgerName, pol.ledgerQuery, other, first.drifts), Some(balances))
    ensures next.status == StatusOk && next.drifts == [] <==> !HasDrift(first.drifts, "")
  {
    CorrectionsClose(st, pol.ledgerName, pol.ledgerQuery, other, first.drifts, balances);
    ExactDriftsDecide(next.drifts, Corrected(st, pol.ledgerName, pol.ledgerQuery, other, first.drifts), pol.ledgerName,
                      pol.ledgerQuery, balances);
  }

  lemma {:induction false} NoNetInEmptyAsset(es: seq<Entry>, account: string)
    requires forall i :: 0 <= i < |es| ==> Acceptable(es[i])
    ensures NetOf(es, account, "") == 0
  {
    if es != [] {
      NoNetInEmptyAsset(es[..|es| - 1], account);
    }
  }

  lemma {:induction false} NothingReplayed(txs: seq<Transaction>, account: string)
    requires forall i :: 0 <= i < |txs| ==> FirstError(txs[i].postings) == None
    ensures Replayed(txs, account, "") == 0
  {
    if txs != [] {
      var n := |txs| - 1;
      NothingReplayed(txs[..n], account);
      AllAcceptable(txs[n].postings);
      NoNetInEmptyAsset(Entries(txs[n].postings), account);
    }
  }

  lemma NothingTouched(txs: seq<Transaction>, account: string)
    requires forall i :: 0 <= i < |txs| ==> FirstError(txs[i].postings) == None
    ensures CleanAt(txs, account, "")
  {
    forall i | 0 <= i < |txs| ensures !Touches(Entries(txs[i].postings), account, "") {
      AllAcceptable(txs[i].postings);
    }
  }

  /** No posting carries the empty asset, so after any run every account reports zero in it. */
  lemma EmptyAssetReadsZero(ops: seq<Op>, ledger: string, account: string)
    ensures Reported(Run(ops), ledger, account, "") == 0
  {
    var txs := Txs(Run(ops), ledger);
    RunKeepsBooks(ops);
    assert WellKept(Run(ops), ledger);
    forall i | 0 <= i < |txs| ensures FirstError(txs[i].postings) == None {
      assert Valid(txs[i], ledger, Run(ops).nextID);
    }
    NothingTouched(txs, account);
    NothingReplayed(txs, account);
    ReportedIsReplayed(ops, ledger, account, "");
  }

  /** After any run of the ledger, corrections close the drifts if and only if the provider reports zero, or nothing,
      on the empty asset. */
  lemma ClosedIffNoEmptyEntry(ops: seq<Op>, ledger: string, account: string, other: string, drifts: seq<Drift>,
                              balances: map<string, string>)
    requires ValidAddress(account) && ValidAddress(other) && account != other
    requires DriftsExact(drifts, LedgerSide(Run(ops), ledger, account), Side(balances))
    ensures Reconciled(Corrected(Run(ops), ledger, account, other, drifts), ledger, account, balances) <==>
            ValueIn(balances, "") == 0
  {
    var before := LedgerSide(Run(ops), ledger, account);
    EmptyAssetReadsZero(ops, ledger, account);
    assert before("") == 0 && Side(balances)("") == ValueIn(balances, "");
    assert HasDrift(drifts, "") <==> before("") != Side(balances)("");
    CorrectionsClose(Run(ops), ledger, account, other, drifts, balances);
  }

  /** The provider balances the registry aggregates never name the empty asset, so with them corrections always
      close. */
  lemma AggregatesClose(ops: seq<Op>, ledger: string, account: string, other: string, drifts: seq<Drift>,
                        balances: map<string, string>, accounts: seq<Option<ProviderBalance>>)
    requires ValidAddress(account) && ValidAddress(other) && account != other
    requires Aggregates(balances, accounts)
    requires DriftsExact(drifts, LedgerSide(Run(ops), ledger, account), Side(balances))
    ensures "" !in balances
    ensures Reconciled(Corrected(Run(ops), ledger, account, other, drifts), ledger, account, balances)
  {
    assert AggregatesAt(balances, accounts, "");
    ClosedIffNoEmptyEntry(ops, ledger, account, other, drifts, balances);
  }

  /** A provider with another aggregation can report an amount on the empty asset: that drift is never closed. */
  lemma EmptyEntryStaysOpen(ops: seq<Op>, ledger: string, account: string, other: string, drifts: seq<Drift>)
    requires ValidAddress(account) && ValidAddress(other) && account != other
    requires DriftsExact(drifts, LedgerSide(Run(ops), ledger, account), Side(map["" := "5"]))
    ensures !Reconciled(Corrected(Run(ops), ledger, account, other, drifts), ledger, account, map["" := "5"])
  {
    ParsePrint(5);
    assert Print(5) == "5";
    ClosedIffNoEmptyEntry(ops, ledger, account, other, drifts, map["" := "5"]);
  }

  lemma AbsentReadsZero(balances: map<string, string>, currency: string)
    ensures Value(if currency in balances then balances[currency] else "") == ValueIn(balances, currency)
  {
    EmptyReadsZero();
  }

  lemma NamesAppend(accounts: seq<Option<ProviderBalance>>, account: Option<ProviderBalance>, currency: string)
    ensures Names(accounts + [account], currency) <==>
      Names(accounts, currency) || (currency != "" && account.Some? && account.value.currency == currency)
  {
    var all := accounts + [account];
    if Names(accounts, currency) {
      var i :| 0 <= i < |accounts| && accounts[i].Some? && accounts[i].value.currency == currency;
      assert all[i] == accounts[i];
    }
    assert all[|accounts|] == account;
  }

  lemma {:induction false} UnnamedSum(accounts: seq<Option<ProviderBalance>>, currency: string)
    requires !Names(accounts, currency) && currency != ""
    ensures SumFor(accounts, currency) == 0
  {
    if accounts != [] {
      UnnamedSum(accounts[..|accounts| - 1], currency);
    }
  }

  lemma OneMoreAccount(before: map<string, string>, after: map<string, string>,
                       accounts: seq<Option<ProviderBalance>>, account: Option<ProviderBalance>)
    requires Aggregates(before, accounts)
    requires after == if account.Some? && account.value.currency != ""
                      then before[account.value.currency := Print(ValueIn(before, account.value.currency) +
                                                                  Value(account.value.available))]
                      else before
    ensures Aggregates(after, accounts + [account])
  {
    hide Print, Parse;
    var all := accounts + [account];
    assert all[..|all| - 1] == accounts;
    forall currency ensures AggregatesAt(after, all, currency) {
      assert AggregatesAt(before, accounts, currency);
      ParsePrint(SumFor(accounts, currency));
      NamesAppend(accounts, account, currency);
      if currency != "" && !Names(accounts, currency) {
        UnnamedSum(accounts, currency);
      }
    }
  }

  /** The registry's aggregation of a provider's account list; None is an unknown provider or a failed listing. */
  method GetBalances(listed: Option<seq<Option<ProviderBalance>>>) returns (balances: Option<map<string, string>>)
    ensures balances == None <==> listed == None
    ensures listed.Some? ==> Aggregates(balances.value, listed.value)
  {
    if listed == None {
      return None;
    }
    var accounts := listed.value;
    var sums: map<string, string> := map[];
    for i := 0 to |accounts|
      invariant Aggregates(sums, accounts[..i])
    {
      ghost var before := sums;
      var account := accounts[i];
      if account.Some? && account.value.currency != "" {
        var currency := account.value.currency;
        AbsentReadsZero(sums, currency);
        var existing := Value(if currency in sums then sums[currency] else "");
        var add := Value(account.value.available);
        sums := sums[currency := Print(existing + add)];
      }
      assert accounts[..i + 1] == accounts[..i] + [account];
      OneMoreAccount(before, sums, accounts[..i], account);
    }
    assert accounts[..|accounts|] == accounts;
    balances := Some(sums);
  }
}
