/** What holds of the books in every state a run of ledger calls can reach. */
module LedgerLaws {
  import opened Outcomes
  import opened Decimal
  import opened Text
  import opened LedgerTypes
  import opened Volumes
  import opened Effects
  import opened Ledger
  import opened LedgerSteps

  /*** Well-kept books ***/

  ghost predicate IncreasingIds(txs: seq<Transaction>) {
    forall i, j :: 0 <= i < j < |txs| ==> txs[i].id < txs[j].id
  }

  /** At most one transaction per non-empty reference. */
  ghost predicate UniqueReferences(txs: seq<Transaction>) {
    forall i, j :: 0 <= i < j < |txs| ==> txs[i].reference == "" || txs[i].reference != txs[j].reference
  }

  ghost predicate Valid(tx: Transaction, ledger: string, nextID: int) {
    0 < tx.id <= nextID && tx.ledger == ledger && tx.postings != [] && FirstError(tx.postings) == None
  }

  ghost predicate WellKept(st: State, ledger: string) {
    var txs := Txs(st, ledger);
    && (forall i :: 0 <= i < |txs| ==> Valid(txs[i], ledger, st.nextID))
    && IncreasingIds(txs)
    && UniqueReferences(txs)
  }

  ghost predicate PositiveFlows(flows: seq<Flow>) {
    forall i :: 0 <= i < |flows| ==> flows[i].amount > 0
  }

  /** The moves of an account net to the replay of its ledger's transactions, and cancel over the ledger. */
  ghost predicate NetAgrees(st: State, ledger: string, account: string, asset: string) {
    && TotalNet(Flows(st.moves), ledger, account, asset) == Replayed(Txs(st, ledger), account, asset)
    && LedgerNet(Flows(st.moves), ledger, asset) == 0
  }

  /** The move list is a faithful double-entry record of the transaction lists. */
  ghost predicate Agrees(st: State) {
    && AllCanonical(st.moves)
    && PositiveFlows(Flows(st.moves))
    && forall ledger, account, asset :: NetAgrees(st, ledger, account, asset)
  }

  ghost predicate Books(st: State) {
    && st.nextID >= 0
    && (forall ledger :: WellKept(st, ledger))
    && Agrees(st)
  }

  lemma {:induction false} NoErrorMeaning(ps: seq<Posting>)
    ensures FirstError(ps) == None <==> forall i :: 0 <= i < |ps| ==> PostingError(ps[i], i) == None
  {
    hide PostingError;
    if ps != [] {
      var front := ps[..|ps| - 1];
      NoErrorMeaning(front);
      assert forall i :: 0 <= i < |front| ==> front[i] == ps[i];
    }
  }

  /** The error returned is that of the first posting in error; all earlier postings pass. */
  lemma {:induction false} FirstErrorMeaning(ps: seq<Posting>) returns (i: nat)
    requires FirstError(ps).Some?
    ensures i < |ps| && PostingError(ps[i], i) == FirstError(ps)
    ensures forall k :: 0 <= k < i ==> PostingError(ps[k], k) == None
  {
    var front := ps[..|ps| - 1];
    if FirstError(front).Some? {
      i := FirstErrorMeaning(front);
      assert forall k :: 0 <= k <= i ==> front[k] == ps[k];
    } else {
      i := |ps| - 1;
      NoErrorMeaning(front);
      assert forall k :: 0 <= k < i ==> front[k] == ps[k];
    }
  }

  lemma AllAcceptable(ps: seq<Posting>)
    requires FirstError(ps) == None
    ensures forall i :: 0 <= i < |ps| ==> Acceptable(Entries(ps)[i])
  {
    NoErrorMeaning(ps);
    forall i | 0 <= i < |ps| ensures Acceptable(Entries(ps)[i]) {
      assert PostingError(ps[i], i) == None;
    }
  }

  lemma {:induction false} FindReferenceMeaning(txs: seq<Transaction>, reference: string)
    ensures FindReference(txs, reference) == None <==> forall i :: 0 <= i < |txs| ==> txs[i].reference != reference
    ensures FindReference(txs, reference).Some? ==>
      FindReference(txs, reference).value in txs && FindReference(txs, reference).value.reference == reference
  {
    if txs != [] {
      FindReferenceMeaning(txs[..|txs| - 1], reference);
      assert txs == txs[..|txs| - 1] + [txs[|txs| - 1]];
    }
  }

  lemma {:induction false} FindIdMeaning(txs: seq<Transaction>, id: int)
    ensures FindId(txs, id) == None <==> forall i :: 0 <= i < |txs| ==> txs[i].id != id
    ensures IncreasingIds(txs) ==> forall i :: 0 <= i < |txs| && txs[i].id == id ==> FindId(txs, id) == Some(i)
  {
    if txs != [] {
      FindIdMeaning(txs[..|txs| - 1], id);
    }
  }

  lemma {:induction false} ReplayedAppend(txs: seq<Transaction>, tx: Transaction, account: string, asset: string)
    ensures Replayed(txs + [tx], account, asset) ==
      Replayed(txs, account, asset) + NetOf(Entries(tx.postings), account, asset)
  {
    assert (txs + [tx])[..|txs|] == txs;
  }

  /** Marking a transaction reverted does not touch any balance. */
  lemma {:induction false} ReplayedIgnoresMarks(a: seq<Transaction>, b: seq<Transaction>, account: string,
                                                asset: string)
    requires |a| == |b| && forall i :: 0 <= i < |a| ==> a[i].postings == b[i].postings
    ensures Replayed(a, account, asset) == Replayed(b, account, asset)
  {
    if a != [] {
      ReplayedIgnoresMarks(a[..|a| - 1], b[..|b| - 1], account, asset);
    }
  }

  lemma WellKeptAppend(txs: seq<Transaction>, tx: Transaction)
    requires IncreasingIds(txs) && UniqueReferences(txs)
    requires forall i :: 0 <= i < |txs| ==> txs[i].id < tx.id
    requires tx.reference == "" || FindReference(txs, tx.reference) == None
    ensures IncreasingIds(txs + [tx]) && UniqueReferences(txs + [tx])
  {
    FindReferenceMeaning(txs, tx.reference);
  }

  lemma ValidAppend(txs: seq<Transaction>, tx: Transaction, ledger: string, before: int, after: int)
    requires before <= after && Valid(tx, ledger, after)
    requires forall i :: 0 <= i < |txs| ==> Valid(txs[i], ledger, before)
    ensures forall i :: 0 <= i < |txs + [tx]| ==> Valid((txs + [tx])[i], ledger, after)
  {
    forall i | 0 <= i < |txs + [tx]| ensures Valid((txs + [tx])[i], ledger, after) {
      if i < |txs| {
        assert Valid(txs[i], ledger, before);
      }
    }
  }

  lemma WellKeptAfterPost(st: State, st': State, ledger: string, tx: Transaction, l: string)
    requires st.nextID >= 0 && WellKept(st, l) && Posted(st, st', ledger, tx)
    ensures WellKept(st', l)
  {
    var txs := Txs(st, l);
    if l == ledger {
      ValidAppend(txs, tx, l, st.nextID, st'.nextID);
      WellKeptAppend(txs, tx);
      assert Txs(st', l) == txs + [tx];
    } else {
      assert Txs(st', l) == txs;
      assert forall i :: 0 <= i < |txs| ==> Valid(txs[i], l, st.nextID);
    }
  }

  lemma ReplayedIf(txs: seq<Transaction>, tx: Transaction, appended: bool, account: string, asset: string)
    ensures Replayed(if appended then txs + [tx] else txs, account, asset) ==
            Replayed(txs, account, asset) + if appended then NetOf(Entries(tx.postings), account, asset) else 0
  {
    ReplayedAppend(txs, tx, account, asset);
  }

  lemma NetsAfterPost(st: State, st': State, ledger: string, tx: Transaction, l: string, account: string, asset: string)
    requires Posted(st, st', ledger, tx)
    requires NetAgrees(st, l, account, asset)
    ensures NetAgrees(st', l, account, asset)
  {
    var flows, entries := Flows(st.moves), Entries(tx.postings);
    BuildNet(ledger, entries, Stored(flows, ledger), l, account, asset);
    NetsAppend(flows, NewFlows(flows, ledger, entries), l, account, asset);
    ReplayedIf(Txs(st, l), tx, l == ledger, account, asset);
    assert Txs(st', l) == if l == ledger then Txs(st, l) + [tx] else Txs(st, l);
  }

  lemma AmountsAfterPost(st: State, st': State, ledger: string, tx: Transaction)
    requires Posted(st, st', ledger, tx)
    requires PositiveFlows(Flows(st.moves))
    ensures PositiveFlows(Flows(st'.moves))
  {
    var flows, entries := Flows(st.moves), Entries(tx.postings);
    var added := NewFlows(flows, ledger, entries);
    BuildShape(ledger, entries, Stored(flows, ledger));
    AllAcceptable(tx.postings);
    forall i | 0 <= i < |added| ensures added[i].amount > 0 {
      assert Acceptable(entries[i / 2]);
    }
  }

  lemma AgreesAfterPost(st: State, st': State, ledger: string, tx: Transaction)
    requires Agrees(st) && Posted(st, st', ledger, tx)
    ensures Agrees(st')
  {
    forall l, account, asset ensures NetAgrees(st', l, account, asset) {
      NetsAfterPost(st, st', ledger, tx, l, account, asset);
    }
    AmountsAfterPost(st, st', ledger, tx);
  }

  lemma BooksAfterPost(st: State, st': State, ledger: string)
    requires Books(st) && PostStep(st, st', ledger)
    ensures Books(st')
  {
    if SameBooks(st, st') {
      forall l ensures WellKept(st', l) { assert WellKept(st, l); }
      forall l, account, asset ensures NetAgrees(st', l, account, asset) { assert NetAgrees(st, l, account, asset); }
    } else {
      var tx :| Posted(st, st', ledger, tx);
      forall l ensures WellKept(st', l) { WellKeptAfterPost(st, st', ledger, tx, l); }
      AgreesAfterPost(st, st', ledger, tx);
    }
  }

  lemma WellKeptAfterMark(st: State, st': State, ledger: string, l: string)
    requires WellKept(st, l) && MarkStep(st, st', ledger)
    ensures WellKept(st', l)
    ensures |Txs(st', l)| == |Txs(st, l)|
    ensures forall i :: 0 <= i < |Txs(st, l)| ==> Txs(st', l)[i] == Txs(st, l)[i].(reverted := Txs(st', l)[i].reverted)
  {
    var txs, txs' := Txs(st, l), Txs(st', l);
    if !SameBooks(st, st') {
      var i: nat :| Marked(st, st', ledger, i);
      assert txs' == if l == ledger then txs[i := txs[i].(reverted := true)] else txs;
    }
    assert forall i :: 0 <= i < |txs| ==> Valid(txs[i], l, st.nextID);
  }

  lemma BooksAfterMark(st: State, st': State, ledger: string)
    requires Books(st) && MarkStep(st, st', ledger)
    ensures Books(st')
  {
    assert st'.moves == st.moves && st'.nextID >= st.nextID;
    forall l ensures WellKept(st', l) {
      assert WellKept(st, l);
      WellKeptAfterMark(st, st', ledger, l);
    }
    forall l, account, asset ensures NetAgrees(st', l, account, asset) {
      assert NetAgrees(st, l, account, asset);
      assert WellKept(st, l);
      WellKeptAfterMark(st, st', ledger, l);
      ReplayedIgnoresMarks(Txs(st', l), Txs(st, l), account, asset);
    }
  }

  /** Every reachable state has well-kept books. */
  lemma {:induction false} RunKeepsBooks(ops: seq<Op>)
    ensures Books(Run(ops))
  {
    if ops == [] {
      assert forall l :: Txs(EMPTY, l) == [];
      forall l ensures WellKept(EMPTY, l) {}
      assert Flows(EMPTY.moves) == [];
    } else {
      var st := Run(ops[..|ops| - 1]);
      RunKeepsBooks(ops[..|ops| - 1]);
      var mid := ApplySteps(st, ops[|ops| - 1]);
      BooksAfterPost(st, mid, ops[|ops| - 1].ledger);
      BooksAfterMark(mid, Run(ops), ops[|ops| - 1].ledger);
    }
  }

  /*** Cached volumes and replay ***/

  /** No stored transaction touches this pair after another pair under its key. */
  ghost predicate CleanAt(txs: seq<Transaction>, account: string, asset: string) {
    forall i :: 0 <= i < |txs| ==> NoClashBefore(Entries(txs[i].postings), account, asset)
  }

  ghost predicate NoneClash(txs: seq<Transaction>) {
    forall i :: 0 <= i < |txs| ==> NoClash(Entries(txs[i].postings))
  }

  /** The pair's running totals are exact throughout, and what is read is what is replayed, if and only if no stored
      transaction touches the pair after another one under its key. */
  ghost predicate PairLaw(st: State, ledger: string, account: string, asset: string) {
    var clean, flows := CleanAt(Txs(st, ledger), account, asset), Flows(st.moves);
    && ReadsAtLeast(flows, ledger, account, asset)
    && (ExactAt(flows, ledger, account, asset) <==> clean)
    && (ReadsTotals(flows, ledger, account, asset) <==> clean)
  }

  /** The running totals are exact throughout if and only if no stored transaction clashes. */
  ghost predicate CacheIff(st: State) {
    CachesExact(Flows(st.moves)) <==> forall ledger :: NoneClash(Txs(st, ledger))
  }

  lemma CleanAppend(txs: seq<Transaction>, tx: Transaction, account: string, asset: string)
    ensures CleanAt(txs + [tx], account, asset) <==>
      CleanAt(txs, account, asset) && NoClashBefore(Entries(tx.postings), account, asset)
  {
    hide NoClashBefore;
    var txs' := txs + [tx];
    assert forall i :: 0 <= i < |txs| ==> txs'[i] == txs[i];
    assert txs'[|txs|] == tx;
  }

  lemma PairLawAfterPost(st: State, st': State, ledger: string, tx: Transaction, l: string, account: string,
                         asset: string)
    requires Posted(st, st', ledger, tx) && PairLaw(st, l, account, asset)
    ensures PairLaw(st', l, account, asset)
  {
    hide NoClashBefore, CleanAt, ExactAt, ReadsTotals, ReadsAtLeast, FirstError, Build;
    var flows, entries := Flows(st.moves), Entries(tx.postings);
    var added := NewFlows(flows, ledger, entries);
    AllAcceptable(tx.postings);
    assert Txs(st', l) == if l == ledger then Txs(st, l) + [tx] else Txs(st, l);
    if l == ledger {
      CleanAppend(Txs(st, l), tx, account, asset);
      PairReadLaw(flows, ledger, entries, added, account, asset);
      if ExactAt(flows, l, account, asset) {
        PairCacheLaw(flows, ledger, entries, added, account, asset);
      } else if ExactAt(flows + added, l, account, asset) {
        ExactPrefix(flows, added, l, account, asset);
      }
    } else {
      BuildShape(ledger, entries, Stored(flows, ledger));
      ReadsStay(flows, added, l, account, asset);
      if ExactAt(flows, l, account, asset) {
        ExactOtherLedger(flows, added, l, account, asset);
      } else if ExactAt(flows + added, l, account, asset) {
        ExactPrefix(flows, added, l, account, asset);
      }
    }
  }

  lemma NoneClashAppend(txs: seq<Transaction>, tx: Transaction)
    ensures NoneClash(txs + [tx]) <==> NoneClash(txs) && NoClash(Entries(tx.postings))
  {
    var txs' := txs + [tx];
    assert forall i :: 0 <= i < |txs| ==> txs'[i] == txs[i];
    assert txs'[|txs|] == tx;
  }

  lemma CacheIffAfterPost(st: State, st': State, ledger: string, tx: Transaction)
    requires Posted(st, st', ledger, tx) && CacheIff(st)
    ensures CacheIff(st')
  {
    var flows, entries := Flows(st.moves), Entries(tx.postings);
    var added := NewFlows(flows, ledger, entries);
    AllAcceptable(tx.postings);
    NoneClashAppend(Txs(st, ledger), tx);
    assert Txs(st', ledger) == Txs(st, ledger) + [tx];
    assert forall l :: l != ledger ==> Txs(st', l) == Txs(st, l);
    assert (forall l :: NoneClash(Txs(st', l))) <==> (forall l :: NoneClash(Txs(st, l))) && NoClash(entries) by {
      if forall l :: NoneClash(Txs(st', l)) {
        assert NoneClash(Txs(st', ledger));
        forall l ensures NoneClash(Txs(st, l)) { assert NoneClash(Txs(st', l)); }
      }
    }
    if CachesExact(flows) {
      CacheLaw(flows, ledger, entries, added);
    } else {
      var l, account, asset :| !ExactAt(flows, l, account, asset);
      if ExactAt(flows + added, l, account, asset) {
        ExactPrefix(flows, added, l, account, asset);
      }
    }
  }

  lemma ClashesIgnoreMarks(a: seq<Transaction>, b: seq<Transaction>, account: string, asset: string)
    requires |a| == |b| && forall i :: 0 <= i < |a| ==> a[i].postings == b[i].postings
    ensures NoneClash(a) <==> NoneClash(b)
    ensures CleanAt(a, account, asset) <==> CleanAt(b, account, asset)
  {
  }

  lemma PairLawAfterMark(st: State, st': State, l: string, ledger: string, account: string, asset: string)
    requires WellKept(st, ledger) && PairLaw(st, ledger, account, asset) && MarkStep(st, st', l)
    ensures PairLaw(st', ledger, account, asset)
  {
    assert st'.moves == st.moves;
    WellKeptAfterMark(st, st', l, ledger);
    ClashesIgnoreMarks(Txs(st, ledger), Txs(st', ledger), account, asset);
  }

  lemma PairLawAfterCall(st: State, mid: State, st': State, l: string, ledger: string, account: string, asset: string)
    requires Books(st) && PairLaw(st, ledger, account, asset)
    requires PostStep(st, mid, l) && MarkStep(mid, st', l)
    ensures PairLaw(st', ledger, account, asset)
  {
    assert PairLaw(mid, ledger, account, asset) by {
      if !SameBooks(st, mid) {
        var tx :| Posted(st, mid, l, tx);
        PairLawAfterPost(st, mid, l, tx, ledger, account, asset);
      }
    }
    assert WellKept(mid, ledger) by { BooksAfterPost(st, mid, l); }
    PairLawAfterMark(mid, st', l, ledger, account, asset);
  }

  lemma {:induction false} RunKeepsPairLaw(ops: seq<Op>, ledger: string, account: string, asset: string)
    ensures PairLaw(Run(ops), ledger, account, asset)
  {
    if ops != [] {
      RunKeepsPairLaw(ops[..|ops| - 1], ledger, account, asset);
      RunKeepsBooks(ops[..|ops| - 1]);
      var mid := ApplySteps(Run(ops[..|ops| - 1]), ops[|ops| - 1]);
      PairLawAfterCall(Run(ops[..|ops| - 1]), mid, Run(ops), ops[|ops| - 1].ledger, ledger, account, asset);
    }
  }

  lemma CacheIffSameClashes(st: State, st': State)
    requires CacheIff(st) && st'.moves == st.moves
    requires forall l :: NoneClash(Txs(st', l)) == NoneClash(Txs(st, l))
    ensures CacheIff(st')
  {
  }

  lemma CacheIffAfterMark(st: State, st': State, ledger: string)
    requires Books(st) && CacheIff(st) && MarkStep(st, st', ledger)
    ensures CacheIff(st')
  {
    forall l ensures NoneClash(Txs(st', l)) == NoneClash(Txs(st, l)) {
      assert WellKept(st, l);
      WellKeptAfterMark(st, st', ledger, l);
      ClashesIgnoreMarks(Txs(st, l), Txs(st', l), "", "");
    }
    assert st'.moves == st.moves;
    CacheIffSameClashes(st, st');
  }

  /** The exact law of the cached volumes over whole runs. */
  lemma {:induction false} RunCacheLaw(ops: seq<Op>)
    ensures CacheIff(Run(ops))
  {
    if ops == [] {
      assert Flows(EMPTY.moves) == [];
    } else {
      var st := Run(ops[..|ops| - 1]);
      RunCacheLaw(ops[..|ops| - 1]);
      RunKeepsBooks(ops[..|ops| - 1]);
      var mid := ApplySteps(st, ops[|ops| - 1]);
      if SameBooks(st, mid) {
        CacheIffSameClashes(st, mid);
      } else {
        var tx :| Posted(st, mid, ops[|ops| - 1].ledger, tx);
        CacheIffAfterPost(st, mid, ops[|ops| - 1].ledger, tx);
      }
      BooksAfterPost(st, mid, ops[|ops| - 1].ledger);
      CacheIffAfterMark(mid, Run(ops), ops[|ops| - 1].ledger);
    }
  }

  /** A read returns the volumes replayed from the moves exactly where no stored transaction touches the pair after
      another one under its key; elsewhere it returns more. */
  lemma ReadIsReplayedIff(ops: seq<Op>, ledger: string, account: string, asset: string)
    ensures var flows := Flows(Run(ops).moves);
      var read, replayed := LatestVolume(flows, ledger, account, asset), Totals(flows, ledger, account, asset);
      && (read == replayed <==> CleanAt(Txs(Run(ops), ledger), account, asset))
      && read.ins >= replayed.ins && read.outs >= replayed.outs
  {
    hide CleanAt, LatestVolume, Totals, Run;
    RunKeepsPairLaw(ops, ledger, account, asset);
  }

  /** There the reported balance is the replay of the ledger's transactions on that account. */
  lemma ReportedIsReplayed(ops: seq<Op>, ledger: string, account: string, asset: string)
    requires CleanAt(Txs(Run(ops), ledger), account, asset)
    ensures Reported(Run(ops), ledger, account, asset) == Replayed(Txs(Run(ops), ledger), account, asset)
  {
    RunKeepsPairLaw(ops, ledger, account, asset);
    RunKeepsBooks(ops);
    assert NetAgrees(Run(ops), ledger, account, asset);
    LatestIsTotal(Flows(Run(ops).moves), ledger, account, asset);
  }

  function SumReported(st: State, ledger: string, asset: string, accounts: seq<string>): int {
    if accounts == [] then 0
    else SumReported(st, ledger, asset, accounts[..|accounts| - 1]) +
         Reported(st, ledger, accounts[|accounts| - 1], asset)
  }

  lemma {:induction false} SumReportedIsSumBalances(st: State, ledger: string, asset: string, accounts: seq<string>)
    requires forall k :: 0 <= k < |accounts| ==>
      Reported(st, ledger, accounts[k], asset) == TotalNet(Flows(st.moves), ledger, accounts[k], asset)
    ensures SumReported(st, ledger, asset, accounts) == SumBalances(Flows(st.moves), ledger, asset, accounts)
  {
    if accounts != [] {
      SumReportedIsSumBalances(st, ledger, asset, accounts[..|accounts| - 1]);
    }
  }

  ghost predicate Covers(accounts: seq<string>, moves: seq<Move>, ledger: string, asset: string) {
    forall i :: 0 <= i < |moves| && moves[i].ledger == ledger && moves[i].asset == asset ==>
      moves[i].account in accounts
  }

  /** Conservation as reported: listed once each in any order, all accounts of a ledger sum to zero in an asset that no
      stored transaction confuses on any of them. */
  lemma ReportedBalancesSumToZero(ops: seq<Op>, ledger: string, asset: string, accounts: seq<string>)
    requires forall k :: 0 <= k < |accounts| ==> CleanAt(Txs(Run(ops), ledger), accounts[k], asset)
    requires NoDuplicates(accounts) && Covers(accounts, Run(ops).moves, ledger, asset)
    ensures SumReported(Run(ops), ledger, asset, accounts) == 0
  {
    var st := Run(ops);
    RunKeepsBooks(ops);
    forall k | 0 <= k < |accounts|
      ensures Reported(st, ledger, accounts[k], asset) == TotalNet(Flows(st.moves), ledger, accounts[k], asset)
    {
      ReportedIsReplayed(ops, ledger, accounts[k], asset);
      assert NetAgrees(st, ledger, accounts[k], asset);
    }
    assert NetAgrees(st, ledger, "", asset);
    SumReportedIsSumBalances(st, ledger, asset, accounts);
    forall i | 0 <= i < |st.moves| && InLedger(ledger, asset)(Flows(st.moves)[i])
      ensures Flows(st.moves)[i].account in accounts
    {
      assert st.moves[i].account in accounts;
    }
    BalancesSumToLedgerNet(Flows(st.moves), ledger, asset, accounts);
  }

  /** Printed volumes always parse back, so the reads that replace a failed parse by zero never do so for a stored
      move. */
  lemma StoredVolumesParse(ops: seq<Op>, i: nat)
    requires i < |Run(ops).moves|
    ensures var m := Run(ops).moves[i];
      && Parse(m.amount).Some? && Parse(m.postInputs).Some? && Parse(m.postOutputs).Some?
      && m.amount == Print(Parse(m.amount).value)
      && m.postInputs == Print(Parse(m.postInputs).value)
      && m.postOutputs == Print(Parse(m.postOutputs).value)
  {
    RunKeepsBooks(ops);
    var m := Run(ops).moves[i];
    assert Canonical(m);
    ParsePrint(Value(m.amount));
    ParsePrint(Value(m.postInputs));
    ParsePrint(Value(m.postOutputs));
  }

  /*** A request that clashes ***/

  function ClashingRequest(): Request {
    Request("", [Posting(0, 0, "world", "a", "b:U", Print(5)), Posting(0, 0, "world", "a:b", "U", Print(7))])
  }

  lemma ClashingFlows(es: seq<Entry>)
    requires es == [Entry("world", "a", "b:U", 5), Entry("world", "a:b", "U", 7)]
    ensures LatestNet(NewFlows([], "l", es), "l", "a:b", "U") == 12
    ensures NetOf(es, "a:b", "U") == 7
    ensures !NoClash(es)
  {
    var stored := Stored([], "l");
    assert Key("a", "b:U") == Key("a:b", "U") == "a:b:U";
    assert Key("world", "b:U") == "world:b:U" && Key("world", "U") == "world:U";
    assert |Key("world", "b:U")| != |Key("world", "U")|;
    assert es[..1] == [es[0]] && es[..1][..0] == [];
    assert |"b:U"| != |"U"| && |"world"| != |"a:b"|;
    assert NetOf(es[..1], "a:b", "U") == EntryNet(es[0], "a:b", "U") == 0;
    var first := AddPosting(Built([], map[]), "l", es[0], stored);
    assert Build("l", es[..1], stored) == first;
    var second := AddPosting(first, "l", es[1], stored);
    assert Build("l", es, stored) == second;
    assert AdjOf(first.adj, "a:b:U") == Volume(5, 0);
    assert !Distinguishes(es[0], es[1].destination, es[1].asset);
  }

  lemma ClashingIsAccepted()
    ensures FirstError(ClashingRequest().postings) == None
    ensures Entries(ClashingRequest().postings) == [Entry("world", "a", "b:U", 5), Entry("world", "a:b", "U", 7)]
  {
    ParsePrint(5);
    ParsePrint(7);
    ColonFreeIsValid("world");
    ColonFreeIsValid("a");
    ColonFreeIsValid("b");
    assert "a" + ":" + "b" == "a:b";
    ValidAddressJoin("a", "b");
    var ps := ClashingRequest().postings;
    assert |"world"| != |"a:b"| && |"world"| != |"a"|;
    assert PostingError(ps[0], 0) == None && PostingError(ps[1], 1) == None;
    NoErrorMeaning(ps);
  }

  lemma MisreportedAfter(st: State, st': State, tx: Transaction)
    requires st.moves == [] && Txs(st, "l") == [] && Posted(st, st', "l", tx)
    requires Entries(tx.postings) == [Entry("world", "a", "b:U", 5), Entry("world", "a:b", "U", 7)]
    ensures Reported(st', "l", "a:b", "U") == 12 && Replayed(Txs(st', "l"), "a:b", "U") == 7
  {
    var es := Entries(tx.postings);
    ClashingFlows(es);
    assert Flows(st.moves) == [];
    assert Flows(st'.moves) == NewFlows([], "l", es);
    ReplayedAppend([], tx, "a:b", "U");
    assert Txs(st', "l") == [] + [tx];
  }

  /** An accepted request with a wrong cache: address a with asset b:U and address a:b with asset U share a key, so
      the balance of a:b is reported as 12 although it received 7. */
  lemma ClashIsMisreported()
    ensures var (st, r) := Post(EMPTY, "l", ClashingRequest());
      r.Ok? && Reported(st, "l", "a:b", "U") == 12 && Replayed(Txs(st, "l"), "a:b", "U") == 7
  {
    ClashingIsAccepted();
    CommitPosts(EMPTY, "l", ClashingRequest());
    var (st, tx) := Commit(EMPTY, "l", ClashingRequest());
    MisreportedAfter(EMPTY, st, tx);
  }
}
