/** Chains of reversals, on ids alone: which links still count once some have been taken back. */
module Chains {
  import opened Outcomes

  /** A transaction as the chain sees it: target is the id it reverses, if it is a reversal, and net its
      effect on the one account and asset under study. */
  datatype Link = Link(id: int, target: Option<int>, net: int, reverted: bool)

  predicate Reverses(links: seq<Link>, j: nat, i: nat)
    requires i < |links| && j < |links|
  {
    links[j].target == Some(links[i].id)
  }

  predicate HasReversal(links: seq<Link>, i: nat)
    requires i < |links|
  {
    exists j :: 0 <= j < |links| && Reverses(links, j, i)
  }

  predicate HasOriginal(links: seq<Link>, j: nat)
    requires j < |links|
  {
    exists i :: 0 <= i < j && Reverses(links, j, i)
  }

  predicate Ordered(links: seq<Link>) {
    forall i, j :: 0 <= i < j < |links| ==> links[i].id < links[j].id
  }

  predicate Founded(links: seq<Link>) {
    forall j :: 0 <= j < |links| && links[j].target.Some? ==> HasOriginal(links, j)
  }

  predicate Undoes(links: seq<Link>) {
    forall i, j :: 0 <= i < |links| && 0 <= j < |links| && Reverses(links, j, i) ==>
      i < j && links[j].net == -links[i].net
  }

  predicate Unshared(links: seq<Link>) {
    forall i, j :: 0 <= i < j < |links| && links[i].target.Some? ==> links[j].target != links[i].target
  }

  predicate MarksReversed(links: seq<Link>) {
    forall i :: 0 <= i < |links| ==> (links[i].reverted <==> HasReversal(links, i))
  }

  /** Ids increase; every reversal undoes one earlier link, and no other link undoes that one; exactly the
      links with a reversal are marked. */
  predicate Chained(links: seq<Link>) {
    Ordered(links) && Founded(links) && Undoes(links) && Unshared(links) && MarksReversed(links)
  }

  /** What appending (and marking) does to who reverses whom. */
  lemma AppendedLinks(links: seq<Link>, all: seq<Link>, link: Link)
    requires Ordered(links) && Founded(links)
    requires |all| == |links| + 1 && all[|links|] == link
    requires forall k :: 0 <= k < |links| ==> all[k].id == links[k].id && all[k].target == links[k].target
    requires forall k :: 0 <= k < |links| ==> links[k].id < link.id
    ensures forall i, j :: 0 <= i < |links| && 0 <= j < |links| ==> Reverses(all, j, i) == Reverses(links, j, i)
    ensures forall j :: 0 <= j < |links| ==> !Reverses(all, j, |links|)
    ensures forall j :: 0 <= j < |links| ==> HasOriginal(all, j) == HasOriginal(links, j)
  {
    forall i, j | 0 <= i < |links| && 0 <= j < |links| ensures Reverses(all, j, i) == Reverses(links, j, i) {}
    forall j | 0 <= j < |links| && links[j].target.Some? ensures links[j].target.value < link.id {
      assert HasOriginal(links, j);
      var i :| 0 <= i < j && Reverses(links, j, i);
    }
    forall j | 0 <= j < |links| ensures HasOriginal(all, j) == HasOriginal(links, j) {
      if i :| 0 <= i < j && Reverses(links, j, i) {
        assert Reverses(all, j, i);
      }
      if i :| 0 <= i < j && Reverses(all, j, i) {
        assert Reverses(links, j, i);
      }
    }
  }

  lemma MarksAfterAppend(links: seq<Link>, all: seq<Link>)
    requires |all| == |links| + 1
    requires forall i, j :: 0 <= i < |links| && 0 <= j < |links| ==> Reverses(all, j, i) == Reverses(links, j, i)
    ensures forall i :: 0 <= i < |links| ==>
      (HasReversal(all, i) <==> HasReversal(links, i) || Reverses(all, |links|, i))
  {
    forall i | 0 <= i < |links|
      ensures HasReversal(all, i) <==> HasReversal(links, i) || Reverses(all, |links|, i)
    {
      if j :| 0 <= j < |all| && Reverses(all, j, i) {
        assert j < |links| ==> Reverses(links, j, i);
      }
      if j :| 0 <= j < |links| && Reverses(links, j, i) {
        assert Reverses(all, j, i);
      }
    }
  }

  lemma ChainedAfterClient(links: seq<Link>, link: Link)
    requires Chained(links)
    requires link.target == None && !link.reverted && forall k :: 0 <= k < |links| ==> links[k].id < link.id
    ensures Chained(links + [link])
  {
    var all := links + [link];
    AppendedLinks(links, all, link);
    MarksAfterAppend(links, all);
    assert Ordered(all) && Unshared(all);
    assert Founded(all) by {
      hide Undoes, Unshared, MarksReversed;
      assert forall j :: 0 <= j < |links| ==> HasOriginal(links, j) ==> HasOriginal(all, j);
    }
    assert Undoes(all) by {
      hide Founded, Unshared, MarksReversed;
    }
    assert MarksReversed(all) by {
      hide Founded, Unshared, Undoes;
      assert !HasReversal(all, |links|);
    }
  }

  lemma MarksAfterReversal(links: seq<Link>, all: seq<Link>, i: nat)
    requires MarksReversed(links) && i < |links| && |all| == |links| + 1
    requires forall k, j :: 0 <= k < |links| && 0 <= j < |links| ==> Reverses(all, j, k) == Reverses(links, j, k)
    requires forall k :: 0 <= k <= |links| ==> !Reverses(all, k, |links|) && (Reverses(all, |links|, k) <==> k == i)
    requires forall k :: 0 <= k < |links| ==> (all[k].reverted <==> links[k].reverted || k == i)
    requires !all[|links|].reverted
    ensures MarksReversed(all)
  {
    MarksAfterAppend(links, all);
    assert !HasReversal(all, |links|);
  }

  lemma ChainedAfterReversal(links: seq<Link>, i: nat, link: Link)
    requires Chained(links) && i < |links| && !links[i].reverted
    requires link.target == Some(links[i].id) && link.net == -links[i].net
    requires !link.reverted && forall k :: 0 <= k < |links| ==> links[k].id < link.id
    ensures Chained((links + [link])[i := links[i].(reverted := true)])
  {
    var n, all := |links|, (links + [link])[i := links[i].(reverted := true)];
    AppendedLinks(links, all, link);
    assert Reverses(all, n, i) && HasOriginal(all, n);
    assert Founded(all);
    forall k | 0 <= k < n && Reverses(all, n, k) ensures k == i {
      assert links[k].id == links[i].id;
    }
    assert Undoes(all);
    forall j | 0 <= j < n ensures links[j].target != link.target {
      assert !HasReversal(links, i);
      assert Reverses(links, j, i) <==> links[j].target == link.target;
    }
    MarksAfterReversal(links, all, i);
  }

  /*** Chain parity ***/

  /** The position of the reversal of link i, or the length of the list when it has none. */
  ghost function ReversalOf(links: seq<Link>, i: nat): (j: nat)
    requires i < |links|
    ensures j <= |links|
    ensures j < |links| ==> Reverses(links, j, i)
    ensures j == |links| <==> !HasReversal(links, i)
  {
    if HasReversal(links, i) then
      var j :| 0 <= j < |links| && Reverses(links, j, i);
      j
    else |links|
  }

  /** How many reversals hang off link i: itself reversed, that reversal reversed, and so on. */
  ghost function ChainLength(links: seq<Link>, i: nat): nat
    requires i < |links|
    decreases |links| - i
  {
    var j := ReversalOf(links, i);
    if j == |links| || j <= i then 0 else 1 + ChainLength(links, j)
  }

  /** Link i still stands: no standing reversal takes it back. */
  ghost predicate Stands(links: seq<Link>, i: nat)
    requires i < |links|
    decreases |links| - i
  {
    var j := ReversalOf(links, i);
    j == |links| || j <= i || !Stands(links, j)
  }

  /** A link stands exactly when its chain of reversals has even length. */
  lemma {:induction false} StandsIffEven(links: seq<Link>, i: nat)
    requires i < |links|
    ensures Stands(links, i) <==> ChainLength(links, i) % 2 == 0
    decreases |links| - i
  {
    var j := ReversalOf(links, i);
    if i < j < |links| {
      StandsIffEven(links, j);
    }
  }

  /** What link i and its chain contribute: its own effect if it stands, nothing otherwise. */
  ghost function Standing(links: seq<Link>, i: nat): int
    requires i < |links|
  {
    if Stands(links, i) then links[i].net else 0
  }

  ghost function StandingOfReversal(links: seq<Link>, i: nat): int
    requires i < |links|
  {
    var j := ReversalOf(links, i);
    if j == |links| then 0 else Standing(links, j)
  }

  lemma NetIsStandingDifference(links: seq<Link>, i: nat)
    requires Chained(links) && i < |links|
    ensures links[i].net == Standing(links, i) - StandingOfReversal(links, i)
  {
    var j := ReversalOf(links, i);
    assert j < |links| ==> Reverses(links, j, i);
  }

  /*** Sums over positions ***/

  function Sum(n: nat, f: nat -> int): int {
    if n == 0 then 0 else Sum(n - 1, f) + f(n - 1)
  }

  lemma {:induction false} SumDifference(n: nat, f: nat -> int, g: nat -> int, h: nat -> int)
    requires forall i: nat :: i < n ==> f(i) == g(i) - h(i)
    ensures Sum(n, f) == Sum(n, g) - Sum(n, h)
  {
    if n > 0 {
      SumDifference(n - 1, f, g, h);
    }
  }

  /** A sum with at most one non-zero term. */
  lemma {:induction false} SumAtOne(n: nat, f: nat -> int, at: nat)
    requires forall i: nat :: i < n && i != at ==> f(i) == 0
    ensures Sum(n, f) == if at < n then f(at) else 0
  {
    if n > 0 {
      SumAtOne(n - 1, f, at);
    }
  }

  function LinkNet(links: seq<Link>): nat -> int {
    (i: nat) => if i < |links| then links[i].net else 0
  }

  ghost function Stand(links: seq<Link>): nat -> int {
    (i: nat) => if i < |links| then Standing(links, i) else 0
  }

  ghost function StandOfReversal(links: seq<Link>, below: nat): nat -> int {
    (i: nat) => if i < |links| && ReversalOf(links, i) < below then StandingOfReversal(links, i) else 0
  }

  ghost function StandIf(links: seq<Link>, client: bool): nat -> int {
    (i: nat) => if i < |links| && links[i].target.None? == client then Standing(links, i) else 0
  }

  ghost function StandAt(links: seq<Link>, j: nat): nat -> int
    requires j < |links|
  {
    (i: nat) => if i < |links| && ReversalOf(links, i) == j then Standing(links, j) else 0
  }

  lemma NextReversal(links: seq<Link>, n: nat, i: nat)
    requires 0 < n <= |links| && i < |links|
    ensures StandOfReversal(links, n - 1)(i) == StandOfReversal(links, n)(i) - StandAt(links, n - 1)(i)
  {
    var r, s := ReversalOf(links, i), Standing(links, n - 1);
    if r == n - 1 {
      assert StandOfReversal(links, n)(i) == s && StandAt(links, n - 1)(i) == s &&
        StandOfReversal(links, n - 1)(i) == 0;
    } else {
      assert StandAt(links, n - 1)(i) == 0;
      assert r < n - 1 <==> r < n;
    }
  }

  lemma NextSum(links: seq<Link>, n: nat)
    requires 0 < n <= |links|
    ensures Sum(|links|, StandOfReversal(links, n - 1)) ==
            Sum(|links|, StandOfReversal(links, n)) - Sum(|links|, StandAt(links, n - 1))
  {
    var f, g, h := StandOfReversal(links, n - 1), StandOfReversal(links, n), StandAt(links, n - 1);
    forall i: nat | i < |links| ensures f(i) == g(i) - h(i) {
      NextReversal(links, n, i);
    }
    SumDifference(|links|, f, g, h);
  }

  lemma NothingBelow(links: seq<Link>)
    ensures Sum(|links|, StandOfReversal(links, 0)) == 0
  {
    SumAtOne(|links|, StandOfReversal(links, 0), |links|);
  }

  ghost predicate CountedOnce(links: seq<Link>, j: nat)
    requires j < |links|
  {
    Sum(|links|, StandAt(links, j)) == StandIf(links, false)(j)
  }

  /** Reversals summed by their originals are the reversals summed by themselves: each has exactly one original. */
  lemma {:induction false} SumByOriginal(links: seq<Link>, n: nat)
    requires n <= |links| && forall j: nat :: j < n ==> CountedOnce(links, j)
    ensures Sum(|links|, StandOfReversal(links, n)) == Sum(n, StandIf(links, false))
  {
    if n == 0 {
      NothingBelow(links);
    } else {
      SumByOriginal(links, n - 1);
      NextSum(links, n);
      assert CountedOnce(links, n - 1);
    }
  }

  lemma OneOriginal(links: seq<Link>, j: nat)
    requires Chained(links) && j < |links|
    ensures CountedOnce(links, j)
  {
    if links[j].target.Some? {
      assert HasOriginal(links, j);
      var i :| 0 <= i < j && Reverses(links, j, i);
      assert ReversalOf(links, i) == j by {
        assert HasReversal(links, i);
        var k := ReversalOf(links, i);
        assert Reverses(links, k, i);
        assert links[k].target == links[j].target;
      }
      forall k: nat | k < |links| && k != i ensures StandAt(links, j)(k) == 0 {
        assert ReversalOf(links, k) == j ==> Reverses(links, j, k);
      }
      SumAtOne(|links|, StandAt(links, j), i);
    } else {
      forall k: nat | k < |links| ensures StandAt(links, j)(k) == 0 {
        assert ReversalOf(links, k) == j ==> Reverses(links, j, k);
      }
      SumAtOne(|links|, StandAt(links, j), |links|);
    }
  }

  /** Everything that was ever posted nets to the client links whose chain has even length. */
  lemma ParityLaw(links: seq<Link>)
    requires Chained(links)
    ensures Sum(|links|, LinkNet(links)) == Sum(|links|, StandIf(links, true))
  {
    var n := |links|;
    forall i: nat | i < n
      ensures LinkNet(links)(i) ==
              Stand(links)(i) - StandOfReversal(links, n)(i)
    {
      NetIsStandingDifference(links, i);
    }
    SumDifference(n, LinkNet(links), Stand(links), StandOfReversal(links, n));
    forall j: nat | j < n ensures CountedOnce(links, j) {
      OneOriginal(links, j);
    }
    SumByOriginal(links, n);
    SumDifference(n, StandIf(links, true), Stand(links), StandIf(links, false));
  }
}

/** The chain law for the ledger: each balance is the effect of the client transactions that still stand. */
module Reversals {
  import opened Outcomes
  import opened Decimal
  import opened LedgerTypes
  import opened Effects
  import opened Ledger
  import opened LedgerSteps
  import opened LedgerLaws
  import opened LedgerRuns
  import opened Chains

  /** The id that a reference of the form revert:<id> names. */
  function RevertTarget(reference: string): Option<int> {
    if |reference| < 7 || reference[..7] != "revert:" then None
    else
      var id := Parse(reference[7..]);
      if id.Some? && Print(id.value) == reference[7..] then id else None
  }

  lemma RevertTargetMeaning(reference: string, id: int)
    ensures RevertTarget(reference) == Some(id) <==> reference == RevertReference(id)
  {
    ParsePrint(id);
    if reference == RevertReference(id) {
      assert reference[..7] == "revert:" && reference[7..] == Print(id);
    }
    if RevertTarget(reference) == Some(id) {
      assert reference == reference[..7] + reference[7..];
    }
  }

  /** No caller uses the ledger's own reversal references. */
  predicate ClientSafe(ops: seq<Op>) {
    forall i :: 0 <= i < |ops| && ops[i].PostOp? ==> RevertTarget(ops[i].request.reference) == None
  }

  function LinkOf(tx: Transaction, account: string, asset: string): Link {
    Link(tx.id, RevertTarget(tx.reference), NetOf(Entries(tx.postings), account, asset), tx.reverted)
  }

  function Links(txs: seq<Transaction>, account: string, asset: string): seq<Link> {
    seq(|txs|, i requires 0 <= i < |txs| => LinkOf(txs[i], account, asset))
  }

  lemma ClientPostKeepsChains(txs: seq<Transaction>, tx: Transaction, account: string, asset: string)
    requires Chained(Links(txs, account, asset))
    requires RevertTarget(tx.reference) == None && !tx.reverted
    requires forall i :: 0 <= i < |txs| ==> txs[i].id < tx.id
    ensures Chained(Links(txs + [tx], account, asset))
  {
    assert Links(txs + [tx], account, asset) == Links(txs, account, asset) + [LinkOf(tx, account, asset)];
    ChainedAfterClient(Links(txs, account, asset), LinkOf(tx, account, asset));
  }

  /** An unmarked transaction has a free reversal reference, and its reversal extends its chain. */
  lemma UnmarkedHasFreeReference(txs: seq<Transaction>, i: nat, account: string, asset: string)
    requires Chained(Links(txs, account, asset))
    requires i < |txs| && !txs[i].reverted
    ensures FindReference(txs, RevertReference(txs[i].id)) == None
  {
    var links := Links(txs, account, asset);
    FindReferenceMeaning(txs, RevertReference(txs[i].id));
    assert !HasReversal(links, i);
    forall j | 0 <= j < |txs| ensures txs[j].reference != RevertReference(txs[i].id) {
      RevertTargetMeaning(txs[j].reference, txs[i].id);
      assert !Reverses(links, j, i);
    }
  }

  lemma ReversalLink(original: Transaction, tx: Transaction, account: string, asset: string)
    requires IsReversal(tx, original)
    ensures var link := LinkOf(tx, account, asset);
      link.target == Some(original.id) && link.net == -LinkOf(original, account, asset).net && !link.reverted
  {
    RevertTargetMeaning(tx.reference, original.id);
    SwapNegates(Entries(original.postings), account, asset);
  }

  lemma LinksAfterRevert(txs: seq<Transaction>, i: nat, tx: Transaction, account: string, asset: string)
    requires i < |txs|
    ensures var links := Links(txs, account, asset);
      Links(RevertedList(txs, i, [tx]), account, asset) ==
      (links + [LinkOf(tx, account, asset)])[i := links[i].(reverted := true)]
  {
  }

  lemma ReversalKeepsChains(txs: seq<Transaction>, i: nat, tx: Transaction, account: string, asset: string)
    requires Chained(Links(txs, account, asset))
    requires i < |txs| && !txs[i].reverted && IsReversal(tx, txs[i])
    requires forall k :: 0 <= k < |txs| ==> txs[k].id < tx.id
    ensures Chained(Links(RevertedList(txs, i, [tx]), account, asset))
  {
    var links := Links(txs, account, asset);
    ReversalLink(txs[i], tx, account, asset);
    assert forall k :: 0 <= k < |links| ==> links[k].id == txs[k].id;
    ChainedAfterReversal(links, i, LinkOf(tx, account, asset));
    LinksAfterRevert(txs, i, tx, account, asset);
  }

  lemma ChainsAfterPost(st: State, ledger: string, req: Request, account: string, asset: string)
    requires Books(st) && RevertTarget(req.reference) == None
    requires Chained(Links(Txs(st, ledger), account, asset))
    ensures Chained(Links(Txs(Post(st, ledger, req).0, ledger), account, asset))
  {
    PostCases(st, ledger, req);
    var (st', r) := Post(st, ledger, req);
    if st' != st {
      var txs := Txs(st, ledger);
      assert WellKept(st, ledger);
      assert forall i :: 0 <= i < |txs| ==> Valid(txs[i], ledger, st.nextID);
      assert Txs(st', ledger) == txs + [r.value];
      ClientPostKeepsChains(txs, r.value, account, asset);
    }
  }

  lemma ChainsAfterRevert(st: State, ledger: string, id: int, account: string, asset: string)
    requires Books(st) && Books(Revert(st, ledger, id).0)
    requires Chained(Links(Txs(st, ledger), account, asset))
    ensures Chained(Links(Txs(Revert(st, ledger, id).0, ledger), account, asset))
  {
    RevertCases(st, ledger, id);
    var (st', r) := Revert(st, ledger, id);
    if r.Ok? {
      var txs, i := Txs(st, ledger), FindId(Txs(st, ledger), id).value;
      UnmarkedHasFreeReference(txs, i, account, asset);
      assert WellKept(st', ledger);
      var txs' := Txs(st', ledger);
      assert |txs'| == |txs| + 1 && txs'[|txs|] == r.value;
      assert forall k :: 0 <= k < |txs| ==> txs'[k].id == txs[k].id;
      ReversalKeepsChains(txs, i, r.value, account, asset);
    }
  }

  lemma ChainsAfterCall(st: State, op: Op, ledger: string, account: string, asset: string)
    requires Books(st) && Books(Apply(st, op))
    requires op.PostOp? ==> RevertTarget(op.request.reference) == None
    requires Chained(Links(Txs(st, ledger), account, asset))
    ensures Chained(Links(Txs(Apply(st, op), ledger), account, asset))
  {
    if op.ledger != ledger {
      OtherLedgersUntouched(st, op, ledger, account, asset);
    } else {
      match op {
        case AccountOp(l, address, kind) => PutAccountKeepsBooks(st, l, address, kind);
        case PostOp(l, req) => ChainsAfterPost(st, l, req, account, asset);
        case RevertOp(l, id) => ChainsAfterRevert(st, l, id, account, asset);
      }
    }
  }

  /** In every run free of forged reversal references: at most one reversal per transaction, always later and
      undoing it exactly, and the marks are precisely the reversed transactions. */
  lemma {:induction false} RunIsChained(ops: seq<Op>, ledger: string, account: string, asset: string)
    requires ClientSafe(ops)
    ensures Chained(Links(Txs(Run(ops), ledger), account, asset))
  {
    if ops != [] {
      var n := |ops| - 1;
      var st, op := Run(ops[..n]), ops[n];
      assert ClientSafe(ops[..n]);
      RunIsChained(ops[..n], ledger, account, asset);
      RunKeepsBooks(ops[..n]);
      RunKeepsBooks(ops);
      ChainsAfterCall(st, op, ledger, account, asset);
    }
  }

  lemma {:induction false} ReplayedIsSum(txs: seq<Transaction>, n: nat, account: string, asset: string)
    requires n <= |txs|
    ensures Replayed(txs[..n], account, asset) == Sum(n, LinkNet(Links(txs, account, asset)))
  {
    if n > 0 {
      ReplayedIsSum(txs, n - 1, account, asset);
      assert txs[..n][..n - 1] == txs[..n - 1];
    }
  }

  /** The sum of the effects of the client transactions whose reversal chain has even length. */
  ghost function StandingClients(txs: seq<Transaction>, account: string, asset: string): int {
    Sum(|txs|, StandIf(Links(txs, account, asset), true))
  }

  /** Each balance is the net effect of exactly the client transactions that still stand. */
  lemma BalanceCountsStanding(ops: seq<Op>, ledger: string, account: string, asset: string)
    requires ClientSafe(ops)
    ensures Replayed(Txs(Run(ops), ledger), account, asset) == StandingClients(Txs(Run(ops), ledger), account, asset)
  {
    var txs := Txs(Run(ops), ledger);
    RunIsChained(ops, ledger, account, asset);
    ReplayedIsSum(txs, |txs|, account, asset);
    assert txs[..|txs|] == txs;
    ParityLaw(Links(txs, account, asset));
  }

  /** And so is the reported balance, wherever no stored transaction confuses the pair. */
  lemma ReportedCountsStanding(ops: seq<Op>, ledger: string, account: string, asset: string)
    requires ClientSafe(ops) && CleanAt(Txs(Run(ops), ledger), account, asset)
    ensures Reported(Run(ops), ledger, account, asset) == StandingClients(Txs(Run(ops), ledger), account, asset)
  {
    BalanceCountsStanding(ops, ledger, account, asset);
    ReportedIsReplayed(ops, ledger, account, asset);
  }
}
