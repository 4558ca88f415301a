/** What a list of postings does to each account, and why it never creates or destroys money. */
module Effects {
  import opened Volumes

  function EntryNet(e: Entry, account: string, asset: string): int {
    if e.asset != asset then 0
    else (if e.destination == account then e.amount else 0) - (if e.source == account then e.amount else 0)
  }

  /** The net effect of a posting list on one account and asset. */
  function NetOf(ps: seq<Entry>, account: string, asset: string): int {
    if ps == [] then 0
    else NetOf(ps[..|ps| - 1], account, asset) + EntryNet(ps[|ps| - 1], account, asset)
  }

  function Swap(ps: seq<Entry>): seq<Entry> {
    seq(|ps|, i requires 0 <= i < |ps| => Entry(ps[i].destination, ps[i].source, ps[i].asset, ps[i].amount))
  }

  lemma {:induction false} SwapNegates(ps: seq<Entry>, account: string, asset: string)
    ensures NetOf(Swap(ps), account, asset) == -NetOf(ps, account, asset)
  {
    if ps != [] {
      SwapNegates(ps[..|ps| - 1], account, asset);
      assert Swap(ps)[..|ps| - 1] == Swap(ps[..|ps| - 1]);
    }
  }

  lemma SwapTwice(ps: seq<Entry>)
    ensures Swap(Swap(ps)) == ps
  {
  }

  lemma SwapKeepsNoClash(ps: seq<Entry>)
    ensures NoClash(ps) ==> NoClash(Swap(ps))
  {
    if NoClash(ps) {
      forall i, k | 0 <= i < |ps| && 0 <= k < |ps|
        ensures Distinguishes(Swap(ps)[k], Swap(ps)[i].source, Swap(ps)[i].asset)
        ensures Distinguishes(Swap(ps)[k], Swap(ps)[i].destination, Swap(ps)[i].asset)
      {
        assert NoClashAt(ps, ps[i].source, ps[i].asset) && NoClashAt(ps, ps[i].destination, ps[i].asset);
        assert Distinguishes(ps[k], ps[i].source, ps[i].asset) && Distinguishes(ps[k], ps[i].destination, ps[i].asset);
      }
    }
  }

  /** Swapping ends keeps the set of (address, asset) pairs, so a reversal clashes exactly when its original does. */
  lemma SwapKeepsClashes(ps: seq<Entry>)
    ensures NoClash(Swap(ps)) <==> NoClash(ps)
  {
    SwapKeepsNoClash(ps);
    SwapKeepsNoClash(Swap(ps));
    SwapTwice(ps);
  }

  lemma {:induction false} UntouchedNet(ps: seq<Entry>, account: string, asset: string)
    requires !Touches(ps, account, asset)
    ensures NetOf(ps, account, asset) == 0
  {
    if ps != [] {
      UntouchedNet(ps[..|ps| - 1], account, asset);
    }
  }

  /** What an account holds by replay: everything moved in minus everything moved out. */
  function TotalNet(moves: seq<Flow>, ledger: string, account: string, asset: string): int {
    SumWhere(moves, At(ledger, account, asset), false) - SumWhere(moves, At(ledger, account, asset), true)
  }

  /** The balance every read reports: inputs minus outputs of the newest matching move. */
  function LatestNet(moves: seq<Flow>, ledger: string, account: string, asset: string): int {
    match Latest(moves, ledger, account, asset)
    case None => 0
    case Some(m) => m.ins - m.outs
  }

  function InLedger(ledger: string, asset: string): Flow -> bool {
    (m: Flow) => m.ledger == ledger && m.asset == asset
  }

  /** All of a ledger's inputs minus all of its outputs in one asset. */
  function LedgerNet(moves: seq<Flow>, ledger: string, asset: string): int {
    SumWhere(moves, InLedger(ledger, asset), false) - SumWhere(moves, InLedger(ledger, asset), true)
  }

  predicate IsLeg(m: Flow, ledger: string, account: string, p: Entry, isSource: bool) {
    && m.ledger == ledger && m.account == account && m.asset == p.asset
    && m.amount == p.amount && m.isSource == isSource
  }

  lemma OneLeg(moves: seq<Flow>, m: Flow, ledger: string, account: string, asset: string)
    ensures var signed := if m.isSource then -m.amount else m.amount;
      && TotalNet(moves + [m], ledger, account, asset) ==
         TotalNet(moves, ledger, account, asset) + (if At(ledger, account, asset)(m) then signed else 0)
      && LedgerNet(moves + [m], ledger, asset) ==
         LedgerNet(moves, ledger, asset) + (if InLedger(ledger, asset)(m) then signed else 0)
  {
    assert (moves + [m])[..|moves|] == moves;
  }

  /** A debit and a credit of the same amount. */
  lemma TwoLegs(front: seq<Flow>, moves: seq<Flow>, l: string, p: Entry, ledger: string, account: string, asset: string)
    requires |moves| == |front| + 2 && moves[..|front|] == front
    requires IsLeg(moves[|front|], l, p.source, p, true) && IsLeg(moves[|front| + 1], l, p.destination, p, false)
    ensures TotalNet(moves, ledger, account, asset) ==
            TotalNet(front, ledger, account, asset) + if l == ledger then EntryNet(p, account, asset) else 0
    ensures LedgerNet(moves, ledger, asset) == LedgerNet(front, ledger, asset)
  {
    OneLeg(front, moves[|front|], ledger, account, asset);
    OneLeg(front + [moves[|front|]], moves[|front| + 1], ledger, account, asset);
    assert moves == front + [moves[|front|]] + [moves[|front| + 1]];
  }

  /** Move k is the leg of end k, whatever running totals it carries. */
  predicate LegAt(moves: seq<Flow>, ledger: string, ps: seq<Entry>, k: nat)
    requires k < |moves| && k < 2 * |ps|
  {
    IsLeg(moves[k], ledger, End(ps, k), ps[k / 2], k % 2 == 0)
  }

  predicate Shaped(moves: seq<Flow>, ledger: string, ps: seq<Entry>) {
    && |moves| <= 2 * |ps|
    && forall k :: 0 <= k < |moves| ==> LegAt(moves, ledger, ps, k)
  }

  lemma ShapedFront(moves: seq<Flow>, l: string, ps: seq<Entry>, n: nat)
    requires Shaped(moves, l, ps) && |ps| == n + 1 && |moves| == 2 * n + 2
    ensures Shaped(moves[..2 * n], l, ps[..n])
    ensures IsLeg(moves[2 * n], l, ps[n].source, ps[n], true)
    ensures IsLeg(moves[2 * n + 1], l, ps[n].destination, ps[n], false)
  {
    assert LegAt(moves, l, ps, 2 * n) && LegAt(moves, l, ps, 2 * n + 1);
    forall k | 0 <= k < 2 * n ensures LegAt(moves[..2 * n], l, ps[..n], k) {
      assert LegAt(moves, l, ps, k);
    }
  }

  /** Two legs per posting carry the list's net effect and cancel over the ledger, whatever totals were read. */
  lemma {:induction false} ShapedNet(moves: seq<Flow>, l: string, ps: seq<Entry>, ledger: string, account: string,
                                     asset: string)
    requires Shaped(moves, l, ps) && |moves| == 2 * |ps|
    ensures TotalNet(moves, ledger, account, asset) == if l == ledger then NetOf(ps, account, asset) else 0
    ensures LedgerNet(moves, ledger, asset) == 0
  {
    if ps == [] {
      assert moves == [];
    } else {
      var n := |ps| - 1;
      var front := moves[..2 * n];
      ShapedFront(moves, l, ps, n);
      ShapedNet(front, l, ps[..n], ledger, account, asset);
      TwoLegs(front, moves, l, ps[n], ledger, account, asset);
    }
  }

  lemma NetsAppend(a: seq<Flow>, b: seq<Flow>, ledger: string, account: string, asset: string)
    ensures TotalNet(a + b, ledger, account, asset) ==
      TotalNet(a, ledger, account, asset) + TotalNet(b, ledger, account, asset)
    ensures LedgerNet(a + b, ledger, asset) == LedgerNet(a, ledger, asset) + LedgerNet(b, ledger, asset)
  {
    SumAppend(a, b, At(ledger, account, asset), false);
    SumAppend(a, b, At(ledger, account, asset), true);
    SumAppend(a, b, InLedger(ledger, asset), false);
    SumAppend(a, b, InLedger(ledger, asset), true);
  }

  /** The moves built for a posting list carry its net effect, and cancel over the ledger. */
  lemma BuildNet(l: string, ps: seq<Entry>, stored: (string, string) -> Volume, ledger: string, account: string,
                 asset: string)
    ensures TotalNet(Build(l, ps, stored).moves, ledger, account, asset) ==
            if l == ledger then NetOf(ps, account, asset) else 0
    ensures LedgerNet(Build(l, ps, stored).moves, ledger, asset) == 0
  {
    BuildShape(l, ps, stored);
    ShapedNet(Build(l, ps, stored).moves, l, ps, ledger, account, asset);
  }

  /*** Conservation over accounts ***/

  function SumBalances(moves: seq<Flow>, ledger: string, asset: string, accounts: seq<string>): int {
    if accounts == [] then 0
    else SumBalances(moves, ledger, asset, accounts[..|accounts| - 1]) +
         TotalNet(moves, ledger, accounts[|accounts| - 1], asset)
  }

  predicate NoDuplicates(accounts: seq<string>) {
    forall i, j :: 0 <= i < j < |accounts| ==> accounts[i] != accounts[j]
  }

  lemma {:induction false} OneMoreMove(moves: seq<Flow>, m: Flow, ledger: string, asset: string, accounts: seq<string>)
    requires NoDuplicates(accounts)
    ensures SumBalances(moves + [m], ledger, asset, accounts) == SumBalances(moves, ledger, asset, accounts) +
            if m.ledger == ledger && m.asset == asset && m.account in accounts
            then (if m.isSource then -m.amount else m.amount) else 0
  {
    if accounts != [] {
      var n := |accounts| - 1;
      OneMoreMove(moves, m, ledger, asset, accounts[..n]);
      assert (moves + [m])[..|moves|] == moves;
      assert m.account in accounts <==> m.account in accounts[..n] || m.account == accounts[n];
    }
  }

  lemma {:induction false} NothingMoved(ledger: string, asset: string, accounts: seq<string>)
    ensures SumBalances([], ledger, asset, accounts) == 0
  {
    if accounts != [] {
      NothingMoved(ledger, asset, accounts[..|accounts| - 1]);
    }
  }

  /** However the accounts are listed, once each, their replayed balances sum to the ledger's net. */
  lemma {:induction false} BalancesSumToLedgerNet(moves: seq<Flow>, ledger: string, asset: string,
                                                  accounts: seq<string>)
    requires NoDuplicates(accounts)
    requires forall i :: 0 <= i < |moves| && InLedger(ledger, asset)(moves[i]) ==> moves[i].account in accounts
    ensures SumBalances(moves, ledger, asset, accounts) == LedgerNet(moves, ledger, asset)
  {
    if moves == [] {
      NothingMoved(ledger, asset, accounts);
    } else {
      var n := |moves| - 1;
      BalancesSumToLedgerNet(moves[..n], ledger, asset, accounts);
      assert moves == moves[..n] + [moves[n]];
      OneMoreMove(moves[..n], moves[n], ledger, asset, accounts);
    }
  }
}
