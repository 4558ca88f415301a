/** What a ledger call does to replayed balances, references and cleanness: the interface other services reason with. */
module LedgerEffects {
  import opened Outcomes
  import opened LedgerTypes
  import opened Volumes
  import opened Effects
  import opened Ledger
  import opened LedgerSteps
  import opened LedgerLaws
  import LedgerRuns

  predicate Has(st: State, ledger: string, reference: string) {
    FindReference(Txs(st, ledger), reference).Some?
  }

  function BalanceOf(st: State, ledger: string, account: string, asset: string): int {
    Replayed(Txs(st, ledger), account, asset)
  }

  predicate IsRevertReference(reference: string) {
    "revert:" <= reference
  }

  /** The net effect on one account and asset of the transactions stored under other references than revert ones. */
  function ClientNet(txs: seq<Transaction>, account: string, asset: string): int {
    if txs == [] then 0
    else
      var front, last := ClientNet(txs[..|txs| - 1], account, asset), txs[|txs| - 1];
      front + if IsRevertReference(last.reference) then 0 else NetOf(Entries(last.postings), account, asset)
  }

  /** What clients' transactions have put on an account, leaving out what reverts took back. */
  function ClientBalance(st: State, ledger: string, account: string, asset: string): int {
    ClientNet(Txs(st, ledger), account, asset)
  }

  ghost predicate Clean(st: State, ledger: string, account: string, asset: string) {
    CleanAt(Txs(st, ledger), account, asset)
  }

  /** The postings es arrive in one ledger: balances shift by their net effect, and stay clean if es is. */
  ghost predicate Shifted(st: State, st': State, ledger: string, es: seq<Entry>, l: string, account: string,
                          asset: string) {
    && BalanceOf(st', l, account, asset) ==
       BalanceOf(st, l, account, asset) + (if l == ledger then NetOf(es, account, asset) else 0)
    && (Clean(st, l, account, asset) && (l == ledger && Touches(es, account, asset) ==> NoClash(es)) ==>
          Clean(st', l, account, asset))
  }

  /** The client part of a balance shifts with the postings, unless they arrive under a revert reference. */
  ghost predicate ClientShifted(st: State, st': State, ledger: string, reference: string, es: seq<Entry>, l: string,
                                account: string, asset: string) {
    ClientBalance(st', l, account, asset) == ClientBalance(st, l, account, asset) +
      if l == ledger && !IsRevertReference(reference) then NetOf(es, account, asset) else 0
  }

  ghost predicate Referenced(st: State, st': State, ledger: string, reference: string, l: string, r: string) {
    r != "" ==> (Has(st', l, r) <==> Has(st, l, r) || (l == ledger && r == reference))
  }

  /** The books changed by exactly one transaction with these postings under this reference. */
  ghost predicate Took(st: State, st': State, ledger: string, reference: string, es: seq<Entry>) {
    && (forall l, account, asset :: Shifted(st, st', ledger, es, l, account, asset))
    && (forall l, account, asset :: ClientShifted(st, st', ledger, reference, es, l, account, asset))
    && (forall l, r :: Referenced(st, st', ledger, reference, l, r))
  }

  /** Nothing observable changed. */
  ghost predicate Unmoved(st: State, st': State) {
    forall l :: Txs(st', l) == Txs(st, l)
  }

  lemma ClearIfTouched(es: seq<Entry>, account: string, asset: string)
    requires Touches(es, account, asset) ==> NoClash(es)
    ensures NoClashBefore(es, account, asset)
  {
    if Touches(es, account, asset) {
      NoClashCovers(es, account, asset);
    }
  }

  lemma HasAppend(txs: seq<Transaction>, tx: Transaction, r: string)
    ensures FindReference(txs + [tx], r).Some? <==> FindReference(txs, r).Some? || tx.reference == r
  {
    assert (txs + [tx])[..|txs|] == txs;
  }

  lemma ShiftedHere(txs: seq<Transaction>, tx: Transaction, account: string, asset: string)
    ensures Replayed(txs + [tx], account, asset) ==
      Replayed(txs, account, asset) + NetOf(Entries(tx.postings), account, asset)
    ensures var es := Entries(tx.postings);
      CleanAt(txs, account, asset) && (Touches(es, account, asset) ==> NoClash(es)) ==>
        CleanAt(txs + [tx], account, asset)
  {
    ReplayedAppend(txs, tx, account, asset);
    CleanAppend(txs, tx, account, asset);
    if Touches(Entries(tx.postings), account, asset) ==> NoClash(Entries(tx.postings)) {
      ClearIfTouched(Entries(tx.postings), account, asset);
    }
  }

  lemma ClientNetAppend(txs: seq<Transaction>, tx: Transaction, account: string, asset: string)
    ensures ClientNet(txs + [tx], account, asset) == ClientNet(txs, account, asset) +
      if IsRevertReference(tx.reference) then 0 else NetOf(Entries(tx.postings), account, asset)
  {
    assert (txs + [tx])[..|txs|] == txs;
  }

  lemma {:induction false} ClientNetIgnoresMarks(a: seq<Transaction>, b: seq<Transaction>, account: string,
                                                 asset: string)
    requires |a| == |b|
    requires forall i :: 0 <= i < |a| ==> a[i].postings == b[i].postings && a[i].reference == b[i].reference
    ensures ClientNet(a, account, asset) == ClientNet(b, account, asset)
  {
    if a != [] {
      ClientNetIgnoresMarks(a[..|a| - 1], b[..|b| - 1], account, asset);
    }
  }

  lemma TookAt(st: State, st': State, ledger: string, tx: Transaction, l: string, account: string, asset: string,
               r: string)
    requires Txs(st', l) == if l == ledger then Txs(st, l) + [tx] else Txs(st, l)
    ensures Shifted(st, st', ledger, Entries(tx.postings), l, account, asset)
    ensures ClientShifted(st, st', ledger, tx.reference, Entries(tx.postings), l, account, asset)
    ensures Referenced(st, st', ledger, tx.reference, l, r)
  {
    if l == ledger {
      ClientNetAppend(Txs(st, l), tx, account, asset);
      ShiftedHere(Txs(st, l), tx, account, asset);
      HasAppend(Txs(st, l), tx, r);
    }
  }

  lemma PostedTook(st: State, st': State, ledger: string, tx: Transaction)
    requires Posted(st, st', ledger, tx)
    ensures Took(st, st', ledger, tx.reference, Entries(tx.postings))
  {
    forall l, account, asset
      ensures Shifted(st, st', ledger, Entries(tx.postings), l, account, asset)
      ensures ClientShifted(st, st', ledger, tx.reference, Entries(tx.postings), l, account, asset)
    {
      TookAt(st, st', ledger, tx, l, account, asset, "");
    }
    forall l, r ensures Referenced(st, st', ledger, tx.reference, l, r) {
      TookAt(st, st', ledger, tx, l, "", "", r);
    }
  }

  /** A post either changes nothing, or takes exactly the requested postings under the requested reference. */
  lemma PostTakes(st: State, ledger: string, req: Request)
    ensures var (st', r) := Post(st, ledger, req);
      if r.Ok? && !Repeats(st, ledger, req)
      then Took(st, st', ledger, req.reference, Entries(req.postings)) && FirstError(req.postings) == None
      else st' == st
  {
    PostCases(st, ledger, req);
    var (st', r) := Post(st, ledger, req);
    if st' != st {
      PostedTook(st, st', ledger, r.value);
    }
  }

  lemma UnmovedBalances(st: State, st': State, l: string, account: string, asset: string, r: string)
    requires Unmoved(st, st')
    ensures BalanceOf(st', l, account, asset) == BalanceOf(st, l, account, asset)
    ensures ClientBalance(st', l, account, asset) == ClientBalance(st, l, account, asset)
    ensures Clean(st', l, account, asset) == Clean(st, l, account, asset)
    ensures Has(st', l, r) == Has(st, l, r)
  {
    assert Txs(st', l) == Txs(st, l);
  }

  ghost predicate SameSeen(st: State, st': State, l: string, account: string, asset: string) {
    && BalanceOf(st', l, account, asset) == BalanceOf(st, l, account, asset)
    && ClientBalance(st', l, account, asset) == ClientBalance(st, l, account, asset)
    && Clean(st', l, account, asset) == Clean(st, l, account, asset)
  }

  lemma MarkUnseen(st: State, st': State, ledger: string, i: nat, l: string, account: string, asset: string, r: string)
    requires Marked(st, st', ledger, i)
    ensures SameSeen(st, st', l, account, asset)
    ensures Has(st', l, r) == Has(st, l, r)
  {
    var txs, txs' := Txs(st, l), Txs(st', l);
    assert txs' == if l == ledger then txs[i := txs[i].(reverted := true)] else txs;
    ReplayedIgnoresMarks(txs', txs, account, asset);
    ClientNetIgnoresMarks(txs', txs, account, asset);
    ClashesIgnoreMarks(txs', txs, account, asset);
    if l == ledger {
      LedgerRuns.FindReferenceMarked(txs, i, r);
    }
  }

  ghost predicate ReferencedBut(st: State, st': State, except: string, l: string, r: string) {
    r != "" && r != except ==> Has(st', l, r) == Has(st, l, r)
  }

  /** The call is a revert that succeeds and posts a reversal. */
  predicate PostsReversal(st: State, op: Op) {
    op.RevertOp? && Revert(st, op.ledger, op.id).1.Ok? &&
      FindReference(Txs(st, op.ledger), RevertReference(op.id)) == None
  }

  function Original(st: State, op: Op): seq<Entry>
    requires op.RevertOp? && FindId(Txs(st, op.ledger), op.id).Some?
  {
    Entries(Txs(st, op.ledger)[FindId(Txs(st, op.ledger), op.id).value].postings)
  }

  /** What a call takes back from an account, as a change of its balance: minus the effect of the transaction whose
      reversal it posts, and nothing if it posts none. */
  function TakenBack(st: State, op: Op, ledger: string, account: string, asset: string): int {
    if op.ledger == ledger && PostsReversal(st, op) then -NetOf(Original(st, op), account, asset) else 0
  }

  ghost predicate RevertedAt(st: State, st': State, op: Op, l: string, account: string, asset: string) {
    && BalanceOf(st', l, account, asset) == BalanceOf(st, l, account, asset) + TakenBack(st, op, l, account, asset)
    && ClientBalance(st', l, account, asset) == ClientBalance(st, l, account, asset)
    && (Clean(st, l, account, asset) ==> Clean(st', l, account, asset))
  }

  /** Seen from balances and references: what a revert posted is taken back, the client part and cleanness of every
      balance stay, and no reference is new but revert:<id>. */
  ghost predicate RevertSeen(st: State, st': State, op: Op)
    requires op.RevertOp?
  {
    && (forall l, account, asset :: RevertedAt(st, st', op, l, account, asset))
    && forall l, r :: ReferencedBut(st, st', RevertReference(op.id), l, r)
  }

  lemma SwapKeepsNoClashBefore(es: seq<Entry>, account: string, asset: string)
    requires NoClashBefore(es, account, asset)
    ensures NoClashBefore(Swap(es), account, asset)
  {
    var back := Swap(es);
    forall i, j | 0 <= i < j < |back| && EndsAt(back[j], account, asset)
      ensures Distinguishes(back[i], account, asset)
    {
      assert EndsAt(es[j], account, asset);
      assert Distinguishes(es[i], account, asset);
    }
  }

  /** The reversal of a stored transaction confuses no pair that was not confused before. */
  lemma ReversalKeepsClean(txs: seq<Transaction>, i: nat, tx: Transaction, account: string, asset: string)
    requires i < |txs| && Entries(tx.postings) == Swap(Entries(txs[i].postings))
    ensures CleanAt(txs, account, asset) ==> CleanAt(txs + [tx], account, asset)
  {
    CleanAppend(txs, tx, account, asset);
    if CleanAt(txs, account, asset) {
      SwapKeepsNoClashBefore(Entries(txs[i].postings), account, asset);
    }
  }

  lemma ReversalAt(st: State, mid: State, op: Op, tx: Transaction, i: nat, l: string, account: string, asset: string)
    requires op.RevertOp? && PostsReversal(st, op) && FindId(Txs(st, op.ledger), op.id) == Some(i)
    requires forall k :: Txs(mid, k) == if k == op.ledger then Txs(st, k) + [tx] else Txs(st, k)
    requires i < |Txs(st, op.ledger)| && Entries(tx.postings) == Swap(Original(st, op))
    requires tx.reference == RevertReference(op.id)
    ensures RevertedAt(st, mid, op, l, account, asset)
  {
    hide PostsReversal;
    assert IsRevertReference(RevertReference(op.id));
    if l == op.ledger {
      ReplayedAppend(Txs(st, l), tx, account, asset);
      ClientNetAppend(Txs(st, l), tx, account, asset);
      ReversalKeepsClean(Txs(st, l), i, tx, account, asset);
      SwapNegates(Original(st, op), account, asset);
    }
  }

  lemma RevertSeenAfterMark(st: State, mid: State, st': State, op: Op, i: nat)
    requires op.RevertOp? && Marked(mid, st', op.ledger, i)
    requires forall l, account, asset :: RevertedAt(st, mid, op, l, account, asset)
    requires forall l, r :: ReferencedBut(st, mid, RevertReference(op.id), l, r)
    ensures RevertSeen(st, st', op)
  {
    hide PostsReversal;
    forall l, account, asset ensures RevertedAt(st, st', op, l, account, asset) {
      assert RevertedAt(st, mid, op, l, account, asset);
      MarkUnseen(mid, st', op.ledger, i, l, account, asset, "");
    }
    forall l, r ensures ReferencedBut(st, st', RevertReference(op.id), l, r) {
      assert ReferencedBut(st, mid, RevertReference(op.id), l, r);
      MarkUnseen(mid, st', op.ledger, i, l, "", "", r);
    }
  }

  lemma RevertUnseen(st: State, op: Op)
    requires op.RevertOp? && !PostsReversal(st, op)
    ensures RevertSeen(st, st, op)
  {
  }

  lemma RevertTakes(st: State, op: Op)
    requires Books(st) && op.RevertOp?
    ensures RevertSeen(st, Apply(st, op), op)
  {
    var l, id := op.ledger, op.id;
    var found := FindId(Txs(st, l), id);
    LedgerRuns.RevertCases(st, l, id);
    if !Revert(st, l, id).1.Ok? {
      RevertUnseen(st, op);
    } else {
      var i := found.value;
      var original := Txs(st, l)[i];
      var req := Request(RevertReference(id), SwapPostings(original.postings));
      assert WellKept(st, l);
      assert Valid(original, l, st.nextID);
      LedgerRuns.SwapAcceptable(original.postings);
      LedgerRuns.ReversalPosts(st, l, i, id);
      PostCases(st, l, req);
      PostTakes(st, l, req);
      var (mid, posted) := Post(st, l, req);
      MarkCases(mid, l, id);
      forall k, account, asset ensures RevertedAt(st, mid, op, k, account, asset) {
        if PostsReversal(st, op) {
          ReversalAt(st, mid, op, posted.value, i, k, account, asset);
        }
      }
      forall k, r ensures ReferencedBut(st, mid, RevertReference(id), k, r) {
        assert !Repeats(st, l, req) ==> Referenced(st, mid, l, RevertReference(id), k, r);
      }
      RevertSeenAfterMark(st, mid, Apply(st, op), op, FindId(Txs(mid, l), id).value);
    }
  }
}
