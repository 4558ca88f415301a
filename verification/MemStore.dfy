/** The in-memory store: fields updated in place, each method proved against the ledger functions. */
module MemStore {
  import opened Outcomes
  import opened Decimal
  import opened LedgerTypes
  import opened Volumes
  import opened Ledger

  lemma {:induction false} LatestFlow(moves: seq<Move>, ledger: string, account: string, asset: string)
    ensures LatestVolume(Flows(moves), ledger, account, asset) ==
      match LatestMove(moves, ledger, account, asset)
      case None => Volume(0, 0)
      case Some(m) => Volume(Value(m.postInputs), Value(m.postOutputs))
  {
    if moves != [] {
      assert Flows(moves)[..|moves| - 1] == Flows(moves[..|moves| - 1]);
      LatestFlow(moves[..|moves| - 1], ledger, account, asset);
    }
  }

  lemma {:induction false} NoLatest(moves: seq<Move>, ledger: string, account: string, asset: string)
    requires LatestMove(moves, ledger, account, asset) == None
    ensures Latest(Flows(moves), ledger, account, asset) == None
  {
    if moves != [] {
      assert Flows(moves)[..|moves| - 1] == Flows(moves[..|moves| - 1]);
      NoLatest(moves[..|moves| - 1], ledger, account, asset);
    }
  }

  /** A backward scan that skips non-matching moves has not passed the newest matching one. */
  lemma {:induction false} LatestSkips(moves: seq<Move>, n: nat, ledger: string, account: string, asset: string)
    requires n <= |moves|
    requires forall k :: n <= k < |moves| ==>
      !(moves[k].ledger == ledger && moves[k].account == account && moves[k].asset == asset)
    ensures LatestMove(moves, ledger, account, asset) == LatestMove(moves[..n], ledger, account, asset)
  {
    if n == |moves| {
      assert moves[..n] == moves;
    } else {
      LatestSkips(moves[..|moves| - 1], n, ledger, account, asset);
      assert moves[..|moves| - 1][..n] == moves[..n];
    }
  }

  /** The row a balance read returns for one asset. */
  function BalanceRow(moves: seq<Move>, ledger: string, account: string, asset: string): AccountBalance {
    var v := LatestVolume(Flows(moves), ledger, account, asset);
    AccountBalance(account, asset, Print(v.ins - v.outs), Print(v.ins), Print(v.outs))
  }

  predicate HasRow(rows: seq<AccountBalance>, asset: string) {
    exists i :: 0 <= i < |rows| && rows[i].asset == asset
  }

  /** One row per asset the account ever touched, in any order, with the single-asset read's values. */
  ghost predicate ListsBalances(rows: seq<AccountBalance>, moves: seq<Move>, ledger: string, account: string) {
    && (forall i, j :: 0 <= i < j < |rows| ==> rows[i].asset != rows[j].asset)
    && (forall i :: 0 <= i < |rows| ==>
          rows[i] == BalanceRow(moves, ledger, account, rows[i].asset) &&
          LatestMove(moves, ledger, account, rows[i].asset).Some?)
    && (forall asset :: LatestMove(moves, ledger, account, asset).Some? ==> HasRow(rows, asset))
  }

  /** The forward scan's map agrees with the newest matching move of each asset. */
  ghost predicate Recorded(latest: map<string, Move>, moves: seq<Move>, ledger: string, account: string,
                           asset: string) {
    LatestMove(moves, ledger, account, asset) == if asset in latest then Some(latest[asset]) else None
  }

  /** One row for every asset of the map that is no longer to be listed. */
  ghost predicate RowsSoFar(rows: seq<AccountBalance>, latest: map<string, Move>, todo: set<string>, moves: seq<Move>,
                            ledger: string, account: string)
  {
    && todo <= latest.Keys
    && (forall i, j :: 0 <= i < j < |rows| ==> rows[i].asset != rows[j].asset)
    && (forall i :: 0 <= i < |rows| ==>
          rows[i].asset in latest && rows[i].asset !in todo &&
          rows[i] == BalanceRow(moves, ledger, account, rows[i].asset))
    && (forall asset :: asset in latest && asset !in todo ==> HasRow(rows, asset))
  }

  lemma HasRowAppend(rows: seq<AccountBalance>, row: AccountBalance, asset: string)
    ensures HasRow(rows + [row], asset) <==> HasRow(rows, asset) || row.asset == asset
  {
    if HasRow(rows, asset) {
      var k :| 0 <= k < |rows| && rows[k].asset == asset;
      assert (rows + [row])[k].asset == asset;
    }
    assert (rows + [row])[|rows|] == row;
  }

  lemma OneMoreRow(rows: seq<AccountBalance>, row: AccountBalance, latest: map<string, Move>, todo: set<string>,
                   moves: seq<Move>, ledger: string, account: string)
    requires RowsSoFar(rows, latest, todo, moves, ledger, account)
    requires row.asset in todo && row == BalanceRow(moves, ledger, account, row.asset)
    ensures RowsSoFar(rows + [row], latest, todo - {row.asset}, moves, ledger, account)
  {
    forall a | a in latest && a !in todo - {row.asset} ensures HasRow(rows + [row], a) {
      HasRowAppend(rows, row, a);
    }
  }

  lemma AllRows(rows: seq<AccountBalance>, latest: map<string, Move>, moves: seq<Move>, ledger: string, account: string)
    requires RowsSoFar(rows, latest, {}, moves, ledger, account)
    requires forall asset :: Recorded(latest, moves, ledger, account, asset)
    ensures ListsBalances(rows, moves, ledger, account)
  {
    forall asset | LatestMove(moves, ledger, account, asset).Some? ensures HasRow(rows, asset) {
      assert Recorded(latest, moves, ledger, account, asset);
    }
    forall i | 0 <= i < |rows| ensures LatestMove(moves, ledger, account, rows[i].asset).Some? {
      assert Recorded(latest, moves, ledger, account, rows[i].asset);
    }
  }

  lemma RecordedStep(before: map<string, Move>, after: map<string, Move>, moves: seq<Move>, m: Move, all: seq<Move>,
                     ledger: string, account: string)
    requires all == moves + [m]
    requires after == if m.ledger == ledger && m.account == account then before[m.asset := m] else before
    requires forall asset :: Recorded(before, moves, ledger, account, asset)
    ensures forall asset :: Recorded(after, all, ledger, account, asset)
  {
    assert all[..|all| - 1] == moves;
    forall asset ensures Recorded(after, all, ledger, account, asset) {
      assert Recorded(before, moves, ledger, account, asset);
    }
  }

  lemma {:induction false} FirstId(txs: seq<Transaction>, i: nat, id: int)
    requires i < |txs| && FindId(txs[..i], id) == None && txs[i].id == id
    ensures FindId(txs, id) == Some(i)
  {
    if i == |txs| - 1 {
    } else {
      assert txs[..|txs| - 1][..i] == txs[..i];
      FirstId(txs[..|txs| - 1], i, id);
    }
  }

  lemma {:induction false} FirstReference(txs: seq<Transaction>, i: nat, reference: string)
    requires i < |txs| && FindReference(txs[..i], reference) == None && txs[i].reference == reference
    ensures FindReference(txs, reference) == Some(txs[i])
  {
    if i == |txs| - 1 {
    } else {
      assert txs[..|txs| - 1][..i] == txs[..i];
      FirstReference(txs[..|txs| - 1], i, reference);
    }
  }

  class Store {
    var accounts: map<string, Account>
    var transactions: map<string, seq<Transaction>>
    var postings: map<int, seq<Posting>>
    var moves: seq<Move>
    var logs: seq<LogEntry>
    var nextID: int

    function View(): State
      reads this
    {
      State(accounts, transactions, postings, moves, logs, nextID)
    }

    constructor ()
      ensures View() == EMPTY
    {
      accounts, transactions, postings := map[], map[], map[];
      moves, logs, nextID := [], [], 0;
    }

    method NextSeq() returns (id: int)
      modifies `nextID
      ensures id == nextID == old(nextID) + 1
    {
      nextID := nextID + 1;
      id := nextID;
    }

    method CreateAccount(ledger: string, address: string, kind: string) returns (id: int)
      modifies `accounts, `nextID
      ensures View() == PutAccount(old(View()), ledger, address, kind)
      ensures AccountKey(ledger, address) in accounts && id == accounts[AccountKey(ledger, address)].id
    {
      var key := ledger + ":" + address;
      if key in accounts {
        id := accounts[key].id;
        return;
      }
      id := NextSeq();
      accounts := accounts[key := Account(id, ledger, address, kind)];
    }

    method GetAccount(ledger: string, address: string) returns (account: Option<Account>)
      ensures account.Some? <==> AccountKey(ledger, address) in accounts
      ensures account.Some? ==> account.value == accounts[AccountKey(ledger, address)]
    {
      var key := ledger + ":" + address;
      account := if key in accounts then Some(accounts[key]) else None;
    }

    /** The moves are stored before their posting ids are filled in, so only the caller's copy carries them. */
    method InsertTransaction(ledger: string, reference: string, ps: seq<Posting>, ms: seq<Move>)
      returns (tx: Transaction, callerMoves: seq<Move>)
      modifies this
      ensures View() == Insert(old(View()), ledger, reference, ps, ms)
      ensures tx == NumberTransaction(old(View()), ledger, reference, ps)
      ensures |callerMoves| == |ms| && |moves| == |old(moves)| + |ms|
      ensures forall k :: 0 <= k < |ms| ==> moves[|old(moves)| + k].postingId == ms[k].postingId
      ensures forall k :: 0 <= k < |ms| && k < 2 * |ps| ==>
        callerMoves[k] == moves[|old(moves)| + k].(postingId := tx.postings[k / 2].id)
    {
      var before := nextID;
      var txId := NextSeq();
      var numbered := ps;
      for i := 0 to |ps|
        invariant |numbered| == |ps| && nextID == txId + i
        invariant forall k :: 0 <= k < |ps| ==>
          numbered[k] == if k < i then ps[k].(id := txId + 1 + k, txId := txId) else ps[k]
        invariant moves == old(moves) && transactions == old(transactions) && postings == old(postings)
        invariant accounts == old(accounts) && logs == old(logs)
      {
        var id := NextSeq();
        numbered := numbered[i := numbered[i].(id := id, txId := txId)];
      }
      callerMoves := ms;
      for i := 0 to |ms|
        invariant |callerMoves| == |ms| && nextID == txId + |ps| + i
        invariant forall k :: 0 <= k < |ms| ==>
          callerMoves[k] == if k < i then ms[k].(id := txId + |ps| + 1 + k, txId := txId) else ms[k]
        invariant moves == old(moves) && transactions == old(transactions) && postings == old(postings)
        invariant accounts == old(accounts) && logs == old(logs)
      {
        var id := NextSeq();
        callerMoves := callerMoves[i := callerMoves[i].(id := id, txId := txId)];
      }
      tx := Transaction(txId, ledger, reference, numbered, false);
      assert numbered == NumberPostings(ps, txId, txId);
      assert callerMoves == NumberMoves(ms, txId + |ps|, txId);
      transactions := transactions[ledger := (if ledger in transactions then transactions[ledger] else []) + [tx]];
      postings := postings[txId := numbered];
      moves := moves + callerMoves;

      callerMoves := AssignPostingIds(numbered, callerMoves);
    }

    static method AssignPostingIds(ps: seq<Posting>, ms: seq<Move>) returns (paired: seq<Move>)
      ensures |paired| == |ms|
      ensures forall k :: 0 <= k < |ms| ==>
        paired[k] == if k < 2 * |ps| then ms[k].(postingId := ps[k / 2].id) else ms[k]
    {
      paired := ms;
      var moveIdx := 0;
      for i := 0 to |ps|
        invariant |paired| == |ms|
        invariant moveIdx == if 2 * i <= |ms| then 2 * i else |ms|
        invariant forall k :: 0 <= k < |ms| ==>
          paired[k] == if k < 2 * i then ms[k].(postingId := ps[k / 2].id) else ms[k]
      {
        var j := 0;
        while j < 2 && moveIdx < |ms|
          invariant 0 <= j <= 2 && |paired| == |ms|
          invariant moveIdx == if 2 * i + j <= |ms| then 2 * i + j else |ms|
          invariant forall k :: 0 <= k < |ms| ==>
            paired[k] == if k < 2 * i + j then ms[k].(postingId := ps[k / 2].id) else ms[k]
        {
          paired := paired[moveIdx := paired[moveIdx].(postingId := ps[i].id)];
          moveIdx := moveIdx + 1;
          j := j + 1;
        }
      }
    }

    method GetTransaction(ledger: string, id: int) returns (found: Option<Transaction>)
      ensures found == match FindId(Txs(View(), ledger), id)
                       case None => None
                       case Some(i) => Some(Txs(View(), ledger)[i])
    {
      var txs := if ledger in transactions then transactions[ledger] else [];
      for i := 0 to |txs|
        invariant FindId(txs[..i], id) == None
      {
        assert txs[..i + 1][..i] == txs[..i];
        if txs[i].id == id {
          FirstId(txs, i, id);
          return Some(txs[i]);
        }
      }
      assert txs[..|txs|] == txs;
      found := None;
    }

    method GetTransactionByReference(ledger: string, reference: string) returns (found: Option<Transaction>)
      ensures found == FindReference(Txs(View(), ledger), reference)
    {
      var txs := if ledger in transactions then transactions[ledger] else [];
      for i := 0 to |txs|
        invariant FindReference(txs[..i], reference) == None
      {
        assert txs[..i + 1][..i] == txs[..i];
        if txs[i].reference == reference {
          FirstReference(txs, i, reference);
          return Some(txs[i]);
        }
      }
      assert txs[..|txs|] == txs;
      found := None;
    }

    method ListTransactions(ledger: string, limit: nat, offset: nat) returns (page: seq<Transaction>)
      ensures page == Page(Txs(View(), ledger), limit, offset)
    {
      var all := if ledger in transactions then transactions[ledger] else [];
      var reversed: seq<Transaction> := [];
      var i := |all| - 1;
      while i >= 0
        invariant -1 <= i < |all|
        invariant reversed == NewestFirst(all)[..|all| - 1 - i]
      {
        reversed := reversed + [all[i]];
        i := i - 1;
      }
      assert reversed == NewestFirst(all);
      if offset >= |reversed| {
        return [];
      }
      var end := offset + limit;
      if end > |reversed| {
        end := |reversed|;
      }
      page := reversed[offset..end];
    }

    method RevertTransaction(ledger: string, id: int) returns (r: Result<()>)
      modifies `transactions
      ensures (View(), r) == MarkReverted(old(View()), ledger, id)
    {
      var txs := if ledger in transactions then transactions[ledger] else [];
      for i := 0 to |txs|
        invariant FindId(txs[..i], id) == None && transactions == old(transactions)
      {
        assert txs[..i + 1][..i] == txs[..i];
        if txs[i].id == id {
          FirstId(txs, i, id);
          if txs[i].reverted {
            return Err(AlreadyReverted(id));
          }
          transactions := transactions[ledger := txs[i := txs[i].(reverted := true)]];
          return Ok(());
        }
      }
      assert txs[..|txs|] == txs;
      r := Err(TransactionNotFound(id));
    }

    method GetAccountBalance(ledger: string, account: string, asset: string) returns (inputs: string, outputs: string)
      ensures Volume(Value(inputs), Value(outputs)) == LatestVolume(Flows(moves), ledger, account, asset)
      ensures LatestMove(moves, ledger, account, asset) == None ==> inputs == "0" && outputs == "0"
      ensures LatestMove(moves, ledger, account, asset).Some? ==>
        inputs == LatestMove(moves, ledger, account, asset).value.postInputs &&
        outputs == LatestMove(moves, ledger, account, asset).value.postOutputs
    {
      var latest: Option<Move> := None;
      var i := |moves| - 1;
      while i >= 0 && latest == None
        invariant -1 <= i < |moves|
        invariant latest == None ==> forall k :: i < k < |moves| ==>
          !(moves[k].ledger == ledger && moves[k].account == account && moves[k].asset == asset)
        invariant latest.Some? ==> latest == LatestMove(moves, ledger, account, asset)
        decreases i + if latest == None then 1 else 0
      {
        var m := moves[i];
        if m.ledger == ledger && m.account == account && m.asset == asset {
          latest := Some(m);
          LatestSkips(moves, i + 1, ledger, account, asset);
          assert moves[..i + 1][..i] == moves[..i];
        } else {
          i := i - 1;
        }
      }
      LatestFlow(moves, ledger, account, asset);
      if latest == None {
        LatestSkips(moves, 0, ledger, account, asset);
        ParsePrint(0);
        assert Print(0) == "0";
        return "0", "0";
      }
      return latest.value.postInputs, latest.value.postOutputs;
    }

    /** The forward scan: later moves overwrite earlier ones of the same asset. */
    method LatestByAsset(ledger: string, account: string) returns (latestByAsset: map<string, Move>)
      ensures forall asset :: Recorded(latestByAsset, moves, ledger, account, asset)
    {
      latestByAsset := map[];
      for i := 0 to |moves|
        invariant forall asset :: Recorded(latestByAsset, moves[..i], ledger, account, asset)
      {
        ghost var before := latestByAsset;
        var m := moves[i];
        if m.ledger == ledger && m.account == account {
          latestByAsset := latestByAsset[m.asset := m];
        }
        RecordedStep(before, latestByAsset, moves[..i], m, moves[..i + 1], ledger, account);
      }
      assert moves[..|moves|] == moves;
    }

    method GetAccountBalances(ledger: string, account: string) returns (rows: seq<AccountBalance>)
      ensures ListsBalances(rows, moves, ledger, account)
    {
      var latestByAsset := LatestByAsset(ledger, account);
      rows := [];
      var assets := latestByAsset.Keys;
      while assets != {}
        invariant RowsSoFar(rows, latestByAsset, assets, moves, ledger, account)
        decreases assets
      {
        var asset :| asset in assets;
        var m := latestByAsset[asset];
        var ins, outs := Value(m.postInputs), Value(m.postOutputs);
        var row := AccountBalance(account, asset, Print(ins - outs), Print(ins), Print(outs));
        assert Recorded(latestByAsset, moves, ledger, account, asset);
        LatestFlow(moves, ledger, account, asset);
        OneMoreRow(rows, row, latestByAsset, assets, moves, ledger, account);
        rows := rows + [row];
        assets := assets - {asset};
      }
      AllRows(rows, latestByAsset, moves, ledger, account);
    }

    method InsertLog(ledger: string, tx: Transaction)
      modifies `logs, `nextID
      ensures View() == AddLog(old(View()), ledger, tx)
    {
      var id := NextSeq();
      logs := logs + [LogEntry(id, ledger, tx.id, tx.reference, |tx.postings|)];
    }
  }
}
