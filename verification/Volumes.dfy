/** The ledger's records. Times and metadata are not modelled. */
module LedgerTypes {

  datatype Account = Account(id: int, ledger: string, address: string, kind: string)

  datatype Posting = Posting(id: int, txId: int, source: string, destination: string, asset: string, amount: string)

  datatype Transaction = Transaction(id: int, ledger: string, reference: string, postings: seq<Posting>, reverted: bool)

  datatype Move = Move(id: int, ledger: string, txId: int, postingId: int, account: string, asset: string,
                       amount: string, isSource: bool, postInputs: string, postOutputs: string)

  datatype LogEntry = LogEntry(id: int, ledger: string, txId: int, reference: string, postingsCount: int)

  datatype Request = Request(reference: string, postings: seq<Posting>)

  datatype AccountBalance = AccountBalance(account: string, asset: string, balance: string, inputs: string,
                                           outputs: string)
}

/** Running totals: what a move list adds up to, and how PostTransaction predicts those sums. */
module Volumes {
  import opened Outcomes
  import Text

  /** A posting with its amount read as an integer. */
  datatype Entry = Entry(source: string, destination: string, asset: string, amount: int)

  /** A stored move with its three amounts read as integers; the ids do not matter here. */
  datatype Flow = Flow(ledger: string, account: string, asset: string, isSource: bool, amount: int, ins: int, outs: int)

  /** What an account received and paid out in one asset. */
  datatype Volume = Volume(ins: int, outs: int)

  function PostVolume(m: Flow): Volume {
    Volume(m.ins, m.outs)
  }

  /** Replay: the sum of the selected moves on one side (sources are outputs). */
  function SumWhere(moves: seq<Flow>, p: Flow -> bool, source: bool): int {
    if moves == [] then 0
    else
      var m := moves[|moves| - 1];
      SumWhere(moves[..|moves| - 1], p, source) + if p(m) && m.isSource == source then m.amount else 0
  }

  function At(ledger: string, account: string, asset: string): Flow -> bool {
    (m: Flow) => m.ledger == ledger && m.account == account && m.asset == asset
  }

  /** The replayed volume of an account and asset. */
  function Totals(moves: seq<Flow>, ledger: string, account: string, asset: string): Volume {
    Volume(SumWhere(moves, At(ledger, account, asset), false), SumWhere(moves, At(ledger, account, asset), true))
  }

  lemma {:induction false} SumAppend(a: seq<Flow>, b: seq<Flow>, p: Flow -> bool, source: bool)
    ensures SumWhere(a + b, p, source) == SumWhere(a, p, source) + SumWhere(b, p, source)
  {
    if b == [] {
      assert a + b == a;
    } else {
      assert (a + b)[..|a + b| - 1] == a + b[..|b| - 1];
      SumAppend(a, b[..|b| - 1], p, source);
    }
  }

  lemma {:induction false} SumSame(a: seq<Flow>, b: seq<Flow>, p: Flow -> bool, q: Flow -> bool, source: bool)
    requires |a| == |b|
    requires forall i :: 0 <= i < |a| ==>
      p(a[i]) == q(b[i]) && (p(a[i]) ==> a[i].amount == b[i].amount && a[i].isSource == b[i].isSource)
    ensures SumWhere(a, p, source) == SumWhere(b, q, source)
  {
    if a != [] {
      SumSame(a[..|a| - 1], b[..|b| - 1], p, q, source);
    }
  }

  lemma {:induction false} SumNone(moves: seq<Flow>, p: Flow -> bool, source: bool)
    requires forall i :: 0 <= i < |moves| ==> !p(moves[i])
    ensures SumWhere(moves, p, source) == 0
  {
    if moves != [] {
      SumNone(moves[..|moves| - 1], p, source);
    }
  }

  lemma TotalsAppend(a: seq<Flow>, b: seq<Flow>, ledger: string, account: string, asset: string)
    ensures Totals(a + b, ledger, account, asset).ins
         == Totals(a, ledger, account, asset).ins + Totals(b, ledger, account, asset).ins
    ensures Totals(a + b, ledger, account, asset).outs
         == Totals(a, ledger, account, asset).outs + Totals(b, ledger, account, asset).outs
  {
    SumAppend(a, b, At(ledger, account, asset), false);
    SumAppend(a, b, At(ledger, account, asset), true);
  }

  /** A wider selection of positive moves never sums to less, and to more on the side of a move it adds. */
  lemma {:induction false} SumGrows(moves: seq<Flow>, p: Flow -> bool, q: Flow -> bool, i: nat)
    requires forall k :: 0 <= k < |moves| ==> (p(moves[k]) ==> q(moves[k])) && moves[k].amount > 0
    ensures SumWhere(moves, p, false) <= SumWhere(moves, q, false)
    ensures SumWhere(moves, p, true) <= SumWhere(moves, q, true)
    ensures i < |moves| && q(moves[i]) && !p(moves[i]) ==>
      SumWhere(moves, p, moves[i].isSource) < SumWhere(moves, q, moves[i].isSource)
  {
    if moves != [] {
      SumGrows(moves[..|moves| - 1], p, q, i);
    }
  }

  /** The newest stored move of an account and asset, found from the end of the list. */
  function Latest(moves: seq<Flow>, ledger: string, account: string, asset: string): Option<Flow> {
    if moves == [] then None
    else
      var m := moves[|moves| - 1];
      if m.ledger == ledger && m.account == account && m.asset == asset then Some(m)
      else Latest(moves[..|moves| - 1], ledger, account, asset)
  }

  function LatestVolume(moves: seq<Flow>, ledger: string, account: string, asset: string): Volume {
    match Latest(moves, ledger, account, asset)
    case None => Volume(0, 0)
    case Some(m) => PostVolume(m)
  }

  /** Every running total stored for this account and asset equals the replay up to and including its move. */
  ghost predicate ExactAt(moves: seq<Flow>, ledger: string, account: string, asset: string) {
    forall i :: 0 <= i < |moves| && At(ledger, account, asset)(moves[i]) ==>
      PostVolume(moves[i]) == Totals(moves[..i + 1], ledger, account, asset)
  }

  ghost predicate CachesExact(moves: seq<Flow>) {
    forall ledger, account, asset :: ExactAt(moves, ledger, account, asset)
  }

  lemma ExactPrefix(moves: seq<Flow>, more: seq<Flow>, ledger: string, account: string, asset: string)
    requires ExactAt(moves + more, ledger, account, asset)
    ensures ExactAt(moves, ledger, account, asset)
  {
    forall i | 0 <= i < |moves| && At(ledger, account, asset)(moves[i])
      ensures PostVolume(moves[i]) == Totals(moves[..i + 1], ledger, account, asset)
    {
      assert (moves + more)[i] == moves[i];
      assert (moves + more)[..i + 1] == moves[..i + 1];
    }
  }

  lemma {:induction false} LatestIsTotal(moves: seq<Flow>, ledger: string, account: string, asset: string)
    requires ExactAt(moves, ledger, account, asset)
    ensures LatestVolume(moves, ledger, account, asset) == Totals(moves, ledger, account, asset)
  {
    if moves != [] {
      var front := moves[..|moves| - 1];
      if At(ledger, account, asset)(moves[|moves| - 1]) {
        assert moves[..|moves| - 1 + 1] == moves;
      } else {
        assert moves == front + [moves[|moves| - 1]];
        ExactPrefix(front, [moves[|moves| - 1]], ledger, account, asset);
        LatestIsTotal(front, ledger, account, asset);
      }
    }
  }

  /*** Building the moves of one request ***/

  function Key(account: string, asset: string): string {
    account + ":" + asset
  }

  function KeyIs(key: string): Flow -> bool {
    (m: Flow) => Key(m.account, m.asset) == key
  }

  datatype Built = Built(moves: seq<Flow>, adj: map<string, Volume>)

  function AdjOf(adj: map<string, Volume>, key: string): Volume {
    if key in adj then adj[key] else Volume(0, 0)
  }

  /** One end of a posting: stored volumes, plus this request's adjustments under the key, plus this amount. */
  function AddMove(b: Built, ledger: string, account: string, asset: string, isSource: bool, amount: int,
                   stored: (string, string) -> Volume): Built
  {
    var adj := AdjOf(b.adj, Key(account, asset));
    var read := stored(account, asset);
    var inputs := read.ins + adj.ins + if isSource then 0 else amount;
    var outputs := read.outs + adj.outs + if isSource then amount else 0;
    Built(b.moves + [Flow(ledger, account, asset, isSource, amount, inputs, outputs)],
          b.adj[Key(account, asset) := Volume(adj.ins + if isSource then 0 else amount,
                                              adj.outs + if isSource then amount else 0)])
  }

  function AddPosting(b: Built, ledger: string, p: Entry, stored: (string, string) -> Volume): Built {
    var debited := AddMove(b, ledger, p.source, p.asset, true, p.amount, stored);
    AddMove(debited, ledger, p.destination, p.asset, false, p.amount, stored)
  }

  function Build(ledger: string, ps: seq<Entry>, stored: (string, string) -> Volume): Built {
    if ps == [] then Built([], map[])
    else AddPosting(Build(ledger, ps[..|ps| - 1], stored), ledger, ps[|ps| - 1], stored)
  }

  /** The account of move k: postings contribute a source and then a destination. */
  function End(ps: seq<Entry>, k: nat): string
    requires k < 2 * |ps|
  {
    if k % 2 == 0 then ps[k / 2].source else ps[k / 2].destination
  }

  lemma {:induction false} BuildShape(ledger: string, ps: seq<Entry>, stored: (string, string) -> Volume)
    ensures var moves := Build(ledger, ps, stored).moves;
      && |moves| == 2 * |ps|
      && forall k :: 0 <= k < |moves| ==>
        && moves[k].ledger == ledger && moves[k].account == End(ps, k) && moves[k].asset == ps[k / 2].asset
        && moves[k].isSource == (k % 2 == 0) && moves[k].amount == ps[k / 2].amount
  {
    if ps != [] {
      BuildShape(ledger, ps[..|ps| - 1], stored);
    }
  }

  function KeySums(moves: seq<Flow>, key: string): Volume {
    Volume(SumWhere(moves, KeyIs(key), false), SumWhere(moves, KeyIs(key), true))
  }

  ghost predicate Predicted(moves: seq<Flow>, k: nat, stored: (string, string) -> Volume)
    requires k < |moves|
  {
    var m := moves[k];
    var read, sums := stored(m.account, m.asset), KeySums(moves[..k + 1], Key(m.account, m.asset));
    PostVolume(m) == Volume(read.ins + sums.ins, read.outs + sums.outs)
  }

  /** What the builder knows at every step, whatever the keys: adjustments are the sums per key, and each
      move's running totals are the stored volumes plus those sums. */
  ghost predicate Tracks(b: Built, stored: (string, string) -> Volume) {
    && (forall key :: AdjOf(b.adj, key) == KeySums(b.moves, key))
    && forall k :: 0 <= k < |b.moves| ==> Predicted(b.moves, k, stored)
  }

  lemma AddMoveTracks(b: Built, ledger: string, account: string, asset: string, isSource: bool, amount: int,
                      stored: (string, string) -> Volume)
    requires Tracks(b, stored)
    ensures Tracks(AddMove(b, ledger, account, asset, isSource, amount, stored), stored)
  {
    var b' := AddMove(b, ledger, account, asset, isSource, amount, stored);
    var m := b'.moves[|b.moves|];
    assert b'.moves[..|b'.moves| - 1] == b.moves;
    forall key ensures AdjOf(b'.adj, key) == KeySums(b'.moves, key) {
      assert AdjOf(b.adj, key) == KeySums(b.moves, key);
    }
    forall k | 0 <= k < |b'.moves| ensures Predicted(b'.moves, k, stored) {
      if k < |b.moves| {
        assert b'.moves[..k + 1] == b.moves[..k + 1];
        assert Predicted(b.moves, k, stored);
      } else {
        assert b'.moves[..k + 1] == b'.moves;
      }
    }
  }

  lemma {:induction false} BuildTracks(ledger: string, ps: seq<Entry>, stored: (string, string) -> Volume)
    ensures Tracks(Build(ledger, ps, stored), stored)
  {
    if ps != [] {
      var b, p := Build(ledger, ps[..|ps| - 1], stored), ps[|ps| - 1];
      BuildTracks(ledger, ps[..|ps| - 1], stored);
      AddMoveTracks(b, ledger, p.source, p.asset, true, p.amount, stored);
      AddMoveTracks(AddMove(b, ledger, p.source, p.asset, true, p.amount, stored),
                    ledger, p.destination, p.asset, false, p.amount, stored);
    }
  }

  ghost predicate AgreeAt(p: Entry, f: (string, string) -> Volume, g: (string, string) -> Volume) {
    f(p.source, p.asset) == g(p.source, p.asset) && f(p.destination, p.asset) == g(p.destination, p.asset)
  }

  lemma AddPostingSame(b: Built, ledger: string, p: Entry, f: (string, string) -> Volume, g: (string, string) -> Volume)
    requires AgreeAt(p, f, g)
    ensures AddPosting(b, ledger, p, f) == AddPosting(b, ledger, p, g)
  {
    assert AddMove(b, ledger, p.source, p.asset, true, p.amount, f)
        == AddMove(b, ledger, p.source, p.asset, true, p.amount, g);
  }

  /** Only the volumes of the accounts a request touches matter to its moves. */
  lemma {:induction false} BuildDependsOnEnds(ledger: string, ps: seq<Entry>,
                                              f: (string, string) -> Volume, g: (string, string) -> Volume)
    requires forall i :: 0 <= i < |ps| ==> AgreeAt(ps[i], f, g)
    ensures Build(ledger, ps, f) == Build(ledger, ps, g)
  {
    if ps != [] {
      BuildDependsOnEnds(ledger, ps[..|ps| - 1], f, g);
      assert AgreeAt(ps[|ps| - 1], f, g);
      AddPostingSame(Build(ledger, ps[..|ps| - 1], f), ledger, ps[|ps| - 1], f, g);
    }
  }

  /*** When the prediction is right ***/

  /** Neither end of the posting has this pair's key without being this pair. */
  predicate Distinguishes(p: Entry, account: string, asset: string) {
    && (Key(p.source, p.asset) == Key(account, asset) ==> p.source == account && p.asset == asset)
    && (Key(p.destination, p.asset) == Key(account, asset) ==> p.destination == account && p.asset == asset)
  }

  /** No other account and asset of the request shares the adjustment key of this one. */
  predicate NoClashAt(ps: seq<Entry>, account: string, asset: string) {
    forall i :: 0 <= i < |ps| ==> Distinguishes(ps[i], account, asset)
  }

  predicate NoClash(ps: seq<Entry>) {
    forall i :: 0 <= i < |ps| ==>
      NoClashAt(ps, ps[i].source, ps[i].asset) && NoClashAt(ps, ps[i].destination, ps[i].asset)
  }

  predicate Touches(ps: seq<Entry>, account: string, asset: string) {
    exists i :: 0 <= i < |ps| && ps[i].asset == asset && (ps[i].source == account || ps[i].destination == account)
  }

  predicate EndsAt(p: Entry, account: string, asset: string) {
    p.asset == asset && (p.source == account || p.destination == account)
  }

  /** Whenever a posting of the request touches this pair, no earlier posting has touched another pair under its key. */
  predicate NoClashBefore(ps: seq<Entry>, account: string, asset: string) {
    forall i, j :: 0 <= i < j < |ps| && EndsAt(ps[j], account, asset) ==> Distinguishes(ps[i], account, asset)
  }

  lemma SameTail(a: string, b: string, asset: string)
    ensures Key(a, asset) == Key(b, asset) ==> a == b
  {
    if Key(a, asset) == Key(b, asset) {
      assert |a| == |b|;
      assert Key(a, asset)[..|a|] == a && Key(b, asset)[..|b|] == b;
    }
  }

  /** The ends of one posting never clash with each other: they carry one asset. */
  lemma EndsDistinguish(p: Entry, account: string, asset: string)
    requires p.asset == asset
    ensures Distinguishes(p, account, asset)
  {
    SameTail(p.source, account, asset);
    SameTail(p.destination, account, asset);
  }

  /** Without collisions anywhere, no pair is preceded by one. */
  lemma NoClashCovers(ps: seq<Entry>, account: string, asset: string)
    requires NoClash(ps)
    ensures NoClashBefore(ps, account, asset)
  {
    forall i, j | 0 <= i < j < |ps| && EndsAt(ps[j], account, asset) ensures Distinguishes(ps[i], account, asset) {
      assert NoClashAt(ps, ps[j].source, ps[j].asset) && NoClashAt(ps, ps[j].destination, ps[j].asset);
    }
  }

  function Stored(moves: seq<Flow>, ledger: string): (string, string) -> Volume {
    (account: string, asset: string) => LatestVolume(moves, ledger, account, asset)
  }

  /** The moves PostTransaction computes for these postings, before they are printed. */
  function NewFlows(moves: seq<Flow>, ledger: string, ps: seq<Entry>): seq<Flow> {
    Build(ledger, ps, Stored(moves, ledger)).moves
  }

  /** Exactness survives an append whose own moves are exact. */
  lemma ExactExtend(moves: seq<Flow>, more: seq<Flow>, ledger: string, account: string, asset: string)
    requires ExactAt(moves, ledger, account, asset)
    requires forall k :: 0 <= k < |more| && At(ledger, account, asset)(more[k]) ==>
      PostVolume(more[k]) == Totals(moves + more[..k + 1], ledger, account, asset)
    ensures ExactAt(moves + more, ledger, account, asset)
  {
    var all := moves + more;
    forall i | 0 <= i < |all| && At(ledger, account, asset)(all[i])
      ensures PostVolume(all[i]) == Totals(all[..i + 1], ledger, account, asset)
    {
      if i < |moves| {
        assert all[..i + 1] == moves[..i + 1];
      } else {
        assert all[..i + 1] == moves + more[..i - |moves| + 1];
        assert all[i] == more[i - |moves|];
      }
    }
  }

  lemma KeySumsAreTotals(ledger: string, ps: seq<Entry>, moves: seq<Flow>, account: string, asset: string)
    requires |moves| <= 2 * |ps|
    requires forall k :: 0 <= k < |moves| ==> Distinguishes(ps[k / 2], account, asset)
    requires forall k :: 0 <= k < |moves| ==>
      moves[k].ledger == ledger && moves[k].account == End(ps, k) && moves[k].asset == ps[k / 2].asset
    ensures KeySums(moves, Key(account, asset)) == Totals(moves, ledger, account, asset)
  {
    forall k | 0 <= k < |moves|
      ensures KeyIs(Key(account, asset))(moves[k]) == At(ledger, account, asset)(moves[k])
    {
      assert ps[k / 2].source == End(ps, k) || ps[k / 2].destination == End(ps, k);
    }
    SumSame(moves, moves, KeyIs(Key(account, asset)), At(ledger, account, asset), false);
    SumSame(moves, moves, KeyIs(Key(account, asset)), At(ledger, account, asset), true);
  }

  /** Up to a move of an unpreceded pair, every posting tells the pair apart. */
  lemma DistinguishedUpTo(ps: seq<Entry>, k: nat, account: string, asset: string)
    requires k < 2 * |ps| && End(ps, k) == account && ps[k / 2].asset == asset && NoClashBefore(ps, account, asset)
    ensures forall n :: 0 <= n <= k ==> Distinguishes(ps[n / 2], account, asset)
  {
    assert EndsAt(ps[k / 2], account, asset);
    EndsDistinguish(ps[k / 2], account, asset);
    forall n | 0 <= n <= k ensures Distinguishes(ps[n / 2], account, asset) {
      if n / 2 != k / 2 {
        assert n / 2 < k / 2;
      }
    }
  }

  /** A move with no move of another pair under its key before it adds the pair's own new moves to the volumes read. */
  lemma BuiltExactly(before: seq<Flow>, ledger: string, ps: seq<Entry>, added: seq<Flow>, k: nat, account: string,
                     asset: string)
    requires added == NewFlows(before, ledger, ps) && k < |added| == 2 * |ps| && At(ledger, account, asset)(added[k])
    requires forall n :: 0 <= n <= k ==> Distinguishes(ps[n / 2], account, asset)
    ensures var read := LatestVolume(before, ledger, account, asset);
      var own := Totals(added[..k + 1], ledger, account, asset);
      PostVolume(added[k]) == Volume(read.ins + own.ins, read.outs + own.outs)
  {
    BuildShape(ledger, ps, Stored(before, ledger));
    BuildTracks(ledger, ps, Stored(before, ledger));
    assert Predicted(added, k, Stored(before, ledger));
    KeySumsAreTotals(ledger, ps, added[..k + 1], account, asset);
  }

  lemma ExactAfterPost(before: seq<Flow>, ledger: string, ps: seq<Entry>, added: seq<Flow>, account: string,
                       asset: string)
    requires added == NewFlows(before, ledger, ps)
    requires ExactAt(before, ledger, account, asset) && NoClashBefore(ps, account, asset)
    ensures ExactAt(before + added, ledger, account, asset)
  {
    hide NoClashBefore, Build;
    BuildShape(ledger, ps, Stored(before, ledger));
    forall k | 0 <= k < |added| && At(ledger, account, asset)(added[k])
      ensures PostVolume(added[k]) == Totals(before + added[..k + 1], ledger, account, asset)
    {
      DistinguishedUpTo(ps, k, account, asset);
      BuiltExactly(before, ledger, ps, added, k, account, asset);
      LatestIsTotal(before, ledger, account, asset);
      TotalsAppend(before, added[..k + 1], ledger, account, asset);
    }
    ExactExtend(before, added, ledger, account, asset);
  }

  lemma ExactOtherLedger(before: seq<Flow>, added: seq<Flow>, ledger: string, account: string, asset: string)
    requires ExactAt(before, ledger, account, asset)
    requires forall k :: 0 <= k < |added| ==> added[k].ledger != ledger
    ensures ExactAt(before + added, ledger, account, asset)
  {
    ExactExtend(before, added, ledger, account, asset);
  }

  predicate PositiveAmounts(ps: seq<Entry>) {
    forall i :: 0 <= i < |ps| ==> ps[i].amount > 0
  }

  /** A move preceded in its request by one of another pair under its key records more than was read and moved, on one
      side at least. */
  lemma BuiltTooMuch(before: seq<Flow>, ledger: string, ps: seq<Entry>, added: seq<Flow>, i: nat, j: nat)
    requires added == NewFlows(before, ledger, ps) && PositiveAmounts(ps) && i <= j < |added|
    ensures var account, asset := added[j].account, added[j].asset;
      var read, own := LatestVolume(before, ledger, account, asset), Totals(added[..j + 1], ledger, account, asset);
      && added[j].ins >= read.ins + own.ins && added[j].outs >= read.outs + own.outs
      && (Key(added[i].account, added[i].asset) == Key(account, asset) && !At(ledger, account, asset)(added[i]) ==>
            PostVolume(added[j]) != Volume(read.ins + own.ins, read.outs + own.outs))
  {
    var account, asset, upTo := added[j].account, added[j].asset, added[..j + 1];
    BuildShape(ledger, ps, Stored(before, ledger));
    BuildTracks(ledger, ps, Stored(before, ledger));
    assert Predicted(added, j, Stored(before, ledger));
    forall k | 0 <= k < |upTo|
      ensures (At(ledger, account, asset)(upTo[k]) ==> KeyIs(Key(account, asset))(upTo[k])) && upTo[k].amount > 0
    {
      assert upTo[k] == added[k];
    }
    assert upTo[i] == added[i];
    SumGrows(upTo, At(ledger, account, asset), KeyIs(Key(account, asset)), i);
  }

  /** The later of two ends that share a key over-counts by the earlier one's amount. */
  lemma ClashCorrupts(before: seq<Flow>, ledger: string, ps: seq<Entry>, added: seq<Flow>, i: nat, j: nat)
    requires added == NewFlows(before, ledger, ps)
    requires PositiveAmounts(ps)
    requires i < j < |added|
    requires ExactAt(before, ledger, added[j].account, added[j].asset)
    requires Key(added[i].account, added[i].asset) == Key(added[j].account, added[j].asset)
    requires added[i].account != added[j].account || added[i].asset != added[j].asset
    ensures !ExactAt(before + added, ledger, added[j].account, added[j].asset)
  {
    hide Build;
    var account, asset, upTo := added[j].account, added[j].asset, added[..j + 1];
    LatestIsTotal(before, ledger, account, asset);
    BuiltTooMuch(before, ledger, ps, added, i, j);
    var all := before + added;
    assert all[|before| + j] == added[j] && all[..|before| + j + 1] == before + upTo;
    TotalsAppend(before, upTo, ledger, account, asset);
    BuildShape(ledger, ps, Stored(before, ledger));
    assert At(ledger, account, asset)(all[|before| + j]);
  }

  lemma ClashWith(ps: seq<Entry>, account: string, asset: string) returns (n: nat)
    requires !NoClashAt(ps, account, asset)
    ensures n < 2 * |ps|
    ensures Key(End(ps, n), ps[n / 2].asset) == Key(account, asset)
    ensures End(ps, n) != account || ps[n / 2].asset != asset
  {
    var y :| 0 <= y < |ps| && !Distinguishes(ps[y], account, asset);
    n := if Key(ps[y].source, ps[y].asset) == Key(account, asset) && !(ps[y].source == account && ps[y].asset == asset)
         then 2 * y else 2 * y + 1;
    assert n / 2 == y;
  }

  /** The two moves behind a violation of NoClash. */
  lemma ClashingMoves(ps: seq<Entry>) returns (i: nat, j: nat)
    requires !NoClash(ps)
    ensures i < j < 2 * |ps|
    ensures Key(End(ps, i), ps[i / 2].asset) == Key(End(ps, j), ps[j / 2].asset)
    ensures End(ps, i) != End(ps, j) || ps[i / 2].asset != ps[j / 2].asset
  {
    var x :| 0 <= x < |ps| &&
      !(NoClashAt(ps, ps[x].source, ps[x].asset) && NoClashAt(ps, ps[x].destination, ps[x].asset));
    var k: nat := if NoClashAt(ps, ps[x].source, ps[x].asset) then 2 * x + 1 else 2 * x;
    assert k / 2 == x;
    var n := ClashWith(ps, End(ps, k), ps[x].asset);
    i, j := if n < k then n else k, if n < k then k else n;
  }

  /** The exact law of the cache: one request keeps every running total right if and only if no two distinct
      (address, asset) pairs of the request share an adjustment key. */
  lemma CacheLaw(before: seq<Flow>, ledger: string, ps: seq<Entry>, added: seq<Flow>)
    requires added == NewFlows(before, ledger, ps)
    requires PositiveAmounts(ps)
    requires CachesExact(before)
    ensures CachesExact(before + added) <==> NoClash(ps)
  {
    BuildShape(ledger, ps, Stored(before, ledger));
    if NoClash(ps) {
      forall l, account, asset ensures ExactAt(before + added, l, account, asset) {
        assert ExactAt(before, l, account, asset);
        if l == ledger {
          NoClashCovers(ps, account, asset);
          ExactAfterPost(before, ledger, ps, added, account, asset);
        } else {
          ExactOtherLedger(before, added, l, account, asset);
        }
      }
    } else {
      var i, j := ClashingMoves(ps);
      assert ExactAt(before, ledger, added[j].account, added[j].asset);
      ClashCorrupts(before, ledger, ps, added, i, j);
    }
  }

  /** The moves behind a pair that is preceded by another one under its key. */
  lemma PrecedingMoves(ps: seq<Entry>, account: string, asset: string) returns (i: nat, j: nat)
    requires !NoClashBefore(ps, account, asset)
    ensures i < j < 2 * |ps| && End(ps, j) == account && ps[j / 2].asset == asset
    ensures Key(End(ps, i), ps[i / 2].asset) == Key(account, asset)
    ensures End(ps, i) != account || ps[i / 2].asset != asset
  {
    var x, y :| 0 <= x < y < |ps| && EndsAt(ps[y], account, asset) && !Distinguishes(ps[x], account, asset);
    j := if ps[y].source == account then 2 * y else 2 * y + 1;
    i := if Key(ps[x].source, ps[x].asset) == Key(account, asset) && !(ps[x].source == account && ps[x].asset == asset)
         then 2 * x else 2 * x + 1;
    assert i / 2 == x && j / 2 == y;
  }

  /** The exact law for one pair: a request keeps the pair's running totals right if and only if none of its postings
      touches the pair after one that touched another pair under the same key. */
  lemma PairCacheLaw(before: seq<Flow>, ledger: string, ps: seq<Entry>, added: seq<Flow>, account: string,
                     asset: string)
    requires added == NewFlows(before, ledger, ps) && PositiveAmounts(ps)
    requires ExactAt(before, ledger, account, asset)
    ensures ExactAt(before + added, ledger, account, asset) <==> NoClashBefore(ps, account, asset)
  {
    if NoClashBefore(ps, account, asset) {
      ExactAfterPost(before, ledger, ps, added, account, asset);
    } else {
      var i, j := PrecedingMoves(ps, account, asset);
      BuildShape(ledger, ps, Stored(before, ledger));
      ClashCorrupts(before, ledger, ps, added, i, j);
    }
  }

  /*** What a read returns ***/

  /** A read of this pair returns its replayed volume. */
  ghost predicate ReadsTotals(moves: seq<Flow>, ledger: string, account: string, asset: string) {
    LatestVolume(moves, ledger, account, asset) == Totals(moves, ledger, account, asset)
  }

  ghost predicate ReadsAtLeast(moves: seq<Flow>, ledger: string, account: string, asset: string) {
    && LatestVolume(moves, ledger, account, asset).ins >= Totals(moves, ledger, account, asset).ins
    && LatestVolume(moves, ledger, account, asset).outs >= Totals(moves, ledger, account, asset).outs
  }

  lemma {:induction false} LastMoveAt(before: seq<Flow>, added: seq<Flow>, ledger: string, account: string,
                                      asset: string)
    returns (k: int)
    ensures -1 <= k < |added| && forall n :: k < n < |added| ==> !At(ledger, account, asset)(added[n])
    ensures k >= 0 ==> At(ledger, account, asset)(added[k])
    ensures LatestVolume(before + added, ledger, account, asset) ==
            if k >= 0 then PostVolume(added[k]) else LatestVolume(before, ledger, account, asset)
  {
    if added == [] {
      k := -1;
      assert before + added == before;
    } else {
      var n := |added| - 1;
      assert (before + added)[..|before + added| - 1] == before + added[..n];
      if At(ledger, account, asset)(added[n]) {
        k := n;
      } else {
        k := LastMoveAt(before, added[..n], ledger, account, asset);
      }
    }
  }

  lemma TotalsUpTo(added: seq<Flow>, k: nat, ledger: string, account: string, asset: string)
    requires k <= |added| && forall n :: k <= n < |added| ==> !At(ledger, account, asset)(added[n])
    ensures Totals(added, ledger, account, asset) == Totals(added[..k], ledger, account, asset)
  {
    var front, rest := added[..k], added[k..];
    assert added == front + rest;
    TotalsAppend(front, rest, ledger, account, asset);
    forall n | 0 <= n < |rest| ensures !At(ledger, account, asset)(rest[n]) {
      assert rest[n] == added[k + n];
    }
    SumNone(rest, At(ledger, account, asset), false);
    SumNone(rest, At(ledger, account, asset), true);
  }

  /** Moves of other pairs change neither the read nor the totals. */
  lemma ReadsStay(before: seq<Flow>, added: seq<Flow>, ledger: string, account: string, asset: string)
    requires forall n :: 0 <= n < |added| ==> !At(ledger, account, asset)(added[n])
    ensures ReadsTotals(before + added, ledger, account, asset) <==> ReadsTotals(before, ledger, account, asset)
    ensures ReadsAtLeast(before + added, ledger, account, asset) <==> ReadsAtLeast(before, ledger, account, asset)
  {
    hide At;
    var _ := LastMoveAt(before, added, ledger, account, asset);
    TotalsUpTo(added, 0, ledger, account, asset);
    TotalsAppend(before, added, ledger, account, asset);
    assert added[..0] == [];
  }

  lemma UntouchedIsClear(ps: seq<Entry>, moves: seq<Flow>, ledger: string, account: string, asset: string)
    requires |moves| == 2 * |ps|
    requires forall k :: 0 <= k < |moves| ==>
      moves[k].ledger == ledger && moves[k].account == End(ps, k) && moves[k].asset == ps[k / 2].asset
    requires forall n :: 0 <= n < |moves| ==> !At(ledger, account, asset)(moves[n])
    ensures NoClashBefore(ps, account, asset)
  {
    forall j | 0 <= j < |ps| ensures !EndsAt(ps[j], account, asset) {
      assert !At(ledger, account, asset)(moves[2 * j]) && !At(ledger, account, asset)(moves[2 * j + 1]);
    }
  }

  /** The exact law of reads for one request: what is read stays at or above the replay, and equals it after the
      request if and only if it did before and the pair is not preceded by another one under its key. */
  lemma PairReadLaw(before: seq<Flow>, ledger: string, ps: seq<Entry>, added: seq<Flow>, account: string, asset: string)
    requires added == NewFlows(before, ledger, ps) && PositiveAmounts(ps)
    requires ReadsAtLeast(before, ledger, account, asset)
    ensures ReadsAtLeast(before + added, ledger, account, asset)
    ensures ReadsTotals(before + added, ledger, account, asset) <==>
            ReadsTotals(before, ledger, account, asset) && NoClashBefore(ps, account, asset)
  {
    hide Build, NoClashBefore;
    BuildShape(ledger, ps, Stored(before, ledger));
    var k := LastMoveAt(before, added, ledger, account, asset);
    if k < 0 {
      ReadsStay(before, added, ledger, account, asset);
      UntouchedIsClear(ps, added, ledger, account, asset);
    } else {
      TotalsUpTo(added, k + 1, ledger, account, asset);
      TotalsAppend(before, added, ledger, account, asset);
      BuiltTooMuch(before, ledger, ps, added, k, k);
      if NoClashBefore(ps, account, asset) {
        DistinguishedUpTo(ps, k, account, asset);
        BuiltExactly(before, ledger, ps, added, k, account, asset);
      } else {
        var i, j := PrecedingMoves(ps, account, asset);
        assert At(ledger, account, asset)(added[j]) && j <= k;
        BuiltTooMuch(before, ledger, ps, added, i, k);
      }
    }
  }

  /** Requests that satisfy the law: every asset free of colons, or one asset throughout. */
  lemma ColonFreeAssetsDoNotClash(ps: seq<Entry>)
    requires forall i :: 0 <= i < |ps| ==> Text.ColonFree(ps[i].asset)
    ensures NoClash(ps)
  {
    forall i, a: string, s: string | 0 <= i < |ps| && Text.ColonFree(s)
      ensures Key(ps[i].source, ps[i].asset) == Key(a, s) ==> ps[i].source == a && ps[i].asset == s
      ensures Key(ps[i].destination, ps[i].asset) == Key(a, s) ==> ps[i].destination == a && ps[i].asset == s
    {
      if Key(ps[i].source, ps[i].asset) == Key(a, s) {
        Text.CutLast(ps[i].source, ps[i].asset, a, s);
      }
      if Key(ps[i].destination, ps[i].asset) == Key(a, s) {
        Text.CutLast(ps[i].destination, ps[i].asset, a, s);
      }
    }
  }

  lemma OneAssetDoesNotClash(ps: seq<Entry>, asset: string)
    requires forall i :: 0 <= i < |ps| ==> ps[i].asset == asset
    ensures NoClash(ps)
  {
    forall i, a: string | 0 <= i < |ps|
      ensures Key(ps[i].source, asset) == Key(a, asset) ==> ps[i].source == a
      ensures Key(ps[i].destination, asset) == Key(a, asset) ==> ps[i].destination == a
    {
      SameTail(ps[i].source, a, asset);
      SameTail(ps[i].destination, a, asset);
    }
  }
}
