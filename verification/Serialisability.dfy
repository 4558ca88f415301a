/** When interleaved posts equal a sequential run in commit order, and what goes wrong when they overlap. */
module Serialisability {
  import opened Outcomes
  import opened LedgerTypes
  import opened Volumes
  import opened Effects
  import opened Ledger
  import opened LedgerSteps
  import LedgerLaws
  import LedgerEffects
  import LedgerRuns
  import opened Interleaving

  function Footprint(c: Client): seq<Entry>
    requires c.Building?
  {
    Entries(c.request.postings)
  }

  /** No account and asset of one ledger is touched by both calls. */
  ghost predicate Apart(c: Client, d: Client) {
    c.Building? && d.Building? && c.ledger == d.ledger ==>
      forall account, asset :: !(Touches(Footprint(c), account, asset) && Touches(Footprint(d), account, asset))
  }

  /** Of the posts under way, no two touch the same account and asset. */
  ghost predicate Exclusive(sys: System) {
    forall c, d :: c in sys.clients && d in sys.clients && c != d ==> Apart(sys.clients[c], sys.clients[d])
  }

  ghost predicate AlwaysExclusive(unique: bool, actions: seq<Action>) {
    forall n: nat :: n <= |actions| ==> Exclusive(Steps(unique, actions[..n]))
  }

  /** The moves of the first k ends, all built from the same volumes. */
  function BuildEnds(ledger: string, es: seq<Entry>, k: nat, stored: (string, string) -> Volume): (b: Built)
    requires k <= 2 * |es|
    ensures |b.moves| == k
  {
    if k == 0 then Built([], map[])
    else AddEnd(BuildEnds(ledger, es, k - 1, stored), ledger, es, stored)
  }

  lemma {:induction false} BuildEndsPrefix(ledger: string, es: seq<Entry>, k: nat, stored: (string, string) -> Volume)
    requires es != [] && k <= 2 * |es| - 2
    ensures BuildEnds(ledger, es[..|es| - 1], k, stored) == BuildEnds(ledger, es, k, stored)
  {
    if k > 0 {
      BuildEndsPrefix(ledger, es, k - 1, stored);
    }
  }

  lemma TwoMoreEnds(ledger: string, es: seq<Entry>, i: nat, stored: (string, string) -> Volume)
    requires i < |es|
    ensures BuildEnds(ledger, es, 2 * i + 2, stored) ==
            AddPosting(BuildEnds(ledger, es, 2 * i, stored), ledger, es[i], stored)
  {
    var b, debited := BuildEnds(ledger, es, 2 * i, stored), BuildEnds(ledger, es, 2 * i + 1, stored);
    assert debited == AddMove(b, ledger, es[i].source, es[i].asset, true, es[i].amount, stored);
  }

  /** End by end or posting by posting, the same moves are built. */
  lemma {:induction false} BuildEndsIsBuild(ledger: string, es: seq<Entry>, stored: (string, string) -> Volume)
    ensures BuildEnds(ledger, es, 2 * |es|, stored) == Build(ledger, es, stored)
  {
    hide AddMove, AddEnd;
    if es != [] {
      var n := |es| - 1;
      var front := es[..n];
      BuildEndsIsBuild(ledger, front, stored);
      BuildEndsPrefix(ledger, es, 2 * n, stored);
      TwoMoreEnds(ledger, es, n, stored);
    }
  }

  lemma AddEndDepends(b: Built, ledger: string, es: seq<Entry>, f: (string, string) -> Volume,
                      g: (string, string) -> Volume)
    requires |b.moves| < 2 * |es| && AgreeAt(es[|b.moves| / 2], f, g)
    ensures AddEnd(b, ledger, es, f) == AddEnd(b, ledger, es, g)
  {
  }

  lemma {:induction false} BuildEndsDepends(ledger: string, es: seq<Entry>, k: nat,
                                            f: (string, string) -> Volume, g: (string, string) -> Volume)
    requires k <= 2 * |es|
    requires forall i :: 0 <= i < |es| ==> AgreeAt(es[i], f, g)
    ensures BuildEnds(ledger, es, k, f) == BuildEnds(ledger, es, k, g)
  {
    hide AddEnd;
    if k > 0 {
      BuildEndsDepends(ledger, es, k - 1, f, g);
      assert AgreeAt(es[(k - 1) / 2], f, g);
      AddEndDepends(BuildEnds(ledger, es, k - 1, f), ledger, es, f, g);
    }
  }

  /** Everything a call has built so far is what the current volumes would give. */
  ghost predicate Current(c: Client, flows: seq<Flow>) {
    c.Building? ==>
      && |c.built.moves| <= 2 * |Footprint(c)|
      && c.request.postings != [] && FirstError(c.request.postings) == None
      && c.built == BuildEnds(c.ledger, Footprint(c), |c.built.moves|, Stored(flows, c.ledger))
  }

  ghost predicate AllCurrent(sys: System) {
    forall client :: client in sys.clients ==> Current(sys.clients[client], Flows(sys.books.moves))
  }

  /** The moves of a sequential run of these posts. */
  function Sequential(ops: seq<Op>): seq<Flow>
    requires OnlyPosts(ops)
  {
    if ops == [] then []
    else
      var front, last := Sequential(ops[..|ops| - 1]), ops[|ops| - 1];
      front + NewFlows(front, last.ledger, Entries(last.request.postings))
  }

  ghost predicate ValidPosts(ops: seq<Op>)
    requires OnlyPosts(ops)
  {
    forall i :: 0 <= i < |ops| ==> ops[i].request.postings != [] && FirstError(ops[i].request.postings) == None
  }

  ghost predicate InCommitOrder(sys: System) {
    && OnlyPosts(sys.commits)
    && ValidPosts(sys.commits)
    && Flows(sys.books.moves) == Sequential(sys.commits)
  }

  lemma ReadStaysCurrent(c: Client, books: State)
    requires Current(c, Flows(books.moves)) && c.Building? && |c.built.moves| < 2 * |c.request.postings|
    ensures Current(ReadEnd(c, books), Flows(books.moves))
  {
  }

  lemma VolumesApart(flows: seq<Flow>, added: seq<Flow>, l: string, es: seq<Entry>, ledger: string, account: string,
                     asset: string)
    requires added == NewFlows(flows, l, es)
    requires l == ledger ==> !Touches(es, account, asset)
    ensures LatestVolume(flows + added, ledger, account, asset) == LatestVolume(flows, ledger, account, asset)
  {
    BuildShape(l, es, Stored(flows, l));
    forall k | 0 <= k < |added| ensures !At(ledger, account, asset)(added[k]) {
      assert es[k / 2].source == End(es, k) || es[k / 2].destination == End(es, k);
    }
    LedgerRuns.LatestOfOthers(flows, added, ledger, account, asset);
  }

  /** Another call's insert leaves a call that shares no account and asset with it current. */
  lemma ApartStaysCurrent(flows: seq<Flow>, c: Client, d: Client)
    requires c.Building? && Apart(c, d) && Current(d, flows)
    ensures Current(d, flows + NewFlows(flows, c.ledger, Footprint(c)))
  {
    if d.Building? {
      var added, es := NewFlows(flows, c.ledger, Footprint(c)), Footprint(d);
      var f, g := Stored(flows, d.ledger), Stored(flows + added, d.ledger);
      forall i | 0 <= i < |es| ensures AgreeAt(es[i], f, g) {
        assert Touches(es, es[i].source, es[i].asset) && Touches(es, es[i].destination, es[i].asset);
        VolumesApart(flows, added, c.ledger, Footprint(c), d.ledger, es[i].source, es[i].asset);
        VolumesApart(flows, added, c.ledger, Footprint(c), d.ledger, es[i].destination, es[i].asset);
      }
      BuildEndsDepends(d.ledger, es, |d.built.moves|, f, g);
    }
  }

  /** A current call that has read every end inserts what a sequential post would. */
  lemma CurrentInserts(st: State, c: Client)
    requires c.Building? && Current(c, Flows(st.moves)) && |c.built.moves| == 2 * |c.request.postings|
    ensures Flows(InsertBuilt(st, c).moves) == Flows(st.moves) + NewFlows(Flows(st.moves), c.ledger, Footprint(c))
  {
    BuildEndsIsBuild(c.ledger, Footprint(c), Stored(Flows(st.moves), c.ledger));
    InsertAppends(st, c.ledger, c.request.reference, c.request.postings, c.built.moves);
  }

  lemma InsertInOrder(unique: bool, sys: System, client: nat)
    requires AllCurrent(sys) && InCommitOrder(sys) && Exclusive(sys) && CanInsert(sys, client)
    ensures var sys' := AfterInsert(unique, sys, client, sys.clients[client]); AllCurrent(sys') && InCommitOrder(sys')
  {
    var c, sys' := sys.clients[client], AfterInsert(unique, sys, client, sys.clients[client]);
    if sys'.commits != sys.commits {
      CurrentInserts(sys.books, c);
      forall other | other in sys'.clients ensures Current(sys'.clients[other], Flows(sys'.books.moves)) {
        if other != client {
          assert Apart(sys.clients[client], sys.clients[other]);
          ApartStaysCurrent(Flows(sys.books.moves), c, sys.clients[other]);
        }
      }
      assert sys'.commits[..|sys.commits|] == sys.commits;
    }
  }

  lemma StepInOrder(unique: bool, sys: System, a: Action)
    requires AllCurrent(sys) && InCommitOrder(sys) && Exclusive(sys)
    ensures AllCurrent(Step(unique, sys, a)) && InCommitOrder(Step(unique, sys, a))
  {
    hide Entries;
    match a {
      case Begin(client, ledger, req) =>
      case Ensure(client, address) =>
      case Read(client) =>
        if CanRead(sys, client) {
          ReadStaysCurrent(sys.clients[client], sys.books);
        }
      case Insert(client) =>
        if CanInsert(sys, client) {
          InsertInOrder(unique, sys, client);
        }
      case Log(client) =>
      case Stop(client) =>
    }
  }

  lemma {:induction false} CommitOrder(unique: bool, actions: seq<Action>)
    requires AlwaysExclusive(unique, actions)
    ensures AllCurrent(Steps(unique, actions)) && InCommitOrder(Steps(unique, actions))
  {
    if actions == [] {
      assert Flows(EMPTY.moves) == [];
    } else {
      var n := |actions| - 1;
      forall m: nat | m <= n ensures Exclusive(Steps(unique, actions[..n][..m])) {
        assert actions[..n][..m] == actions[..m];
      }
      CommitOrder(unique, actions[..n]);
      assert Exclusive(Steps(unique, actions[..n]));
      StepInOrder(unique, Steps(unique, actions[..n]), actions[n]);
    }
  }

  /*** The sequential run ***/

  ghost predicate DistinctReferences(ops: seq<Op>)
    requires OnlyPosts(ops)
  {
    forall i, j :: 0 <= i < j < |ops| && ops[i].ledger == ops[j].ledger && ops[j].request.reference != "" ==>
      ops[i].request.reference != ops[j].request.reference
  }

  predicate Carries(ops: seq<Op>, ledger: string, reference: string)
    requires OnlyPosts(ops)
  {
    exists i :: 0 <= i < |ops| && ops[i].ledger == ledger && ops[i].request.reference == reference
  }

  lemma CarriesAppend(ops: seq<Op>, op: Op, ledger: string, reference: string)
    requires OnlyPosts(ops) && op.PostOp?
    ensures Carries(ops + [op], ledger, reference) <==>
      Carries(ops, ledger, reference) || (op.ledger == ledger && op.request.reference == reference)
  {
    var more := ops + [op];
    if Carries(ops, ledger, reference) {
      var i :| 0 <= i < |ops| && ops[i].ledger == ledger && ops[i].request.reference == reference;
      assert more[i] == ops[i];
    }
    assert more[|ops|] == op;
  }

  /** The post brings no reference that an earlier one carried. */
  predicate Brings(ops: seq<Op>, op: Op)
    requires OnlyPosts(ops) && op.PostOp?
  {
    op.request.reference == "" || !Carries(ops, op.ledger, op.request.reference)
  }

  lemma DistinctAppend(ops: seq<Op>, op: Op)
    requires OnlyPosts(ops) && op.PostOp?
    ensures DistinctReferences(ops + [op]) <==> DistinctReferences(ops) && Brings(ops, op)
  {
    var more := ops + [op];
    assert more[|ops|] == op && forall i :: 0 <= i < |ops| ==> more[i] == ops[i];
  }

  /** After an acceptable post its reference is stored, and no other reference has become so. */
  lemma PostStores(st: State, l: string, req: Request, ledger: string, reference: string)
    requires req.postings != [] && FirstError(req.postings) == None && reference != ""
    ensures LedgerEffects.Has(Post(st, l, req).0, ledger, reference) <==>
      LedgerEffects.Has(st, ledger, reference) || (l == ledger && req.reference == reference)
  {
    LedgerEffects.PostTakes(st, l, req);
    if !Repeats(st, l, req) {
      assert LedgerEffects.Referenced(st, Post(st, l, req).0, l, req.reference, ledger, reference);
    }
  }

  /** Over a sequential run of acceptable posts, the references stored are those the posts carried. */
  lemma {:induction false} StoredIffCarried(ops: seq<Op>, ledger: string, reference: string)
    requires OnlyPosts(ops) && ValidPosts(ops) && reference != ""
    ensures LedgerEffects.Has(Run(ops), ledger, reference) <==> Carries(ops, ledger, reference)
  {
    hide FirstError, Post;
    if ops == [] {
      assert Txs(EMPTY, ledger) == [];
    } else {
      var n := |ops| - 1;
      var st, last := Run(ops[..n]), ops[n];
      StoredIffCarried(ops[..n], ledger, reference);
      CarriesAppend(ops[..n], last, ledger, reference);
      assert ops[..n] + [last] == ops;
      PostStores(st, last.ledger, last.request, ledger, reference);
    }
  }

  /** One more post run sequentially: it appends its moves if it brings its reference, and nothing if it repeats one. */
  lemma RunOnePost(ops: seq<Op>, op: Op)
    requires OnlyPosts(ops + [op]) && ValidPosts(ops + [op])
    ensures OnlyPosts(ops) && ValidPosts(ops) && op.PostOp? && op.request.postings != []
    ensures Flows(Run(ops + [op]).moves) == if !Brings(ops, op) then Flows(Run(ops).moves)
            else Flows(Run(ops).moves) + NewFlows(Flows(Run(ops).moves), op.ledger, Entries(op.request.postings))
  {
    hide FirstError;
    var more, st := ops + [op], Run(ops);
    assert more[|ops|] == op && more[..|ops|] == ops;
    forall i | 0 <= i < |ops| ensures more[i] == ops[i] {}
    if op.request.reference != "" {
      StoredIffCarried(ops, op.ledger, op.request.reference);
    }
    if Brings(ops, op) {
      CommitPosts(st, op.ledger, op.request);
    }
  }

  lemma EmptyRun()
    ensures Flows(Run([]).moves) == []
  {
  }

  lemma FlowCount(st: State)
    ensures |Flows(st.moves)| == |st.moves|
  {
  }

  lemma NewMoves(flows: seq<Flow>, ledger: string, es: seq<Entry>)
    ensures |NewFlows(flows, ledger, es)| == 2 * |es|
  {
    BuildShape(ledger, es, Stored(flows, ledger));
  }

  /** Run sequentially through PostTransaction, acceptable posts leave the sequential moves if their references are
      distinct; otherwise they leave fewer. */
  lemma {:induction false} SequentialIsRun(ops: seq<Op>)
    requires OnlyPosts(ops) && ValidPosts(ops)
    ensures DistinctReferences(ops) ==> Flows(Run(ops).moves) == Sequential(ops)
    ensures !DistinctReferences(ops) ==> |Run(ops).moves| < |Sequential(ops)|
  {
    hide FirstError, Run, Flows;
    if ops == [] {
      EmptyRun();
    } else {
      var n := |ops| - 1;
      var front, last := ops[..n], ops[n];
      assert front + [last] == ops;
      RunOnePost(front, last);
      SequentialIsRun(front);
      DistinctAppend(front, last);
      NewMoves(Flows(Run(front).moves), last.ledger, Entries(last.request.postings));
      NewMoves(Sequential(front), last.ledger, Entries(last.request.postings));
      FlowCount(Run(front));
      FlowCount(Run(ops));
    }
  }

  /** Serialisability: if no two overlapping posts ever share an account and asset, the stored moves and their cached
      volumes are those of running the same posts one after another in commit order. They are those of the service
      run one post at a time if and only if no two of the committed posts carry the same reference. */
  lemma Serialisable(unique: bool, actions: seq<Action>)
    requires AlwaysExclusive(unique, actions)
    ensures var sys := Steps(unique, actions);
      && OnlyPosts(sys.commits)
      && Flows(sys.books.moves) == Sequential(sys.commits)
      && (Flows(sys.books.moves) == Flows(Run(sys.commits).moves) <==> DistinctReferences(sys.commits))
  {
    CommitOrder(unique, actions);
    SequentialIsRun(Steps(unique, actions).commits);
    FlowCount(Run(Steps(unique, actions).commits));
  }

  /*** When the committed references are distinct ***/

  ghost predicate StoresCarriedAt(sys: System, ledger: string, reference: string)
    requires OnlyPosts(sys.commits)
  {
    reference != "" ==> (LedgerEffects.Has(sys.books, ledger, reference) <==> Carries(sys.commits, ledger, reference))
  }

  /** The references stored are those the committed posts carried. */
  ghost predicate StoresCarried(sys: System)
    requires OnlyPosts(sys.commits)
  {
    forall ledger, reference :: StoresCarriedAt(sys, ledger, reference)
  }

  ghost predicate OncePerReference(sys: System) {
    OnlyPosts(sys.commits) && StoresCarried(sys) && DistinctReferences(sys.commits)
  }

  predicate Unreferenced(st: State, c: Client) {
    c.Building? && c.request.reference != "" ==> !LedgerEffects.Has(st, c.ledger, c.request.reference)
  }

  /** What the look-up of every call under way found missing is still missing. */
  ghost predicate LookedUp(sys: System) {
    forall client :: client in sys.clients ==> Unreferenced(sys.books, sys.clients[client])
  }

  predicate ApartReferences(c: Client, d: Client) {
    c.Building? && d.Building? && c.ledger == d.ledger && c.request.reference != "" ==>
      c.request.reference != d.request.reference
  }

  /** Of the posts under way, no two carry the same reference in one ledger. */
  ghost predicate ExclusiveReferences(sys: System) {
    forall c, d :: c in sys.clients && d in sys.clients && c != d ==> ApartReferences(sys.clients[c], sys.clients[d])
  }

  ghost predicate AlwaysExclusiveReferences(unique: bool, actions: seq<Action>) {
    forall n: nat :: n <= |actions| ==> ExclusiveReferences(Steps(unique, actions[..n]))
  }

  lemma InsertStores(st: State, c: Client, ledger: string, reference: string)
    requires c.Building?
    ensures LedgerEffects.Has(InsertBuilt(st, c), ledger, reference) <==>
      LedgerEffects.Has(st, ledger, reference) || (c.ledger == ledger && c.request.reference == reference)
  {
    InsertAppends(st, c.ledger, c.request.reference, c.request.postings, c.built.moves);
    if c.ledger == ledger {
      LedgerEffects.HasAppend(Txs(st, ledger), NumberTransaction(st, ledger, c.request.reference, c.request.postings),
                              reference);
    }
  }

  lemma SameListsOnce(sys: System, sys': System)
    requires OncePerReference(sys) && sys'.commits == sys.commits
    requires forall l :: Txs(sys'.books, l) == Txs(sys.books, l)
    ensures OncePerReference(sys')
  {
    forall ledger, reference ensures StoresCarriedAt(sys', ledger, reference) {
      assert StoresCarriedAt(sys, ledger, reference);
      assert Txs(sys'.books, ledger) == Txs(sys.books, ledger);
    }
  }

  /** An insert keeps committed references distinct if the store checks them, or if what the call looked up still
      holds. */
  lemma InsertOnce(unique: bool, sys: System, client: nat)
    requires OncePerReference(sys) && CanInsert(sys, client)
    requires unique || Unreferenced(sys.books, sys.clients[client])
    ensures OncePerReference(AfterInsert(unique, sys, client, sys.clients[client]))
  {
    hide InsertBuilt;
    var c, sys' := sys.clients[client], AfterInsert(unique, sys, client, sys.clients[client]);
    if sys'.commits != sys.commits {
      var op := PostOp(c.ledger, c.request);
      forall ledger, reference ensures StoresCarriedAt(sys', ledger, reference) {
        assert StoresCarriedAt(sys, ledger, reference);
        InsertStores(sys.books, c, ledger, reference);
        CarriesAppend(sys.commits, op, ledger, reference);
      }
      assert StoresCarriedAt(sys, c.ledger, c.request.reference);
      DistinctAppend(sys.commits, op);
    } else {
      SameListsOnce(sys, sys');
    }
  }

  lemma StepOnce(unique: bool, sys: System, a: Action)
    requires OncePerReference(sys) && (unique || LookedUp(sys))
    ensures OncePerReference(Step(unique, sys, a))
  {
    hide OncePerReference, AfterInsert;
    match a {
      case Ensure(client, address) =>
        if client in sys.clients {
          PutAccountKeepsBooks(sys.books, sys.clients[client].ledger, address, "unknown");
        }
        SameListsOnce(sys, Step(unique, sys, a));
      case Insert(client) =>
        if CanInsert(sys, client) {
          InsertOnce(unique, sys, client);
        }
      case _ => SameListsOnce(sys, Step(unique, sys, a));
    }
  }

  lemma InsertKeepsLookUps(unique: bool, sys: System, client: nat)
    requires LookedUp(sys) && ExclusiveReferences(sys) && CanInsert(sys, client)
    ensures LookedUp(AfterInsert(unique, sys, client, sys.clients[client]))
  {
    hide InsertBuilt;
    var c, sys' := sys.clients[client], AfterInsert(unique, sys, client, sys.clients[client]);
    forall other | other in sys'.clients ensures Unreferenced(sys'.books, sys'.clients[other]) {
      if other != client {
        var d := sys.clients[other];
        assert Unreferenced(sys.books, d) && ApartReferences(c, d);
        if d.Building? {
          InsertStores(sys.books, c, d.ledger, d.request.reference);
        }
      }
    }
  }

  lemma SameListsLookedUp(sys: System, sys': System)
    requires LookedUp(sys) && forall l :: Txs(sys'.books, l) == Txs(sys.books, l)
    requires forall client :: client in sys'.clients && sys'.clients[client].Building? ==>
      Unreferenced(sys.books, sys'.clients[client])
    ensures LookedUp(sys')
  {
    forall client | client in sys'.clients ensures Unreferenced(sys'.books, sys'.clients[client]) {
      if sys'.clients[client].Building? {
        assert Txs(sys'.books, sys'.clients[client].ledger) == Txs(sys.books, sys'.clients[client].ledger);
      }
    }
  }

  lemma StepLookedUp(unique: bool, sys: System, a: Action)
    requires LookedUp(sys) && ExclusiveReferences(sys)
    ensures LookedUp(Step(unique, sys, a))
  {
    hide AfterInsert;
    match a {
      case Ensure(client, address) =>
        if client in sys.clients {
          PutAccountKeepsBooks(sys.books, sys.clients[client].ledger, address, "unknown");
        }
        SameListsLookedUp(sys, Step(unique, sys, a));
      case Insert(client) =>
        if CanInsert(sys, client) {
          InsertKeepsLookUps(unique, sys, client);
        }
      case _ => SameListsLookedUp(sys, Step(unique, sys, a));
    }
  }

  lemma StartOnce()
    ensures OncePerReference(System(EMPTY, map[], [])) && LookedUp(System(EMPTY, map[], []))
  {
    forall l ensures Txs(EMPTY, l) == [] {}
  }

  /** Over a store with the unique index, no two committed posts carry the same reference, however calls interleave. */
  lemma {:induction false} IndexKeepsDistinct(actions: seq<Action>)
    ensures OncePerReference(Steps(true, actions))
  {
    hide OncePerReference, Step;
    if actions == [] {
      StartOnce();
    } else {
      var n := |actions| - 1;
      IndexKeepsDistinct(actions[..n]);
      StepOnce(true, Steps(true, actions[..n]), actions[n]);
    }
  }

  /** Over either store the same holds if no two calls under way ever carry the same reference: the look-up is then
      enough. */
  lemma {:induction false} LookUpKeepsDistinct(unique: bool, actions: seq<Action>)
    requires AlwaysExclusiveReferences(unique, actions)
    ensures OncePerReference(Steps(unique, actions)) && LookedUp(Steps(unique, actions))
  {
    hide OncePerReference, LookedUp, ExclusiveReferences, Step;
    if actions == [] {
      StartOnce();
    } else {
      var n := |actions| - 1;
      forall m: nat | m <= n ensures ExclusiveReferences(Steps(unique, actions[..n][..m])) {
        assert actions[..n][..m] == actions[..m];
      }
      LookUpKeepsDistinct(unique, actions[..n]);
      assert ExclusiveReferences(Steps(unique, actions[..n]));
      StepOnce(unique, Steps(unique, actions[..n]), actions[n]);
      StepLookedUp(unique, Steps(unique, actions[..n]), actions[n]);
    }
  }

  /** With the unique index, posts that never share an account and asset while under way leave the moves of the service
      run one post at a time. */
  lemma SerialisableWithIndex(actions: seq<Action>)
    requires AlwaysExclusive(true, actions)
    ensures Flows(Steps(true, actions).books.moves) == Flows(Run(Steps(true, actions).commits).moves)
  {
    IndexKeepsDistinct(actions);
    Serialisable(true, actions);
  }

  /** Without it they do so too, if no two of them share a reference while under way. */
  lemma SerialisableByLookUp(unique: bool, actions: seq<Action>)
    requires AlwaysExclusive(unique, actions) && AlwaysExclusiveReferences(unique, actions)
    ensures Flows(Steps(unique, actions).books.moves) == Flows(Run(Steps(unique, actions).commits).moves)
  {
    LookUpKeepsDistinct(unique, actions);
    Serialisable(unique, actions);
  }

  /*** Overlapping posts lose updates ***/

  /** A request of positive amounts shows up in the totals of every pair it touches. */
  lemma TouchedTotals(flows: seq<Flow>, ledger: string, es: seq<Entry>, account: string, asset: string) returns (k: nat)
    requires PositiveAmounts(es) && Touches(es, account, asset)
    ensures k < |NewFlows(flows, ledger, es)| && At(ledger, account, asset)(NewFlows(flows, ledger, es)[k])
    ensures Totals(NewFlows(flows, ledger, es), ledger, account, asset) != Volume(0, 0)
  {
    var added := NewFlows(flows, ledger, es);
    BuildShape(ledger, es, Stored(flows, ledger));
    var i :| 0 <= i < |es| && es[i].asset == asset && (es[i].source == account || es[i].destination == account);
    k := if es[i].source == account then 2 * i else 2 * i + 1;
    assert k / 2 == i && added[k].account == End(es, k);
    SumGrows(added, (m: Flow) => false, At(ledger, account, asset), k);
    SumNone(added, (m: Flow) => false, added[k].isSource);
  }

  lemma SecondReadsOld(flows: seq<Flow>, ledger: string, es: seq<Entry>, added: seq<Flow>, k: nat, account: string,
                       asset: string)
    requires CachesExact(flows) && NoClash(es) && Touches(es, account, asset) && added == NewFlows(flows, ledger, es)
    requires k < |added| && At(ledger, account, asset)(added[k])
    ensures PostVolume(added[k]).ins == Totals(flows, ledger, account, asset).ins +
      Totals(added[..k + 1], ledger, account, asset).ins
    ensures PostVolume(added[k]).outs == Totals(flows, ledger, account, asset).outs +
      Totals(added[..k + 1], ledger, account, asset).outs
  {
    BuildShape(ledger, es, Stored(flows, ledger));
    BuildTracks(ledger, es, Stored(flows, ledger));
    assert Predicted(added, k, Stored(flows, ledger));
    assert ExactAt(flows, ledger, account, asset);
    LatestIsTotal(flows, ledger, account, asset);
    NoClashCovers(es, account, asset);
    DistinguishedUpTo(es, k, account, asset);
    KeySumsAreTotals(ledger, es, added[..k + 1], account, asset);
  }

  /** Two posts that read the same volumes and share an account and asset leave a wrong total there, always. */
  lemma OverlapCorrupts(flows: seq<Flow>, ledger: string, es: seq<Entry>, es': seq<Entry>, account: string,
                        asset: string)
    requires CachesExact(flows) && PositiveAmounts(es) && PositiveAmounts(es') && NoClash(es')
    requires Touches(es, account, asset) && Touches(es', account, asset)
    ensures !ExactAt(flows + NewFlows(flows, ledger, es) + NewFlows(flows, ledger, es'), ledger, account, asset)
  {
    var first, second := NewFlows(flows, ledger, es), NewFlows(flows, ledger, es');
    var _ := TouchedTotals(flows, ledger, es, account, asset);
    var k := TouchedTotals(flows, ledger, es', account, asset);
    var upTo, all := second[..k + 1], flows + first + second;
    SecondReadsOld(flows, ledger, es', second, k, account, asset);
    assert all[|flows| + |first| + k] == second[k] && all[..|flows| + |first| + k + 1] == flows + first + upTo;
    TotalsAppend(flows, first, ledger, account, asset);
    TotalsAppend(flows + first, upTo, ledger, account, asset);
    assert At(ledger, account, asset)(all[|flows| + |first| + k]);
  }

  function Repeat(a: Action, n: nat): seq<Action> {
    seq(n, _ => a)
  }

  /** The client with its first n ends read from the volumes stored now. */
  function HavingRead(sys: System, client: nat, c: Client, n: nat): System
    requires c.Building? && n <= 2 * |c.request.postings|
  {
    sys.(clients := sys.clients[client :=
      c.(built := BuildEnds(c.ledger, Footprint(c), n, Stored(Flows(sys.books.moves), c.ledger)))])
  }

  lemma ReadNone(sys: System, client: nat, c: Client)
    requires c.Building? && c.built == Built([], map[]) && client in sys.clients && sys.clients[client] == c
    ensures HavingRead(sys, client, c, 0) == sys
  {
    assert sys.clients[client := c] == sys.clients;
  }

  lemma ReadOnce(unique: bool, sys: System, client: nat, c: Client, n: nat)
    requires c.Building? && n < 2 * |c.request.postings|
    ensures Step(unique, HavingRead(sys, client, c, n), Read(client)) == HavingRead(sys, client, c, n + 1)
  {
  }

  function Iterate(unique: bool, sys: System, a: Action, n: nat): System {
    if n == 0 then sys else Step(unique, Iterate(unique, sys, a, n - 1), a)
  }

  lemma {:induction false} IterateAlong(unique: bool, trace: nat -> System, a: Action, n: nat)
    requires forall k: nat :: k < n ==> Step(unique, trace(k), a) == trace(k + 1)
    ensures Iterate(unique, trace(0), a, n) == trace(n)
  {
    if n > 0 {
      IterateAlong(unique, trace, a, n - 1);
      assert Step(unique, trace(n - 1), a) == trace(n - 1 + 1);
    }
  }

  /** A client that is alone in stepping reads all its ends from the same volumes. */
  lemma ReadAll(unique: bool, sys: System, client: nat, c: Client, n: nat)
    requires c.Building? && c.built == Built([], map[]) && n <= 2 * |c.request.postings|
    requires client in sys.clients && sys.clients[client] == c
    ensures Iterate(unique, sys, Read(client), n) == HavingRead(sys, client, c, n)
  {
    var trace := (k: nat) => if k <= n then HavingRead(sys, client, c, k) else sys;
    forall k: nat | k < n ensures Step(unique, trace(k), Read(client)) == trace(k + 1) {
      ReadOnce(unique, sys, client, c, k);
    }
    ReadNone(sys, client, c);
    IterateAlong(unique, trace, Read(client), n);
  }

  lemma OneStep(unique: bool, actions: seq<Action>, a: Action)
    ensures Steps(unique, actions + [a]) == Step(unique, Steps(unique, actions), a)
  {
    assert (actions + [a])[..|actions|] == actions;
  }

  lemma {:induction false} StepsRepeat(unique: bool, actions: seq<Action>, a: Action, n: nat)
    ensures Steps(unique, actions + Repeat(a, n)) == Iterate(unique, Steps(unique, actions), a, n)
  {
    if n == 0 {
      assert actions + Repeat(a, n) == actions;
    } else {
      var front := actions + Repeat(a, n - 1);
      StepsRepeat(unique, actions, a, n - 1);
      assert actions + Repeat(a, n) == front + [a];
      OneStep(unique, front, a);
    }
  }

  ghost predicate Fresh(req: Request) {
    req.postings != [] && FirstError(req.postings) == None && NoClash(Entries(req.postings))
  }

  /** Two calls that each have read everything before either inserts. */
  lemma BothRead(unique: bool, ledger: string, r: Request, r': Request)
    returns (actions: seq<Action>, c: Client, c': Client)
    requires Fresh(r) && Fresh(r')
    ensures Steps(unique, actions) == System(EMPTY, map[0 := c, 1 := c'], [])
    ensures c == Building(ledger, r, BuildEnds(ledger, Entries(r.postings), 2 * |r.postings|, Stored([], ledger)))
    ensures c' == Building(ledger, r', BuildEnds(ledger, Entries(r'.postings), 2 * |r'.postings|, Stored([], ledger)))
  {
    hide BuildEnds, Entries, Stored;
    assert Flows(EMPTY.moves) == [] && Txs(EMPTY, ledger) == [];
    var idle, idle' := Building(ledger, r, Built([], map[])), Building(ledger, r', Built([], map[]));
    assert Steps(unique, []) == System(EMPTY, map[], []);
    OneStep(unique, [], Begin(0, ledger, r));
    assert [] + [Begin(0, ledger, r)] == [Begin(0, ledger, r)];
    OneStep(unique, [Begin(0, ledger, r)], Begin(1, ledger, r'));
    actions := [Begin(0, ledger, r)] + [Begin(1, ledger, r')];
    assert Steps(unique, actions).clients == map[0 := idle, 1 := idle'];
    ReadAll(unique, Steps(unique, actions), 0, idle, 2 * |r.postings|);
    StepsRepeat(unique, actions, Read(0), 2 * |r.postings|);
    actions := actions + Repeat(Read(0), 2 * |r.postings|);
    ReadAll(unique, Steps(unique, actions), 1, idle', 2 * |r'.postings|);
    StepsRepeat(unique, actions, Read(1), 2 * |r'.postings|);
    actions := actions + Repeat(Read(1), 2 * |r'.postings|);
    c, c' := Steps(unique, actions).clients[0], Steps(unique, actions).clients[1];
    assert Steps(unique, actions).clients == map[0 := c, 1 := c'];
  }

  /** The store takes both requests: it does not check references, or they do not share one. */
  predicate BothTaken(unique: bool, r: Request, r': Request) {
    !unique || r.reference == "" || r.reference != r'.reference
  }

  lemma OneInsert(unique: bool, sys: System, sys': System, client: nat)
    requires CanInsert(sys, client) && sys' == Step(unique, sys, Insert(client))
    requires !(unique && Repeats(sys.books, sys.clients[client].ledger, sys.clients[client].request))
    ensures var c := sys.clients[client];
      && Flows(sys'.books.moves) == Flows(sys.books.moves) + c.built.moves
      && sys'.commits == sys.commits + [PostOp(c.ledger, c.request)]
      && sys'.books == InsertBuilt(sys.books, c)
    ensures forall other :: other in sys.clients && other != client ==>
      other in sys'.clients && sys'.clients[other] == sys.clients[other]
  {
    hide FirstError;
    var c := sys.clients[client];
    InsertAppends(sys.books, c.ledger, c.request.reference, c.request.postings, c.built.moves);
  }

  lemma BothInsert(unique: bool, sys: System, mid: System, end: System)
    requires CanInsert(sys, 0) && CanInsert(sys, 1) && sys.books == EMPTY
    requires BothTaken(unique, sys.clients[0].request, sys.clients[1].request)
    requires mid == Step(unique, sys, Insert(0)) && end == Step(unique, mid, Insert(1))
    ensures var c, c' := sys.clients[0], sys.clients[1];
      && Flows(end.books.moves) == c.built.moves + c'.built.moves
      && end.commits == sys.commits + [PostOp(c.ledger, c.request)] + [PostOp(c'.ledger, c'.request)]
      && end.books == InsertBuilt(InsertBuilt(EMPTY, c), c')
  {
    hide Step, InsertBuilt;
    var c, c' := sys.clients[0], sys.clients[1];
    assert Flows(EMPTY.moves) == [];
    assert Txs(EMPTY, c.ledger) == [] && Txs(EMPTY, c'.ledger) == [];
    OneInsert(unique, sys, mid, 0);
    InsertStores(EMPTY, c, c'.ledger, c'.request.reference);
    OneInsert(unique, mid, end, 1);
  }

  lemma OverlapFromEmpty(ledger: string, r: Request, r': Request, account: string, asset: string)
    requires Fresh(r) && Fresh(r')
    requires Touches(Entries(r.postings), account, asset) && Touches(Entries(r'.postings), account, asset)
    ensures !ExactAt(NewFlows([], ledger, Entries(r.postings)) + NewFlows([], ledger, Entries(r'.postings)),
                     ledger, account, asset)
  {
    var es, es' := Entries(r.postings), Entries(r'.postings);
    LedgerLaws.AllAcceptable(r.postings);
    LedgerLaws.AllAcceptable(r'.postings);
    OverlapCorrupts([], ledger, es, es', account, asset);
    assert [] + NewFlows([], ledger, es) == NewFlows([], ledger, es);
  }

  /** A call that has read all its ends from an empty store. */
  function AllRead(ledger: string, r: Request): Client {
    Building(ledger, r, Build(ledger, Entries(r.postings), Stored([], ledger)))
  }

  /** Two posts, inserted after both have read everything. */
  lemma ReadThenInsert(unique: bool, ledger: string, r: Request, r': Request) returns (actions: seq<Action>)
    requires Fresh(r) && Fresh(r') && BothTaken(unique, r, r')
    ensures var sys := Steps(unique, actions);
      var first, second := NewFlows([], ledger, Entries(r.postings)), NewFlows([], ledger, Entries(r'.postings));
      && sys.commits == [PostOp(ledger, r)] + [PostOp(ledger, r')]
      && Flows(sys.books.moves) == first + second
      && sys.books == InsertBuilt(InsertBuilt(EMPTY, AllRead(ledger, r)), AllRead(ledger, r'))
  {
    hide Step, BuildEnds, InsertBuilt, FirstError, Build;
    var read, c, c' := BothRead(unique, ledger, r, r');
    OneStep(unique, read, Insert(0));
    OneStep(unique, read + [Insert(0)], Insert(1));
    assert [PostOp(ledger, r)] + [PostOp(ledger, r')] == [] + [PostOp(ledger, r)] + [PostOp(ledger, r')];
    actions := read + [Insert(0)] + [Insert(1)];
    BothInsert(unique, Steps(unique, read), Steps(unique, read + [Insert(0)]), Steps(unique, actions));
    BuildEndsIsBuild(ledger, Entries(r.postings), Stored([], ledger));
    BuildEndsIsBuild(ledger, Entries(r'.postings), Stored([], ledger));
  }

  /** Why the footprints must be disjoint: any two posts that share an account and asset, and that the store takes,
      have an interleaving after which a cached total there is wrong. */
  lemma OverlapLosesUpdate(unique: bool, ledger: string, r: Request, r': Request, account: string, asset: string)
    returns (actions: seq<Action>)
    requires Fresh(r) && Fresh(r') && BothTaken(unique, r, r')
    requires Touches(Entries(r.postings), account, asset) && Touches(Entries(r'.postings), account, asset)
    ensures !ExactAt(Flows(Steps(unique, actions).books.moves), ledger, account, asset)
  {
    hide FirstError, NewFlows, InsertBuilt, Build;
    actions := ReadThenInsert(unique, ledger, r, r');
    OverlapFromEmpty(ledger, r, r', account, asset);
  }

  lemma InsertedBalance(st: State, c: Client, account: string, asset: string)
    requires c.Building?
    ensures LedgerEffects.BalanceOf(InsertBuilt(st, c), c.ledger, account, asset) ==
            LedgerEffects.BalanceOf(st, c.ledger, account, asset) + NetOf(Entries(c.request.postings), account, asset)
  {
    hide FirstError;
    var tx := NumberTransaction(st, c.ledger, c.request.reference, c.request.postings);
    InsertAppends(st, c.ledger, c.request.reference, c.request.postings, c.built.moves);
    NumberingKeepsErrors(c.request.postings, tx.id, tx.id);
    LedgerLaws.ReplayedAppend(Txs(st, c.ledger), tx, account, asset);
  }

  /** Why the references must be checked by the store: over one that does not, any two posts under one reference have an
      interleaving after which both are committed, and every balance has moved by both. */
  lemma OverlapPostsTwice(ledger: string, r: Request, r': Request) returns (actions: seq<Action>)
    requires Fresh(r) && Fresh(r') && r.reference == r'.reference != ""
    ensures var sys := Steps(false, actions);
      && sys.commits == [PostOp(ledger, r)] + [PostOp(ledger, r')]
      && !DistinctReferences(sys.commits)
      && forall account, asset :: LedgerEffects.BalanceOf(sys.books, ledger, account, asset) ==
           NetOf(Entries(r.postings), account, asset) + NetOf(Entries(r'.postings), account, asset)
  {
    hide FirstError, NewFlows, InsertBuilt, Build;
    actions := ReadThenInsert(false, ledger, r, r');
    var c, c' := AllRead(ledger, r), AllRead(ledger, r');
    var sys := Steps(false, actions);
    assert sys.commits[0] == PostOp(ledger, r) && sys.commits[1] == PostOp(ledger, r');
    assert Txs(EMPTY, ledger) == [];
    forall account, asset
      ensures LedgerEffects.BalanceOf(sys.books, ledger, account, asset) ==
              NetOf(Entries(r.postings), account, asset) + NetOf(Entries(r'.postings), account, asset)
    {
      InsertedBalance(EMPTY, c, account, asset);
      InsertedBalance(InsertBuilt(EMPTY, c), c', account, asset);
    }
  }
}
